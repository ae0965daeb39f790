# Verified model of the client's protocol and timeline state

This project models, in Dafny, the deterministic state of a chat client: text
search, the message timelines, the channel tree, and the connection state
machines for capabilities, accounts, presence, channel modes, labeled messages
and rate limits. Each state that the client updates in place is a class with
the same fields; each loop is a method proved against a specification. The
promises of the client are stated about those specifications for every input
and every run.

| module | what it models |
|---|---|
| `Text`, `Names`, `Slices`, `Lists`, `Sizes` | lowercasing and UTF-8 widths, name folding, binary search, lists with hidden entries, sizes of tables |
| `Search`, `LogScan`, `SearchRuns` | Knuth-Morris-Pratt over folded text, the sliced scan over many logs, and scans of logs that change meanwhile |
| `Duplicates`, `ServerTime`, `Timeline` | the duplicate filter, the server-time order, and the sequences of live lines and older pages |
| `ChannelOrder`, `Layout`, `Groups`, `Moves`, `Headings`, `ChannelTree` | the chosen channel order, the nested conversation vector with its index, the groups, what a move shows, and every operation on the tree |
| `SavedGroups` | the groups as the settings keep them |
| `Avatars` | occupancies of names and the bounded avatar tables |
| `Presence`, `Accounts`, `ChannelModes`, `Capabilities`, `Echoes` | per-connection state machines, one line at a time |
| `ModeLines`, `Keywords`, `RateLimits` | the fewest `MODE` lines, keyword ranges, sliding-window limits |

Invariants over every run are the `Valid()`, `Consistent()` and `Settled()`
predicates: the constructors establish them and every method keeps them. Of the
tree, `Valid()` also says that the channels of every network are sorted by rank
while their names are distinct. Ghost fields record histories (admitted events,
tracked messages, past occupancies, lines read, the log of every sequence, what
a page was checked against, what every conversation was fed, what the lines told
of every nickname) so that a statement about a whole run is an invariant too.

Where a method and its contract name the same function, a lemma says what that
function means for a caller without naming it: these lemmas end in `Means`,
`Is` or `Shows`.

## Where the code and its promises part

* Replaying the account events mirrors the users table except in one case: an
  entry under an empty nickname left with nothing known is dropped without an
  event, because an empty nickname is how the code tells a new entry
  (`crates/irc-core/src/accounts.rs:150-193`). `Accounts.Learn` and
  `Accounts.Observe` state the mirror as an if-and-only-if.
* `match_at` calls a match equal text, but accepts one that ends inside the
  lowercase form of its last character (`crates/app/src/notifications.rs:154-169`).
  `Keywords.WholeMatch` and `Keywords.MatchAt` say exactly when it is equal. The
  search, by contrast, takes whole characters only.
* `display_parent` is documented to answer what the tree would; it does not for
  a channel that shares its ASCII-lowercase name with a later one when their
  key is grouped (`crates/app/src/groups.rs:285-310`). `Groups.ParentsAgree`
  gives the exact condition.
* Ending every occupancy is documented to keep the avatars of older messages
  (`crates/app/src/avatars.rs:198-207`), but when more than 512 names end at
  once the whole table has one end, and the eviction forgets all of it:
  `Avatars.EndsACrowd` is such a run. `Avatars.NetworkAvatars.EndAll` states
  exactly when nothing is forgotten: the names already retired, together with
  those whose occupancy started before the next message, are at most 512.
* A search in progress is documented to read no line twice and to skip none
  when a log changes between two slices (`crates/app/src/search.rs:290-295`).
  That holds of sequences (`LogScan.Scan.Step`), but not of messages.
  `LogScan.Scan.RunAcross` gives the exact condition at a change: a message is
  read exactly once if and only if the scan had passed both its old and its
  new place, or neither; a line that is new is read if and only if the scan had
  not passed its place. `LogScan.ReadOnce` extends this to any number of
  changes. It fails when settling a page hands its sequences out again
  (`SearchRuns.PageSettledMeanwhile`) and when an older page streams in below
  where the scan stands (`SearchRuns.StreamedMeanwhile`).

## Model

| member | source | states |
|---|---|---|
| `Names.AsciiMergesLeast` | crates/model/src/names.rs:37-62 | names that agree in ASCII lowercase agree under every mapping |
| `Names.SameMeans` | crates/model/src/names.rs:37-62 | two names are the same exactly when they are as long and every two characters are, but for the case of an ASCII letter and, unless the mapping is ASCII, of the signs that stand for letters |
| `Names.RankStripped` | crates/app/src/lib.rs:2258-2264 | a nickname comes back under any rank signs put in front of it |
| `Text.WidthIsLeast` | crates/irc-core/src/modes.rs:105-110 | a character takes the least number of bytes whose payload bits hold it |
| `Text.TrimMeans` | crates/irc-core/src/accounts.rs:94-96 | trimming takes all spaces at both ends and nothing else |
| `Search.Query.New` | crates/app/src/search.rs:65-82 | a query exists exactly for a non-empty term; its form is the folded term and its fallback table gives the longest border of every prefix |
| `Search.Advance` | crates/app/src/search.rs:113-121 | after one more folded character the matched count is again the longest prefix of the term that ends there, paid for by earlier progress (amortised fallback steps) |
| `Search.FallBack` | crates/app/src/search.rs:113-116 | the border of a matched prefix is the next longest prefix that still ends here: no candidate is skipped |
| `Search.OldestKept` | crates/app/src/search.rs:107-128 | the ring buffer still holds the origin of the first folded character of a full match |
| `Search.FoundMatch` | crates/app/src/search.rs:122-136 | a full match whose ring entry is a character start is a run of whole characters that folds to the term, starting at the byte the ring gives |
| `Search.FirstEndIsLeftmost` | crates/app/src/search.rs:122-136 | the match that ends first is the leftmost one |
| `Search.ShortTextHasNoMatch` | crates/app/src/search.rs:103-106 | the length shortcut loses nothing: a rest whose triple byte length is below the folded term holds no match |
| `Search.Query.FindFrom` | crates/app/src/search.rs:102-139 | the result is exactly the byte range of the leftmost run of whole characters whose folded form is the term, none only when there is none; fallback steps never exceed folded characters read |
| `Search.Query.IsIn` | crates/app/src/search.rs:84-86 | true exactly when the term occurs |
| `Search.Query.Ranges` | crates/app/src/search.rs:89-97 | each range is the leftmost match after the one before, and none is left after the last |
| `LogScan.NewestIsUnique` | crates/app/src/search.rs:299-320 | what was found determines the hits kept (the newest 10,000 in ascending order) and whether any is missing (exactly when more were found) |
| `LogScan.KeepNewest` | crates/app/src/search.rs:311-320 | sorting and cutting after a slice keeps the newest of everything found so far |
| `LogScan.MatchFrom` | crates/app/src/search.rs:271-288 | a hit is exactly a line, by its log and sequence, in which the term occurs |
| `LogScan.CostMeans` | crates/app/src/search.rs:204-208 | a unit of the budget pays for a line and each 64 bytes it fills, so a slice reads fewer than 64 bytes a unit before its last line |
| `LogScan.Scan.Read` | crates/app/src/search.rs:271-288 | a slice of one log adds exactly the matching lines it read; the cost of the lines before the last one it read is below the budget, and it stops before the end only when the budget is used up |
| `LogScan.Scan.ReadSources` | crates/app/src/search.rs:295-310 | over all logs the hits grow by exactly what was read, from where the scan stood; before the last line read the budget was not used up, and a positive budget always makes progress |
| `LogScan.Scan.Step` | crates/app/src/search.rs:295-322 | however the logs changed since the last step, a slice reads exactly the lines between where the scan stood and where it stands then, at most as many as its budget; no sequence of a log is ever read twice, and the hits are the newest of all matching lines read |
| `LogScan.Scan.Run` | crates/app/src/search.rs:295-322 | over logs that stay as they are, any sequence of positive budgets ends, with every line read once, so with exactly what one pass finds |
| `LogScan.Scan.RunOver` | crates/app/src/search.rs:290-295 | over logs that change between the slices, each slice reads exactly the lines of the logs of its moment between the places before and after it; a line that stays in its log is read once the scan has passed it |
| `LogScan.Scan.RunAcross` | crates/app/src/search.rs:290-295 | when the logs change once, a line of the old logs was read exactly when the scan had passed it, one of the new logs is read exactly when it had not, and a message that is the one before and the other after is read exactly once if and only if the scan, at the change, had passed both or neither |
| `LogScan.ReadsBalance` | crates/app/src/search.rs:290-295 | over any number of changes, a message is read once for every time it is put back before the scan, less once for every time it is put behind, and once more if it was ahead at first and is behind at last |
| `LogScan.ReadOnce` | crates/app/src/search.rs:290-295 | so in a whole run a message that is always there is read exactly once if and only if it is put back as often as it is put behind |
| `LogScan.ArrivalIsRead` | crates/app/src/search.rs:290-295 | a line that arrives meanwhile and keeps its sequence is read once when it arrives ahead of the scan and is passed, else never |
| `LogScan.MoreIsBetween` | crates/app/src/search.rs:295-310 | reading on adds, in order, exactly the lines of the logs between the two places |
| `LogScan.ReadOn` | crates/app/src/search.rs:290-295 | so what was read stays in order by source and sequence, without repetition, whatever happened to the logs before |
| `SearchRuns.PageSettledMeanwhile` | crates/app/src/lib.rs:1688-1742 | a run in which a page settles between two slices: a line is read under both of its sequences, and the one it changed places with, already passed, never |
| `SearchRuns.SettlingSwaps` | crates/app/src/lib.rs:1688-1742 | two lines streamed in the reverse of their server times change places when their page settles |
| `SearchRuns.StreamedMeanwhile` | crates/app/src/lib.rs:1660-1679 | a run in which an older line streams in below where the scan stands, over any log and any budgets: it is in the log to the end and never read |
| `Presence.PresenceIndex.constructor` | crates/irc-core/src/presence.rs:321-341 | the three tables start mutually inverse |
| `Presence.PresenceIndex.ReplaceChannel` | crates/irc-core/src/presence.rs:194-247 | a roster snapshot keeps the tables inverse; the channel holds exactly its members, who take the spelling of their last entry; others go only when this was their last channel, users keep their identifiers and new ones are never reused |
| `Presence.SpellingMeans` | crates/irc-core/src/presence.rs:194-247 | a roster spells a nickname as its last entry under that key does, without rank signs |
| `Presence.PresenceIndex.RemoveChannel` | crates/irc-core/src/presence.rs:250-257 | a left channel goes, and with it exactly the users who were in no other one |
| `Presence.PresenceIndex.Rename` | crates/irc-core/src/presence.rs:260-277 | a nickname change keeps the user and their channels under the new name; a stale holder of that name goes from every table |
| `Presence.PresenceIndex.Quit` | crates/irc-core/src/presence.rs:290-305 | exactly the named user goes, from every table; every channel keeps its key, its name and its other users |
| `Presence.PresenceIndex.SetCasemapping` | crates/irc-core/src/presence.rs:60-89 | channels are filed again: users of channels that now fold alike are united, every channel takes the name of one of those filed under its key, also without members, and nobody is lost, added or respelled |
| `Presence.PresenceIndex.OnlyIn` | crates/irc-core/src/presence.rs:115-128 | exactly the users in this channel and no other, each once, by their spelling and in its order |
| `Presence.PresenceIndex.Departed` | crates/irc-core/src/presence.rs:136-161 | whom a message takes out of sight: the actor of a quit, or of a part or kick from their last shared channel, or everybody only in the channel we leave, never ourselves |
| `Presence.PresenceIndex.Follow` | crates/irc-core/src/presence.rs:136-161 | for us and everybody recorded, the names given are exactly the other people the table no longer holds once the message is applied |
| `Capabilities.WantedTogether` | crates/irc-core/src/cap.rs:144-220 | every option set yields distinct wanted capabilities in which batch accompanies what needs it and message-tags accompanies labeled-response |
| `Capabilities.OptionalMeans` | crates/irc-core/src/cap.rs:144-209 | wanted is exactly what the options name, what that needs, and the two extensions any negotiation asks for |
| `Capabilities.ExplicitMeans` | crates/irc-core/src/cap.rs:144-209 | explicitly wanted is exactly what the options name and the two extensions any negotiation asks for |
| `Capabilities.CapNegotiation.RequestablesAreDue` | crates/irc-core/src/cap.rs:388-404 | what the loop asks for is what the options say is due |
| `Capabilities.CapNegotiation.AllEnabled` | crates/irc-core/src/cap.rs:388-404 | when everything wanted is offered and nothing may be asked for any more, everything wanted is enabled |
| `Capabilities.GrantsEverything` | crates/irc-core/src/cap.rs:224-319 | over a whole run with a server that offers and grants everything wanted, one request at a time, exactly the wanted capabilities end up enabled, with sasl if it is configured, and CAP END is sent once or no negotiation was needed |
| `Capabilities.MechanismMeans` | crates/irc-core/src/cap.rs:352-375 | a list offers the mechanisms between its commas in whatever case, a bare offer any, and a list too long to keep none |
| `Capabilities.CapNegotiation.constructor` | crates/irc-core/src/cap.rs:144-220 | a negotiation starts with nothing requested, pending or enabled |
| `Capabilities.CapNegotiation.Start` | crates/irc-core/src/cap.rs:224-231 | the listing starts exactly when something is wanted; otherwise the run ends at once |
| `Capabilities.CapNegotiation.Registered` | crates/irc-core/src/cap.rs:247-256 | registration is accepted exactly when SASL, if any, is complete, and then no CAP END follows |
| `Capabilities.CapNegotiation.AppendAck` | crates/irc-core/src/cap.rs:324-334 | of a multiline acknowledgement exactly the tokens about pending or enabled capabilities are held, each once, in the order they came |
| `Capabilities.CapNegotiation.RememberOffers` | crates/irc-core/src/cap.rs:336-362 | nothing known is lost, known and wanted offers take their last value, others keep theirs, unwanted ones stay within the bound |
| `Capabilities.CapNegotiation.RequestAfterListing` | crates/irc-core/src/cap.rs:364-386 | after the listing SASL, if configured, and exactly the due capabilities become pending: offered, not enabled, opted into or needed by an offered one opted into, with batch and message-tags enabled where they are needed; it fails exactly when SASL cannot be had |
| `Capabilities.CapNegotiation.RequestOptional` | crates/irc-core/src/cap.rs:388-404 | requests go to exactly the due capabilities, as the options say them, that are neither pending nor enabled |
| `Capabilities.CapNegotiation.Acknowledge` | crates/irc-core/src/cap.rs:406-431 | the tokens take effect one by one in their order: a pending capability is enabled, a disabled one leaves, and where batch or message-tags came, exactly the capabilities requestable then are asked for |
| `Capabilities.CapNegotiation.AckedMeans` | crates/irc-core/src/cap.rs:406-431 | taken together: what an ACK grants and does not disable is enabled, what it only disables is not, what it does not name stays, and only requested capabilities are ever enabled or pending |
| `Capabilities.CapNegotiation.Declined` | crates/irc-core/src/cap.rs:280-293 | a refusal takes exactly the named ones out of pending and fails exactly when SASL was refused |
| `Capabilities.CapNegotiation.Withdrawn` | crates/irc-core/src/cap.rs:300-309 | a withdrawal takes exactly the named ones out of the offers, pending and enabled |
| `Capabilities.CapNegotiation.EnforceDependencies` | crates/irc-core/src/cap.rs:460-474 | without batch nothing that needs it stays enabled or pending, and exactly those are disabled on the wire |
| `Capabilities.CapNegotiation.EndIfSettled` | crates/irc-core/src/cap.rs:476-483 | CAP END goes out precisely when requesting has nothing pending and SASL, if any, is complete |
| `Capabilities.CapNegotiation.Observe` | crates/irc-core/src/cap.rs:260-319 | after every line: pending is duplicate-free, requested and disjoint from enabled; what needs batch is there only beside it, and what went with it is disabled on the wire; CAP END at most once per run and exactly on the step to the end; each kind of line changes offers, pending, enabled and the held tokens exactly as it says, after a listing and after new offers exactly what is due by the options is pending, and there is an error exactly when SASL cannot go on |
| `Accounts.Accounts.Learn` | crates/irc-core/src/accounts.rs:150-193 | the table learns account, real name and channels, and an entry with nothing known goes; replaying the emitted events mirrors the table exactly unless an entry under an empty nickname is left with nothing known |
| `Accounts.RecordedHeard` | crates/irc-core/src/accounts.rs:150-193 | what was learned of a nickname is what the lines told of it: it is in every channel it was in before and in those of the line, with the last account and real name given |
| `Accounts.HeardIsKept` | crates/irc-core/src/accounts.rs:150-193 | after it, the nickname is recorded, as it was spelled last, exactly when it is in a channel with an account or a real name and was recorded before or there is room |
| `Accounts.ListedIsKept` | crates/irc-core/src/accounts.rs:367-388 | after a member list, of those recorded before exactly the ones still in some channel are |
| `Accounts.CalledIsKept` | crates/irc-core/src/accounts.rs:301-331 | after a nickname change all that was told of the old name is told of the new one, and of the old one nothing |
| `Accounts.AccountMeans` | crates/irc-core/src/accounts.rs:89-92 | a line names an account unless it says a star or nothing or too much, and a reply unless it says zero |
| `Accounts.RealnameMeans` | crates/irc-core/src/accounts.rs:94-103 | a real name is kept without the spaces around it, the longest beginning within the bound |
| `Accounts.NotedMeans` | crates/irc-core/src/accounts.rs:216-231 | a departure is known unless more names left than can be noted |
| `Accounts.StillMirrors` | crates/irc-core/src/accounts.rs:150-193 | events that mirror a step keep a view fed by all events in agreement with the table, up to the empty nickname |
| `Accounts.SilentDropExists` | crates/irc-core/src/accounts.rs:150-193 | the silent case is reachable: a user renamed to the empty nickname and then logged out |
| `Accounts.Accounts.LeaveAll` | crates/irc-core/src/accounts.rs:203-211 | leaving a channel forgets exactly the users it was the last shared channel of, and says so |
| `Accounts.Accounts.Departed` | crates/irc-core/src/accounts.rs:216-231 | during a query a departure that concerns it is remembered, within 4,096 names and beyond that by marking the set overflowed; who is gone is tracked exactly |
| `Accounts.Accounts.Returned` | crates/irc-core/src/accounts.rs:235-262 | a return during a query is no longer a departure |
| `Accounts.Accounts.Observe` | crates/irc-core/src/accounts.rs:235-346 | every entry is what the lines so far told of its nickname: the channels it was put in and not taken out of since, and the last account and real name given; who is recorded after a line is exactly who is worth it; over a whole run a view fed by every event agrees with the table about every nickname but the empty one, and about that one too unless an entry was dropped silently |
| `Accounts.Accounts.ForgetChannel` | crates/irc-core/src/accounts.rs:348-363 | leaving a channel ourselves forgets exactly those sharing no other one, exactly its entry in the queue and its outstanding query, and says so |
| `Accounts.Accounts.Renamed` | crates/irc-core/src/accounts.rs:301-331 | a nickname change moves the entry, and the events mirror it |
| `Accounts.Accounts.Names` | crates/irc-core/src/accounts.rs:367-388 | a complete member list puts exactly its members in the channel and forgets those left without one; every entry stays what the lines told, the list among them, and the events mirror it |
| `Accounts.Accounts.Isupport` | crates/irc-core/src/accounts.rs:123-137 | whether queries are sent at all is what the last token about it says, whatever its value and case |
| `Accounts.Accounts.Joined` | crates/irc-core/src/accounts.rs:391-408 | a join queues the channel once, within the bound, unless its query is out |
| `Accounts.Accounts.NextWho` | crates/irc-core/src/accounts.rs:411-437 | one query at a time: the next goes out in order once none waits unanswered, with a token from 1 to 999 unlike the one before and an empty departed set |
| `Accounts.Accounts.ObserveWho` | crates/irc-core/src/accounts.rs:442-475 | only lines of the outstanding query count, every one about somebody who did not leave since is learned while the departed are all known, and one about someone who left since and did not return changes nothing, also once the departed set overflowed |
| `Accounts.Accounts.SetCasemapping` | crates/irc-core/src/accounts.rs:110-117 | another mapping starts over; the same one changes nothing |
| `ModeLines.EffectiveLimit` | crates/irc-core/src/modes.rs:69-74 | an announced limit is used as it is up to the cap of twelve, a greater one is cut to it, and three modes go in a line when nothing usable was announced (section 3.2.3 of RFC 2812) |
| `ModeLines.ModeLines` | crates/irc-core/src/modes.rs:80-117 | the lines hold each distinct nickname once in first-appearance order with as many flags as nicknames, within the count and byte limits, and no split under those limits has fewer lines |
| `ModeLines.FirstOfEachIsDistinct` | crates/irc-core/src/modes.rs:87-92 | no nickname appears twice under the comparison of nicknames |
| `ModeLines.FirstOfEachMeans` | crates/irc-core/src/modes.rs:87-92 | kept are exactly the names that no earlier one is the same as |
| `ModeLines.FirstOfEachGrows` | crates/irc-core/src/modes.rs:87-92 | and they keep their order: later names change nothing about those before |
| `ModeLines.LineAsks` | crates/irc-core/src/modes.rs:96-103 | a line names the channel and the members and its flags, read one by one as a client reads them, ask for that change of each |
| `ModeLines.StaysAhead` | crates/irc-core/src/modes.rs:93-117 | filling each line as far as it goes stays ahead of every other split |
| `ModeLines.FilledIsShortest` | crates/irc-core/src/modes.rs:93-117 | so no other split under the limits needs fewer lines |
| `Keywords.OverlapsAnyIsExact` | crates/app/src/notifications.rs:148-151 | the binary search agrees with checking every excluded range |
| `Keywords.MergeCovers` | crates/app/src/notifications.rs:120-132 | merging a range keeps the ranges ascending with a gap and adds exactly its bytes |
| `Keywords.MatchAt` | crates/app/src/notifications.rs:154-169 | a match is found exactly when the lowercase of the following characters begins with the keyword, the last one possibly in part, and its length is that of the one end that fits; it is a match of whole characters exactly when the lowercase of some characters from there has the keyword's length |
| `Keywords.KeywordRangesOutside` | crates/app/src/notifications.rs:105-137 | the ranges ascend with a gap between each two and cover exactly the bytes of the occurrences, of the trimmed and lowercased keywords, that overlap no excluded range |
| `Keywords.MayEndInside` | crates/app/src/notifications.rs:154-169 | an occurrence may end inside the lowercase form of its last character, where its text does not equal the keyword |
| `Keywords.WholeMatch` | crates/app/src/notifications.rs:154-169 | an occurrence is a match of the search exactly when the lowercase of some characters from its start has the keyword's length |
| `RateLimits.AtMost` | crates/app/src/notifications.rs:193-213 | events spread over the window leave at most the limit in every half-open span of it |
| `RateLimits.CountMeans` | crates/app/src/notifications.rs:193-213 | each event of a window is counted once, by its place |
| `RateLimits.BurstLimiter.Allow` | crates/app/src/notifications.rs:199-212 | an event is admitted exactly when fewer than five were in the last ten seconds, so every half-open ten seconds hold at most five |
| `RateLimits.Budget.Admit` | crates/irc-core/src/ctcp.rs:88-109 | a request is admitted exactly within five in total and two of its user; a refusal is reported at most once per window |
| `RateLimits.Budget.Forget` | crates/irc-core/src/ctcp.rs:89-97 | dropping stale instants keeps exactly the fresh ones in the total and in every user queue |
| `RateLimits.Budget.Record` | crates/irc-core/src/ctcp.rs:106-108 | the per-user queues together again hold exactly the instants of the total |
| `Echoes.NumeralReadBack` | crates/irc-core/src/echo.rs:76-88 | the base-36 numeral of a label can be read back |
| `Echoes.LabelsDiffer` | crates/irc-core/src/echo.rs:76-88 | so no two counters give the same label |
| `Echoes.NumeralDigits` | crates/irc-core/src/echo.rs:76-88 | a numeral is written in digits and lower-case letters without a zero in front |
| `Echoes.MakeLabel` | crates/irc-core/src/echo.rs:76-88 | the digit loop produces that numeral |
| `Echoes.Echoes.Track` | crates/irc-core/src/echo.rs:93-121 | a message is tracked unless the list is full, under a label never used before when labels are on |
| `Echoes.Echoes.Untrack` | crates/irc-core/src/echo.rs:124-126 | exactly the messages of that identifier leave the list |
| `Echoes.Echoes.NextDeadline` | crates/irc-core/src/echo.rs:136-140 | the earliest deadline of all pending messages |
| `Echoes.Echoes.Expire` | crates/irc-core/src/echo.rs:143-157 | exactly the messages past their deadline fail, oldest first |
| `Echoes.Echoes.Reset` | crates/irc-core/src/echo.rs:161-170 | every pending message fails and no batch stays open |
| `Echoes.Echoes.Observe` | crates/irc-core/src/echo.rs:206-318 | a line settles at most the one message its label or content picks, by one confirmation or one failure; a labeled line settles only a message with its label, and while labels are on an unlabeled one settles only an unlabeled message; over any run every tracked message is pending, confirmed, failed or untracked exactly once |
| `Echoes.Echoes.Settle` | crates/irc-core/src/echo.rs:172-200 | the settled message leaves the list, the others stay in order |
| `Echoes.EchoMeans` | crates/irc-core/src/echo.rs:252-318 | a labelled line of ours, acknowledgement or failure settles the oldest message of that label, an unlabelled line of ours the oldest message it repeats, and no other line settles any; a failure fails it with its reason, anything else confirms it with the text the server sent instead |
| `Echoes.LabelMeans` | crates/irc-core/src/echo.rs:241-249 | a line is about its own label, or else about the label of the open batch it is part of |
| `Echoes.RoomMade` | crates/irc-core/src/echo.rs:225-227 | only the oldest batch is forgotten, and only when sixteen are open |
| `Echoes.Echoes.Frame` | crates/irc-core/src/echo.rs:206-262 | a batch that starts with the label of a pending message carries that label until it ends, or until it is the oldest of sixteen when another one starts; any other start changes nothing, and an end closes exactly its batch |
| `ChannelModes.FewFlags` | crates/irc-core/src/chanmodes.rs:249-260 | at most 52 letters qualify, so the bound of 64 flags never bites |
| `ChannelModes.SetShows` | crates/irc-core/src/chanmodes.rs:249-260 | one change keeps the flags exactly the letters set and not cleared since |
| `ChannelModes.ApplyAll` | crates/irc-core/src/chanmodes.rs:238-247 | so do all changes of a line |
| `ChannelModes.QualifiedSets` | crates/irc-core/src/chanmodes.rs:249-260 | a letter is set exactly when it is an ASCII letter that may be a flag and the last change of it sets it |
| `ChannelModes.ChangeAt` | crates/irc-core/src/chanmodes.rs:238-247 | every letter of a reply is one change, in its place, and the last sign before it says which |
| `ChannelModes.ChannelModes.Observe` | crates/irc-core/src/chanmodes.rs:108-156 | a reply restarts the flags, a change continues them, replayed lines do nothing; the shown flags are the letters set and not cleared since the reply |
| `ChannelModes.ChannelModes.Joined` | crates/irc-core/src/chanmodes.rs:161-171 | a join tracks the channel with unknown modes and queues its current spelling once, within 512 channels |
| `ChannelModes.ChannelModes.Left` | crates/irc-core/src/chanmodes.rs:180-186 | a left channel is neither tracked, queued nor awaited |
| `ChannelModes.ChannelModes.TakeQueries` | crates/irc-core/src/chanmodes.rs:191-203 | queries go out in order while fewer than four are unanswered; a queue left non-empty has a later deadline |
| `ChannelModes.ChannelModes.NextDeadline` | crates/irc-core/src/chanmodes.rs:207-212 | there is a deadline exactly when something waits behind an unanswered query |
| `ChannelModes.ChannelModes.SetCasemapping` | crates/irc-core/src/chanmodes.rs:216-236 | every queued name stays the current spelling of a distinct tracked channel; colliding channels become one with unknown modes |
| `Duplicates.WindowIsNewest` | crates/app/src/timeline.rs:144-159 | the window is always the newest 512 keys recorded |
| `Duplicates.SameKey` | crates/app/src/timeline.rs:119-135 | two messages share a key exactly when their source gave them one identifier or, without identifiers, one time, sender and kind and the same text as far as it is read |
| `Duplicates.RepeatRecognized` | crates/app/src/timeline.rs:144-159 | a repeated line that may be suppressed is recognized while at most 511 other keys were recorded since |
| `Duplicates.NewIsNew` | crates/app/src/timeline.rs:144-159 | and only a line whose key was recorded is ever recognized |
| `Duplicates.OverlapIsExact` | crates/app/src/timeline.rs:144-177 | 256 topmost and at most 256 page lines never overflow the window, so a line is recognized exactly when it shares a key with one of them |
| `Duplicates.DuplicateFilter.Admit` | crates/app/src/timeline.rs:144-159 | queue and set hold the same distinct keys, at most 512, and a message is new exactly when it is not recognized |
| `Duplicates.DuplicateFilter.Contains` | crates/app/src/timeline.rs:163-166 | the check without recording gives the same answer |
| `ServerTime.ServerTimeOrder` | crates/app/src/lib.rs:268-279 | the order of a page is the stable sort by carried-forward time |
| `ServerTime.OrderIsUnique` | crates/app/src/lib.rs:268-279 | sorted and stable leaves only one order |
| `ServerTime.UntimedStays` | crates/app/src/lib.rs:262-279 | a line without a time goes directly after the line it arrived after |
| `ServerTime.UntimedFirst` | crates/app/src/lib.rs:262-279 | lines before the first time stay in front where they arrived |
| `ServerTime.PickKeeps` | crates/app/src/lib.rs:1704-1712 | reordering loses and repeats no line |
| `Timeline.TrimmedIsTail` | crates/app/src/lib.rs:2326-2332 | only the oldest lines go, in blocks, and between 1,001 and 2,000 remain |
| `Timeline.TrimRetained` | crates/app/src/lib.rs:2326-2332 | the loop drops exactly those, and tells whether any went |
| `Timeline.PlacedKeeps` | crates/app/src/lib.rs:1660-1679 | a line inserted by its sequence keeps the log ascending |
| `Timeline.PageFits` | crates/app/src/lib.rs:1697-1717 | a page never holds more lines than sequences, so settling cuts nothing off |
| `Timeline.SettledKeeps` | crates/app/src/lib.rs:1688-1742 | settling keeps the log ascending, uses only the page's own sequences and leaves everything outside the page as it was |
| `Timeline.SettlingSorts` | crates/app/src/lib.rs:1688-1742 | settling is a stable sort of exactly the page by carried time, untimed lines directly after their predecessor |
| `Timeline.SettlingConserves` | crates/app/src/lib.rs:1688-1742 | settling loses and repeats no line |
| `Timeline.FeedAppends` | crates/app/src/lib.rs:1623-1657 | a finished reply ends the log with the accepted lines in their order under consecutive new sequences |
| `Timeline.SearchMayScan` | crates/app/src/lib.rs:826-829 | the logs always satisfy what a search over them needs: ascending, and no sequence in two logs |
| `Timeline.SearchMayGoOn` | crates/app/src/lib.rs:826-829 | while the timeline goes on no sequence moves to another log, as a search over changing logs needs |
| `Timeline.ClaimSettled` | crates/app/src/lib.rs:1936-1942 | settling hands out again only sequences of the conversation's own block, so none goes to another log |
| `Timeline.PageOfPlaced` | crates/app/src/lib.rs:1900-1910 | a streamed line is the last of its page |
| `Timeline.HoldsTrimmed` | crates/app/src/lib.rs:2326-2332 | whatever retention drops, a block holds the newest lines its page streamed, in the order they came |
| `Timeline.GoodSettled` | crates/app/src/lib.rs:1936-1942 | a page that settles consists of exactly those lines, and everything holds again without its block |
| `Timeline.Timeline.AppendTo` | crates/app/src/lib.rs:774-782 | a live line takes the next sequence at the end of its log, and every log, block and reserved range stays sound |
| `Timeline.Timeline.Append` | crates/app/src/lib.rs:1342-1361 | a line is refused when the conversation was fed one of its key with at most 511 other keys since, and only if it ever was; otherwise it takes the next sequence, and the filter remembers exactly what was fed |
| `Timeline.Timeline.PushHistoryLine` | crates/app/src/lib.rs:1607-1614 | a line of a requested reply is held; any other changes nothing |
| `Timeline.Timeline.FinishHistory` | crates/app/src/lib.rs:1623-1657 | the gap note and then the held lines in server-time order go through the filter to the end of the log, and the filter remembers each that is added |
| `Timeline.FilterMeans` | crates/app/src/lib.rs:1350-1354 | in every reachable state a line fed recently is refused, and a refused line was fed before; a live line without an identifier is never refused |
| `Timeline.FeedRemembers` | crates/app/src/lib.rs:1623-1657 | after a reply the filter is the window over all that was fed before and what it let through |
| `Timeline.AcceptedMeans` | crates/app/src/lib.rs:1623-1657 | of a reply each line is added in its turn unless it repeats a line fed before or added from this reply |
| `Timeline.ReplySorts` | crates/app/src/lib.rs:1640-1656 | a reply is its note followed by its lines stably sorted by the times they carry, each once |
| `Timeline.Timeline.RoomMeans` | crates/app/src/lib.rs:1876-1892 | a new page has room for as many lines as it has sequences, or for those that fill up the log |
| `Timeline.Timeline.RequestOlder` | crates/app/src/lib.rs:1763-1804 | a page may be asked for exactly under the stated conditions, for fifty lines or as many as fill up the log, before the first of the oldest lines near the top, under a fresh request number |
| `Timeline.Timeline.OpenBlock` | crates/app/src/lib.rs:1856-1893 | a new block lies below everything given out so far, its sequences are the conversation's for good, and it is checked against exactly the 256 topmost lines |
| `Timeline.Timeline.PushOlderLine` | crates/app/src/lib.rs:1842-1911 | a page line is added exactly when its request is in flight, there is room, and it shares no key with recent lines, the topmost lines or the page; it goes below the page and above all else |
| `Timeline.Timeline.PlaceStreamed` | crates/app/src/lib.rs:1660-1679 | the line is inserted at the place of its sequence, and the log trimmed |
| `Timeline.Timeline.Settle` | crates/app/src/lib.rs:1688-1742 | the drained lines return in server-time order with the page's sequences handed out again |
| `Timeline.Timeline.FinishOlder` | crates/app/src/lib.rs:1920-1951 | only the answer to the request in flight settles its page, which is the newest of the lines it streamed, and ends paging when it added nothing; in every interleaving all logs stay strictly ascending and share no sequence |
| `Timeline.Timeline.Remove` | crates/app/src/lib.rs:476-505 | closing conversations gives up their pages, replies and filters and leaves every other log, page and filter as it was |
| `ChannelOrder.MergedChannelOrder` | crates/app/src/lib.rs:595-616 | the loop computes the merge of shown and remembered names |
| `ChannelOrder.MergeIsMerged` | crates/app/src/lib.rs:592-616 | with distinct names the merge holds each name once, the shown ones in shown order, each absent one right after its remembered predecessor |
| `ChannelOrder.MergedIsUnique` | crates/app/src/lib.rs:592-616 | these conditions leave only one order |
| `ChannelOrder.MergeIsIdempotent` | crates/app/src/lib.rs:592-616 | merging again changes nothing |
| `ChannelOrder.MergeKeepsShown` | crates/app/src/lib.rs:592-616 | whatever was remembered, merging keeps distinct shown names in their order and repeats none |
| `ChannelOrder.ShownIsSorted` | crates/app/src/lib.rs:635-665 | distinct shown channels are then sorted by rank, whatever was remembered and also when the stored order was cut at 2,000 names |
| `ChannelOrder.SlotKeepsSorted` | crates/app/src/lib.rs:653-665 | a channel put after those ranked no later keeps them sorted |
| `ChannelOrder.RejoinReturns` | crates/app/src/lib.rs:650-665 | a listed channel that left returns to the place it had |
| `Layout.LayoutIsNested` | crates/app/src/lib.rs:507-519 | the layout invariant means: networks in order, each contiguous, channels before private conversations |
| `Layout.SlotKeepsLayout` | crates/app/src/lib.rs:1063-1098 | every new conversation keeps the layout |
| `Layout.SlotKeepsRanks` | crates/app/src/lib.rs:653-665 | a new channel keeps its network's channels sorted by rank |
| `Layout.SlotRanks` | crates/app/src/lib.rs:653-665 | over sorted channels the binary search finds the one place after those ranked no later |
| `Layout.SortRestoresLayout` | crates/app/src/lib.rs:509-519 | after the networks were rearranged the stable sort restores the layout without reordering any network's channels |
| `Lists.SortIsStable` | crates/app/src/lib.rs:667-689 | sorting keeps the order among elements of equal keys |
| `Moves.SortKeepsRows` | crates/app/src/lib.rs:509-519 | so no network's conversations change their order |
| `Layout.MoveKeepsLayout` | crates/app/src/lib.rs:579-584 | moving within one run keeps the layout |
| `ChannelTree.ChannelTree.Add` | crates/app/src/lib.rs:1043-1114 | a conversation is refused exactly for an unknown or full network, else it takes its slot; every other network and every name already reached stay as they were; layout, index and ranks hold again |
| `ChannelTree.ChannelTree.ChannelId` | crates/app/src/lib.rs:860-863 | the index finds a channel for a folded name exactly when one exists, and then one with that fold |
| `ChannelTree.ChannelTree.EnsureConfigured` | crates/app/src/lib.rs:1016-1030 | a configured channel exists afterwards under its exact name unless the network is unknown or full |
| `ChannelTree.ChannelTree.EnsureChannel` | crates/app/src/lib.rs:1032-1037 | a channel reached under the name is kept, a missing one is inserted at its slot under the next identifier and then reached; nothing else changes |
| `ChannelTree.ChannelTree.PrivateConversation` | crates/app/src/lib.rs:880-916 | a peer's conversation is found under the name used now; a missing one is created exactly when wanted, within 100 and the network's limit, at its slot under the next identifier; nothing else changes |
| `ChannelTree.ChannelTree.PrivateCount` | crates/app/src/lib.rs:895-902 | what is counted against the limit are the private conversations of that network, each once |
| `ChannelTree.ChannelTree.RenamePrivate` | crates/app/src/lib.rs:922-939 | a renamed peer's conversation follows exactly when no other one has the new name, and every other conversation stays as it is |
| `ChannelTree.ChannelTree.ClosePrivate` | crates/app/src/lib.rs:943-969 | exactly that private conversation goes; channels are never closed |
| `ChannelTree.ChannelTree.Drop` | crates/app/src/lib.rs:476-505 | a network's conversations go with its part of the index and its mapping, all other networks keep theirs in order and sorted by rank |
| `ChannelTree.ChannelTree.Sync` | crates/app/src/lib.rs:395-440 | the networks become those configured: kept ones keep their conversations in order, their chosen order and their group members, removed ones lose all, new ones get their channels and nothing else, sorted by rank |
| `ChannelTree.ChannelTree.Reset` | crates/app/src/lib.rs:446-474 | the network gets its configured channels anew under fresh identifiers, sorted by the order it kept; all other networks keep their conversations in order and sorted |
| `ChannelTree.ChannelTree.SetCasemapping` | crates/app/src/lib.rs:842-856 | the network is indexed under the new mapping, and where names fold alike the first channel is reached |
| `ChannelTree.ChannelTree.ApplyOrder` | crates/app/src/lib.rs:667-689 | the network's channels are sorted stably by rank, everything else keeps its order |
| `ChannelTree.ChannelTree.SetChannelOrder` | crates/app/src/lib.rs:628-648 | a saved order is kept within its bound and the channels are arranged by it |
| `ChannelTree.ChannelTree.RememberOrder` | crates/app/src/lib.rs:585-588 | the merged order is stored, and distinct names are then sorted by it; every other network keeps its order |
| `ChannelTree.ChannelTree.GroupRange` | crates/app/src/lib.rs:524-540 | the range holds exactly the conversations of the same network and kind |
| `ChannelTree.ChannelTree.FindPlace` | crates/app/src/lib.rs:562-578 | the place a move leads to among the shown siblings, and there is one exactly when something moves: no first row goes up or to the front, no last one down or to the end, and none to its own place |
| `ChannelTree.ChannelTree.MoveInServer` | crates/app/src/lib.rs:562-590 | up and down exchange the conversation with the shown sibling before and after it, first and last put it at either end, and a place puts it where that sibling stood, although hidden channels lie between; all others keep their order, and with distinct keys every other row of the tree stays; the channels are sorted by rank afterwards |
| `ChannelTree.ChannelTree.MoveConversation` | crates/app/src/lib.rs:547-590 | a move within a server or a group, or to another heading, happens exactly when it can and names the network it changed; within a row it exchanges neighbours, goes to an end or takes the place of the one named, and all others keep their order; across headings, with distinct keys, the tree shows it right before the other one and is otherwise the same; the channels of every network stay sorted by rank |
| `Headings.AimMeans` | crates/app/src/lib.rs:562-578 | in a row without repetition a move goes exactly when it changes something, and then exchanges neighbours, goes to an end or takes the place of the one named while all others keep their order |
| `Headings.MoveMeans` | crates/app/src/lib.rs:547-590 | so in every reachable state, of the row a move within a heading is about |
| `Lists.MovedShown` | crates/app/src/lib.rs:562-584 | moving one shown element past others, shown and hidden, moves it the same way among the shown ones |
| `Lists.MovedOthers` | crates/app/src/lib.rs:579-584 | all others keep their relative order |
| `Groups.ShownOnce` | crates/app/src/groups.rs:248-283 | with each channel listed once over all groups, the tree shows every conversation exactly once |
| `Groups.ShownExists` | crates/app/src/groups.rs:248-283 | and it shows nothing else |
| `Moves.TreeShowsOnce` | crates/app/src/groups.rs:248-283 | this holds in every state the operations reach |
| `Groups.ParentsAgree` | crates/app/src/groups.rs:287-310 | the answer without the tree agrees with the tree exactly when the conversation is private, its key is not grouped, or it is the channel its key stands for |
| `Groups.DistinctKeysAgree` | crates/app/src/groups.rs:285-310 | so it always agrees when no two channels of a network share a name in ASCII lowercase |
| `Groups.ParentsDisagree` | crates/app/src/groups.rs:285-310 | and it does not when two such channels exist and their key is grouped |
| `Groups.ServerMoveShows` | crates/app/src/lib.rs:562-584 | with distinct keys a move among a server's conversations moves that row of the tree the same way and leaves every other row as it was |
| `Moves.MovesToShows` | crates/app/src/lib.rs:562-590 | so the row of the tree moves the conversation to the shown sibling a move names |
| `Groups.GroupMoveShows` | crates/app/src/groups.rs:493-503 | a move within a group moves its row the same way, although absent members lie between, and leaves every other row as it was |
| `Groups.InsertShows` | crates/app/src/groups.rs:349-353 | a channel put before another one of a group is shown right before it |
| `Groups.RemoveShows` | crates/app/src/groups.rs:313-320 | a channel taken out of a group is the only one no longer shown there |
| `Headings.IntoGroup` | crates/app/src/groups.rs:324-355 | with distinct keys a channel put into a group leaves its row of the tree and stands right before the anchor in the group's row, or last; no other row changes |
| `Headings.OntoServer` | crates/app/src/groups.rs:398-436 | with distinct keys a channel that goes back under its server stands right before the other one in the server's row; no other row changes |
| `Headings.RelocatedShows` | crates/app/src/groups.rs:398-436 | so moving before a conversation under another heading does this to the tree |
| `Headings.EndsRowShows` | crates/app/src/groups.rs:442-468 | moving right after the last row of another heading makes it the last row there and changes no other |
| `Headings.ChildrenHere` | crates/app/src/groups.rs:88-109 | what a heading of the tree shows has that heading as its parent |
| `Headings.RehungRow` | crates/app/src/groups.rs:360-440 | the row a conversation came to is the row before with it right before the other one, or last |
| `Headings.StandsAfterMeans` | crates/app/src/groups.rs:442-468 | moving right after another one leaves the two neighbours in that order |
| `ChannelTree.ChannelTree.Display` | crates/app/src/groups.rs:248-283 | the loops build exactly that tree |
| `ChannelTree.ChannelTree.SetGroups` | crates/app/src/groups.rs:153-172 | of the saved groups the first of each name is adopted under a new identifier without channels of unknown networks, and each channel is still listed once |
| `SavedGroups.Sanitized` | crates/storage/src/order.rs:88-131 | the groups read from the settings are those with a usable name, trimmed, and of each one's members the usable ones no earlier place has, within the limits |
| `SavedGroups.NamedMeans` | crates/storage/src/order.rs:108-119 | kept are exactly the groups whose trimmed name is not empty, has at most 64 characters and no control character |
| `SavedGroups.NamedInOrder` | crates/storage/src/order.rs:108-119 | and they keep their order |
| `SavedGroups.KeptOnce` | crates/storage/src/order.rs:121-130 | no member is kept twice, in one group or in two |
| `SavedGroups.NothingLost` | crates/storage/src/order.rs:121-130 | a member is kept only where it is first, if it names a channel and neither name is over 512 bytes, and all these are kept unless their group is full |
| `SavedGroups.CleanStays` | crates/storage/src/order.rs:88-131 | groups without damage are read back as they were saved |
| `SavedGroups.ReadIsClean` | crates/storage/src/order.rs:88-131 | what was read once has no damage, so reading it again changes nothing |
| `SavedGroups.ReadBackOnce` | crates/ui/src/channel_groups.rs:48-74 | what the tree adopts from it lists each channel once, as adopting saved groups requires |
| `Moves.AdoptedIs` | crates/app/src/groups.rs:153-172 | every adopted group comes from the first saved one with its name, and every saved name is there |
| `ChannelTree.ChannelTree.CreateGroup` | crates/app/src/groups.rs:186-206 | a group of that name exists afterwards, an old one or a new empty one, unless the name cannot be used or no group may be added |
| `ChannelTree.ChannelTree.RenameGroup` | crates/app/src/groups.rs:206-224 | a group takes the name exactly when it exists and no other one has it; nothing else changes |
| `ChannelTree.ChannelTree.LeaveGroup` | crates/app/src/groups.rs:313-320 | the channel is listed in no group afterwards, all other members stay in order |
| `ChannelTree.ChannelTree.MoveToGroup` | crates/app/src/groups.rs:324-355 | the channel is listed in that group before the anchor and nowhere else; refused exactly for a private conversation, a missing or a full group; with distinct keys the group's row shows it right before the anchor, or last, its old row loses it and every other row stays |
| `ChannelTree.ChannelTree.MoveInGroup` | crates/app/src/groups.rs:472-505 | in the shown row of the group, up and down exchange the channel with its neighbour, first and last put it at either end, and a place puts it where that one stood; everything else shown stays |
| `ChannelTree.ChannelTree.Relocate` | crates/app/src/groups.rs:398-436 | a conversation goes right before another one under another heading exactly when kinds, servers and room allow it; with distinct keys the new row shows it right before that one, the old row loses only it and every other row stays; the channels of every network stay sorted by rank |
| `ChannelTree.ChannelTree.MoveAfter` | crates/app/src/groups.rs:442-468 | moving right after another one: before the next row, or to the end of that heading; with distinct keys the tree shows it right after that one, the old row loses only it and every other row stays; the channels of every network stay sorted by rank |
| `ChannelTree.ChannelTree.DeleteGroup` | crates/app/src/groups.rs:226-230 | exactly that group goes |
| `Avatars.Cutoff` | crates/app/src/avatars.rs:92-95 | the cutoff is the value at that place of the sorted ends |
| `Avatars.EvictionIsFair` | crates/app/src/avatars.rs:121-128 | an overflowing table drops only entries that ended strictly before every one it keeps |
| `Avatars.NewestSurvives` | crates/app/src/avatars.rs:121-128 | the occupancy that just ended survives exactly when at least 129 others ended strictly before it |
| `Avatars.PeerEvictionIsFair` | crates/app/src/avatars.rs:94-101 | pictures dropped for room were set strictly before every one kept |
| `Avatars.NetworkAvatars.Metadata` | crates/app/src/avatars.rs:217-227 | the metadata avatar of a message is the latest one of the single occupancy of its name containing it; there is one whenever the current occupancy contains it, or the last ended one does and is still retired; a line below the sequence origin never has one |
| `Avatars.NetworkAvatars.ForMessage` | crates/app/src/avatars.rs:217-230 | a metadata avatar takes precedence over the name's picture |
| `Avatars.AvatarsStay` | crates/app/src/avatars.rs:105-129 | with room for all, ending occupancies changes the metadata avatar of no message so far, but for those older than the occupancy its name ends |
| `Avatars.NetworkAvatars.Set` | crates/app/src/avatars.rs:141-164 | an update keeps the occupancy, a first avatar starts one within 2,048, a removal ends it; then no retired avatar is forgotten exactly when the table has room for all; while there is room for all, the avatars of the messages so far stay as they were |
| `Avatars.NetworkAvatars.Retire` | crates/app/src/avatars.rs:105-129 | an ended occupancy keeps its avatar for its messages, within 512 |
| `Avatars.NetworkAvatars.Rename` | crates/app/src/avatars.rs:177-196 | the avatar follows the user into a new occupancy, and both old occupancies end; no retired avatar is forgotten exactly when the table has room for all; while there is room for all, the avatars of the messages so far stay as they were |
| `Avatars.NetworkAvatars.EndAll` | crates/app/src/avatars.rs:200-207 | every occupancy ends; no avatar is forgotten exactly when the names already retired and those whose occupancy may hold a message are at most 512 together, and with none retired before n of them leave n modulo 513; while there is room for all, the avatars of the messages so far stay as they were |
| `Avatars.EndsACrowd` | crates/app/src/avatars.rs:198-207 | a run in which 513 names with an avatar and a message end at once, and no message keeps its avatar |
| `Avatars.CrowdForgotten` | crates/app/src/avatars.rs:121-128 | whenever 513 such names end at once into an empty table, every occupancy ended and the table is empty |
| `Avatars.RoomDecides` | crates/app/src/avatars.rs:121-128 | a bounded table that keeps everything while there is room keeps everything only then |
| `Avatars.NetworkAvatars.SetPeer` | crates/app/src/avatars.rs:81-103 | a picture is set or removed within 2,048, the least recently set going first |

## Left out

- Accounts.SetCasemapping: another mapping clears the users without events, so it is stated as it is and kept out of the mirror property.
- Timeline.Timeline.FinishOlder: the queue of lines to visit next (`attention`) is not modelled, so what settling does to it is not stated.
- Timeline.Timeline.Settle: the note that may go first is always absent at its one call, and is left out with the remapping it causes.
- Timeline.Timeline.OpenBlock: sequences are unbounded integers; the wrap of the 64-bit floor after 2^54 pages is not modelled.
- Timeline.Timeline.RequestOlder: whether the network can page and the conversation is a joined channel is a parameter.
- Duplicates.DuplicateFilter.Admit: keys are compared themselves, so hash collisions are not modelled.
- ChannelTree.ChannelTree.SetGroups: a group stands under the lowercase form its name is compared by; its spelling, the cleaning of a name and the collapsed flag are left out; saved groups are required to list each channel once, which `SavedGroups.ReadBackOnce` proves of what is read from the settings.
- ChannelTree.ChannelTree.Sync: the configurations are required to name each network once, as the table of sessions they come from does.
- SavedGroups.Sanitized: the saved orders and folded servers, the version and the size limit of the file and its format are left out.
- SearchRuns.PageSettledMeanwhile: how the bytes of a text read as characters is a parameter.
- ChannelTree.ChannelTree.RememberOrder: sortedness by rank needs channel names of one network that are distinct in ASCII lowercase, which nothing in the client enforces; every rank clause of the tree has this condition.
- ChannelTree.ChannelTree.Add: topics, members, modes, the selection and unread marks are left out.
- Avatars.NetworkAvatars.SetPeer: one network at a time; the directory that drops empty networks adds nothing to it.
- Capabilities.CapNegotiation.Observe: SASL is a handshake with a completion flag, and lines arrive parsed; mechanisms, stages, failure notes and argument positions are left out.
- Keywords.MatchAt: Unicode lowercasing is any map from a character to one to three characters; this also holds for the search.
- Echoes.Echoes.Observe: the action text, identifier and time a confirmation carries are left out.
- ModeLines.EffectiveLimit: reading the announced limit from the server's parameters is left out.
- `confirm_message` and `fail_message` edit lines in place without touching sequences (`crates/app/src/lib.rs:1284-1337`).
- `next_hit`, `previous_hit`, `initial_hit` and the change tracking of `revision` would only add easy members (`crates/app/src/search.rs:143-202`, `334-364`).
- CTCP pings, their timeouts and the answers (`crates/irc-core/src/ctcp.rs:140-473`): a short table and texts.
- Hash tables are walked in any order, and clocks are non-decreasing integers.
- Rendering, sockets, cryptography, files, character sets, URLs, attachments and member sorting.
