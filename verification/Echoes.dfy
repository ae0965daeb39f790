/** Server-confirmed sending: IRCv3 echo-message and labeled-response. */
module Echoes {
  import opened Text
  import opened Names
  import opened Lists

  const MAX_PENDING := 32
  /** In seconds. */
  const PENDING_TTL := 60
  const MAX_BATCHES := 16

  datatype Pending = Pending(localId: nat, tag: Option<string>, target: string, notice: bool, text: string,
                             keepText: bool, sent: int)

  datatype Event = OutgoingConfirmed(localId: nat, text: Option<string>) | OutgoingFailed(localId: nat, reason: string)

  datatype Command =
    | BatchStart(reference: string, followed: bool) | BatchEnd(reference: string) | BatchOther
    | Privmsg(target: string, text: string) | Notice(target: string, text: string)
    | Acknowledged | Fail(reason: string) | ErrorNumeric(reason: string) | OtherCommand

  /** A line, with its `label` and `batch` tags. */
  datatype Line = Line(command: Command, source: Option<string>, tag: Option<string>, batch: Option<string>)

  // ---------- Labels ----------

  function Digit(d: nat): char
    requires d < 36
  {
    if d < 10 then (d + 48) as char else (d + 87) as char
  }

  function DigitValue(c: char): nat {
    if c as int < 87 then if c as int < 48 then 0 else c as int - 48 else c as int - 87
  }

  /** `n` in base 36. */
  function Numeral(n: nat): string {
    if n < 36 then [Digit(n)] else Numeral(n / 36) + [Digit(n % 36)]
  }

  function ReadNumeral(s: string): nat {
    if s == "" then 0 else 36 * ReadNumeral(s[..|s| - 1]) + DigitValue(s[|s| - 1])
  }

  function LabelFor(n: nat): string {
    "c" + Numeral(n)
  }

  lemma {:induction false} NumeralReadBack(n: nat)
    ensures ReadNumeral(Numeral(n)) == n
  {
    if n >= 36 {
      NumeralReadBack(n / 36);
      var s := Numeral(n);
      assert s[..|s| - 1] == Numeral(n / 36);
    } else {
      assert Numeral(n)[..0] == "";
      assert ReadNumeral("") == 0;
    }
  }

  /** A numeral is written in digits and lower-case letters, without a zero
      in front. */
  lemma {:induction false} NumeralDigits(n: nat)
    ensures Numeral(n) != "" && (Numeral(n)[0] == '0' ==> n == 0)
    ensures forall i :: 0 <= i < |Numeral(n)| ==> '0' <= Numeral(n)[i] <= '9' || 'a' <= Numeral(n)[i] <= 'z'
  {
    if n >= 36 {
      NumeralDigits(n / 36);
    }
  }

  /** Different counters have different labels. */
  lemma LabelsDiffer(m: nat, n: nat)
    requires LabelFor(m) == LabelFor(n)
    ensures m == n
  {
    assert LabelFor(m)[1..] == Numeral(m) && LabelFor(n)[1..] == Numeral(n);
    NumeralReadBack(m);
    NumeralReadBack(n);
  }

  function Reversed(s: string): (r: string)
    ensures |r| == |s|
  {
    if s == "" then "" else [s[|s| - 1]] + Reversed(s[..|s| - 1])
  }

  lemma ReversedNext(s: string, c: char)
    ensures Reversed(s + [c]) == [c] + Reversed(s)
  {
    assert (s + [c])[..|s|] == s;
  }

  /** The digits are found from the last to the first. */
  method MakeLabel(counter: nat) returns (tag: string)
    ensures tag == LabelFor(counter)
  {
    var digits := "";
    var n := counter;
    while true
      invariant Numeral(n) + Reversed(digits) == Numeral(counter)
      decreases n
    {
      ReversedNext(digits, Digit(n % 36));
      digits := digits + [Digit(n % 36)];
      if n / 36 == 0 {
        break;
      }
      n := n / 36;
    }
    ReversedNext(digits, 'c');
    digits := digits + ['c'];
    return Reversed(digits);
  }

  // ---------- Which pending message a line settles ----------

  function OpenBatch(batches: seq<(string, string)>, reference: string): Option<string> {
    if batches == [] then None
    else if batches[0].0 == reference then Some(batches[0].1)
    else OpenBatch(batches[1..], reference)
  }

  /** The label that names a line: its own tag, or its batch's. */
  function LabelOf(batches: seq<(string, string)>, line: Line): Option<string> {
    if line.tag.Some? then line.tag
    else if line.batch.Some? then OpenBatch(batches, line.batch.value)
    else None
  }

  predicate Ours(line: Line, current: string) {
    line.source.Some? && Same(Rfc1459, line.source.value, current)
  }

  /** Whether a line that carries a label answers the message it names. */
  predicate Answers(line: Line, current: string) {
    match line.command
    case Privmsg(_, _) => Ours(line, current)
    case Notice(_, _) => Ours(line, current)
    case Acknowledged => true
    case Fail(_) => true
    case ErrorNumeric(_) => true
    case _ => false
  }

  predicate IsEcho(line: Line, current: string) {
    (line.command.Privmsg? || line.command.Notice?) && Ours(line, current)
  }

  /** Whether the line would settle `p`. */
  predicate Candidate(tag: Option<string>, line: Line, current: string, labeled: bool, p: Pending) {
    if tag.Some? then Answers(line, current) && p.tag == tag
    else
      && IsEcho(line, current) && (p.tag.None? || !labeled)
      && p.notice == line.command.Notice? && Same(Rfc1459, p.target, line.command.target) && p.text == line.command.text
  }

  function Outcome(line: Line, p: Pending): Event {
    match line.command
    case Privmsg(_, text) => OutgoingConfirmed(p.localId, FinalText(text, p))
    case Notice(_, text) => OutgoingConfirmed(p.localId, FinalText(text, p))
    case Fail(reason) => OutgoingFailed(p.localId, reason)
    case ErrorNumeric(reason) => OutgoingFailed(p.localId, reason)
    case _ => OutgoingConfirmed(p.localId, None)
  }

  /** The server's text, when it replaces the local one. */
  function FinalText(text: string, p: Pending): Option<string> {
    if text != p.text && !p.keepText then Some(text) else None
  }

  /** A line with a label settles the oldest message of that label when it is
      our own text, an acknowledgement or a failure; a line without one
      settles the oldest message it repeats. Whose failure it is fails, with
      the server's reason, and any other line confirms it, with the text the
      server sent instead. */
  lemma EchoMeans(pending: seq<Pending>, tag: Option<string>, line: Line, current: string, labeled: bool)
    ensures
      var at := SettledAt(pending, tag, line, current, labeled);
      var c := line.command;
      var says := (c.Privmsg? || c.Notice?) && line.source.Some? && Same(Rfc1459, line.source.value, current);
      && (tag.Some? ==>
            (at.Some? <==>
               (says || c.Acknowledged? || c.Fail? || c.ErrorNumeric?) && exists p :: p in pending && p.tag == tag) &&
            (at.Some? ==> pending[at.value].tag == tag && forall k :: 0 <= k < at.value ==> pending[k].tag != tag))
      && (tag.None? ==>
            (at.Some? ==> says) &&
            (at.Some? ==> Repeats(c, labeled, pending[at.value])) &&
            (says ==>
               forall k :: 0 <= k < (if at.Some? then at.value else |pending|) ==> !Repeats(c, labeled, pending[k])))
      && (at.Some? ==>
            var p := pending[at.value];
            Outcome(line, p) == if c.Fail? || c.ErrorNumeric? then OutgoingFailed(p.localId, c.reason)
                                else if !says || c.text == p.text || p.keepText then OutgoingConfirmed(p.localId, None)
                                else OutgoingConfirmed(p.localId, Some(c.text)))
  {
    hide Same;
  }

  /** The command says what `p` says, to the same target. Once labels are on,
      a message sent under one is not recognized by its text. */
  ghost predicate Repeats(c: Command, labeled: bool, p: Pending)
    requires c.Privmsg? || c.Notice?
  {
    (p.notice <==> c.Notice?) && Same(Rfc1459, p.target, c.target) && p.text == c.text && (labeled ==> p.tag.None?)
  }

  /** A line's own label goes before that of its open batch. */
  lemma {:induction false} LabelMeans(batches: seq<(string, string)>, line: Line, wanted: string)
    requires OpenOnce(batches)
    ensures LabelOf(batches, line) == Some(wanted) <==>
              || line.tag == Some(wanted)
              || (line.tag.None? && line.batch.Some? && (line.batch.value, wanted) in batches)
  {
    if line.tag.None? && line.batch.Some? && batches != [] {
      LaterDistinct(batches, 1);
      LabelMeans(batches[1..], line, wanted);
      assert batches == [batches[0]] + batches[1..];
      assert forall b :: b in batches[1..] ==> ReferenceOf()(b) != ReferenceOf()(batches[0]);
    }
  }

  /** A line with a label settles only a message with that label, and while
      labels are on a line without one settles only a message without one. */
  lemma SettlesItsLabel(pending: seq<Pending>, tag: Option<string>, line: Line, current: string, labeled: bool,
                        outcome: bool)
    requires labeled || tag.Some?
    ensures forall p ::
              p in Settling(line, SettledAt(pending, tag, line, current, labeled), pending, outcome) ==> p.tag == tag
  {
    hide Answers, IsEcho, Outcome;
    var at := SettledAt(pending, tag, line, current, labeled);
    if at.Some? {
      assert Candidate(tag, line, current, labeled, pending[at.value]);
    }
  }

  // ---------- The invariant ----------

  /** Labels given out so far. */
  ghost predicate Labeled(tracked: seq<Pending>, next: nat) {
    (forall i :: 0 <= i < |tracked| && tracked[i].tag.Some? ==>
      exists n :: 0 < n <= next && tracked[i].tag.value == LabelFor(n)) &&
    forall i, j :: 0 <= i < j < |tracked| && tracked[i].tag.Some? ==> tracked[i].tag != tracked[j].tag
  }

  lemma LabeledNext(tracked: seq<Pending>, next: nat, p: Pending)
    requires Labeled(tracked, next)
    requires p.tag.Some? ==> p.tag.value == LabelFor(next + 1)
    ensures Labeled(tracked + [p], if p.tag.Some? then next + 1 else next)
  {
    var more := tracked + [p];
    forall i | 0 <= i < |tracked| && tracked[i].tag.Some? && p.tag.Some?
      ensures tracked[i].tag != p.tag
    {
      var n :| 0 < n <= next && tracked[i].tag.value == LabelFor(n);
      if LabelFor(n) == LabelFor(next + 1) {
        LabelsDiffer(n, next + 1);
      }
    }
  }

  ghost predicate Ascending(pending: seq<Pending>) {
    forall i, j :: 0 <= i < j < |pending| ==> pending[i].sent <= pending[j].sent
  }

  /** Every message tracked is still pending or left exactly once, by a
      confirmation, a failure or being untracked. */
  ghost predicate Conserved(tracked: seq<Pending>, pending: seq<Pending>, confirmed: seq<Pending>, failed: seq<Pending>,
                            untracked: seq<Pending>) {
    multiset(tracked) == multiset(pending) + multiset(confirmed) + multiset(failed) + multiset(untracked)
  }

  lemma Taken(s: seq<Pending>, i: nat)
    requires i < |s|
    ensures multiset(s) == multiset(RemoveAt(s, i)) + multiset([s[i]])
    ensures |RemoveAt(s, i)| < |s|
    ensures Ascending(s) ==> Ascending(RemoveAt(s, i))
  {
    TakenBag(s, i);
    assert Ascending(s) ==> Ascending(RemoveAt(s, i));
  }

  lemma TakenBag(s: seq<Pending>, i: nat)
    requires i < |s|
    ensures multiset(s) == multiset(RemoveAt(s, i)) + multiset([s[i]])
    ensures |RemoveAt(s, i)| < |s|
  {
    assert s == s[..i] + [s[i]] + s[i + 1..];
  }

  function HasId(localId: nat): Pending -> bool {
    (p: Pending) => p.localId == localId
  }

  function HasOtherId(localId: nat): Pending -> bool {
    (p: Pending) => p.localId != localId
  }

  lemma RemainingAscends(pending: seq<Pending>, p: Pending -> bool, last: int)
    requires Ascending(pending) && (pending != [] ==> pending[|pending| - 1].sent <= last)
    ensures Ascending(Filter(pending, p))
    ensures forall x :: x in Filter(pending, p) ==> x.sent <= last
  {
    hide Filter;
    FilterSorted(pending, p, (x: Pending) => x.sent);
  }

  lemma ConservedTrack(t: seq<Pending>, p: seq<Pending>, c: seq<Pending>, f: seq<Pending>, u: seq<Pending>, x: Pending)
    requires Conserved(t, p, c, f, u)
    ensures Conserved(t + [x], p + [x], c, f, u)
  {
  }

  /** What leaves is added to one of the three ways out. */
  lemma ConservedLeave(t: seq<Pending>, p: seq<Pending>, c: seq<Pending>, f: seq<Pending>, u: seq<Pending>,
                       rest: seq<Pending>, gone: seq<Pending>)
    requires Conserved(t, p, c, f, u) && multiset(p) == multiset(rest) + multiset(gone)
    ensures Conserved(t, rest, c + gone, f, u) && Conserved(t, rest, c, f + gone, u) &&
            Conserved(t, rest, c, f, u + gone)
  {
  }

  lemma JoinedBag(a: seq<Pending>, b: seq<Pending>)
    ensures multiset(a + b) == multiset(b) + multiset(a)
  {
  }

  lemma SplitAt(p: seq<Pending>, k: nat)
    requires k <= |p|
    ensures multiset(p) == multiset(p[k..]) + multiset(p[..k])
  {
    assert p == p[..k] + p[k..];
  }

  function Failures(gone: seq<Pending>, reason: string): seq<Event> {
    seq(|gone|, i requires 0 <= i < |gone| => OutgoingFailed(gone[i].localId, reason))
  }

  lemma AscendingNext(pending: seq<Pending>, last: int, now: int)
    requires Ascending(pending) && (pending != [] ==> pending[|pending| - 1].sent <= last) && last <= now
    ensures pending != [] ==> pending[|pending| - 1].sent <= now
  {
  }

  lemma TrackedNext(tracked: seq<Pending>, next: nat, pending: seq<Pending>, confirmed: seq<Pending>,
                    failed: seq<Pending>, untracked: seq<Pending>,
                    last: int, p: Pending)
    requires Labeled(tracked, next) && (p.tag.Some? ==> p.tag.value == LabelFor(next + 1))
    requires Conserved(tracked, pending, confirmed, failed, untracked)
    requires Ascending(pending) && (pending != [] ==> pending[|pending| - 1].sent <= last <= p.sent)
    ensures Labeled(tracked + [p], if p.tag.Some? then next + 1 else next)
    ensures Conserved(tracked + [p], pending + [p], confirmed, failed, untracked)
    ensures Ascending(pending + [p])
  {
    hide Labeled, Conserved, LabelFor;
    LabeledNext(tracked, next, p);
    ConservedTrack(tracked, pending, confirmed, failed, untracked, p);
  }

  lemma NoFailures(reason: string)
    ensures Failures([], reason) == []
  {
  }

  lemma FailuresNext(gone: seq<Pending>, p: Pending, reason: string)
    ensures Failures(gone + [p], reason) == Failures(gone, reason) + [OutgoingFailed(p.localId, reason)]
  {
  }

  /** In the order they were sent, those past their deadline come first. */
  lemma ExpiredFirst(gone: seq<Pending>, rest: seq<Pending>, now: int)
    requires Ascending(gone + rest) && (rest != [] ==> now - rest[0].sent < PENDING_TTL)
    ensures Ascending(rest) && forall p :: p in rest ==> now - p.sent < PENDING_TTL
    ensures rest != [] ==> rest[|rest| - 1] == (gone + rest)[|gone + rest| - 1]
  {
    var all := gone + rest;
    forall i, j | 0 <= i <= j < |rest|
      ensures rest[i].sent <= rest[j].sent
    {
      assert all[|gone| + i] == rest[i] && all[|gone| + j] == rest[j];
    }
  }

  /** No two open batches have the same reference. */
  ghost predicate OpenOnce(batches: seq<(string, string)>) {
    DistinctBy(batches, ReferenceOf())
  }

  function ReferenceOf(): ((string, string)) -> string {
    (b: (string, string)) => b.0
  }

  function OtherThan(reference: string): ((string, string)) -> bool {
    (b: (string, string)) => b.0 != reference
  }

  class Echoes {
    var pending: seq<Pending>
    var nextLabel: nat
    /** Open batches started with one of our labels. */
    var batches: seq<(string, string)>
    /** Every message tracked, how each left, and the last instant seen. */
    ghost var tracked: seq<Pending>
    ghost var confirmed: seq<Pending>
    ghost var failed: seq<Pending>
    ghost var untracked: seq<Pending>
    ghost var last: int

    ghost predicate Valid()
      reads this
    {
      && |pending| <= MAX_PENDING && |batches| <= MAX_BATCHES
      && OpenOnce(batches) && Labeled(tracked, nextLabel) && Conserved(tracked, pending, confirmed, failed, untracked)
      && Ascending(pending) && (pending != [] ==> pending[|pending| - 1].sent <= last)
    }

    constructor (ghost now: int)
      ensures Valid() && pending == [] && batches == [] && tracked == [] && last == now
    {
      pending, nextLabel, batches := [], 0, [];
      tracked, confirmed, failed, untracked, last := [], [], [], [], now;
    }

    /** Registers a message about to be sent, with its label when `labeled`.
        `None` when too many wait. */
    method Track(localId: nat, target: string, notice: bool, text: string, keepText: bool, labeled: bool, now: int)
      returns (r: Option<Option<string>>)
      requires Valid() && last <= now
      modifies this`pending, this`nextLabel, this`tracked, this`last
      ensures Valid() && last == now
      ensures r.None? <==> |old(pending)| == MAX_PENDING
      ensures r.None? ==> pending == old(pending) && tracked == old(tracked)
      ensures r.Some? ==> (r.value.Some? <==> labeled)
      ensures r.Some? ==>
              var p := Pending(localId, r.value, target, notice, text, keepText, now);
              pending == old(pending) + [p] && tracked == old(tracked) + [p]
    {
      hide Labeled, Conserved, LabelFor, Ascending, OpenOnce, Filter;
      AscendingNext(pending, last, now);
      last := now;
      if |pending| >= MAX_PENDING {
        return None;
      }
      var tag := NewLabel(labeled);
      var p := Pending(localId, tag, target, notice, text, keepText, now);
      TrackedNext(tracked, old(nextLabel), pending, confirmed, failed, untracked, now, p);
      pending := pending + [p];
      tracked := tracked + [p];
      return Some(tag);
    }

    method NewLabel(labeled: bool) returns (tag: Option<string>)
      modifies this`nextLabel
      ensures nextLabel == if labeled then old(nextLabel) + 1 else old(nextLabel)
      ensures tag == if labeled then Some(LabelFor(nextLabel)) else None
    {
      if !labeled {
        return None;
      }
      nextLabel := nextLabel + 1;
      var made := MakeLabel(nextLabel);
      return Some(made);
    }

    /** Stops tracking a message that could not be sent. */
    method Untrack(localId: nat)
      requires Valid()
      modifies this`pending, this`untracked
      ensures Valid() && pending == Filter(old(pending), HasOtherId(localId))
      ensures untracked == old(untracked) + Filter(old(pending), HasId(localId))
      ensures forall p :: p in pending <==> p in old(pending) && p.localId != localId
    {
      hide Labeled, Filter, Conserved, Ascending, OpenOnce;
      ghost var gone := Filter(pending, HasId(localId));
      FilterParts(pending, HasOtherId(localId), HasId(localId));
      RemainingAscends(pending, HasOtherId(localId), last);
      ConservedLeave(tracked, pending, confirmed, failed, untracked, Filter(pending, HasOtherId(localId)), gone);
      untracked := untracked + gone;
      pending := Filter(pending, HasOtherId(localId));
    }

    /** When the oldest pending message runs out of time: no pending message
        does so earlier. */
    function NextDeadline(): (d: Option<int>)
      requires Valid()
      reads this
      ensures d.None? <==> pending == []
      ensures d.Some? ==> (exists p :: p in pending && d.value == p.sent + PENDING_TTL)
      ensures d.Some? ==> forall p :: p in pending ==> d.value <= p.sent + PENDING_TTL
    {
      if pending == [] then None else
        assert pending[0] in pending;
        Some(pending[0].sent + PENDING_TTL)
    }

    /** Fails exactly the messages whose echo did not come in time. */
    method Expire(now: int) returns (events: seq<Event>, ghost gone: seq<Pending>)
      requires Valid()
      modifies this`pending, this`failed
      ensures Valid() && old(pending) == gone + pending && failed == old(failed) + gone
      ensures events == Failures(gone, "The server did not confirm the message.")
      ensures forall p :: p in pending ==> now - p.sent < PENDING_TTL
      ensures forall p :: p in gone ==> now - p.sent >= PENDING_TTL
    {
      hide Labeled, Conserved, Ascending, Failures, OpenOnce;
      events, gone := PopExpired(now);
      JoinedBag(gone, pending);
      ConservedLeave(tracked, gone + pending, confirmed, old(failed), untracked, pending, gone);
      ExpiredFirst(gone, pending, now);
    }

    method PopExpired(now: int) returns (events: seq<Event>, ghost gone: seq<Pending>)
      modifies this`pending, this`failed
      ensures old(pending) == gone + pending && failed == old(failed) + gone
      ensures events == Failures(gone, "The server did not confirm the message.")
      ensures pending != [] ==> now - pending[0].sent < PENDING_TTL
      ensures forall p :: p in gone ==> now - p.sent >= PENDING_TTL
    {
      hide Failures;
      events, gone := [], [];
      NoFailures("The server did not confirm the message.");
      while pending != [] && now - pending[0].sent >= PENDING_TTL
        invariant old(pending) == gone + pending && failed == old(failed) + gone
        invariant events == Failures(gone, "The server did not confirm the message.")
        invariant forall p :: p in gone ==> now - p.sent >= PENDING_TTL
        decreases |pending|
      {
        FailuresNext(gone, pending[0], "The server did not confirm the message.");
        events := events + [OutgoingFailed(pending[0].localId, "The server did not confirm the message.")];
        failed := failed + [pending[0]];
        gone := gone + [pending[0]];
        pending := pending[1..];
      }
    }

    /** Forgets every batch and pending message. */
    method Reset() returns (events: seq<Event>)
      requires Valid()
      modifies this`pending, this`failed, this`batches
      ensures Valid() && pending == [] && batches == [] && failed == old(failed) + old(pending)
      ensures events == Failures(old(pending), "The server stopped confirming messages.")
    {
      hide Labeled, Conserved;
      SplitAt(pending, |pending|);
      ConservedLeave(tracked, pending, confirmed, failed, untracked, [], pending);
      assert pending[|pending|..] == [] && pending[..|pending|] == pending;
      events := Failures(pending, "The server stopped confirming messages.");
      failed := failed + pending;
      pending, batches := [], [];
    }

    /** Looks at an incoming line. At most one pending message is settled: the
        oldest the line is about. `None` when the line is about none. */
    method Observe(line: Line, current: string, labeled: bool) returns (r: Option<seq<Event>>)
      requires Valid()
      modifies this`pending, this`confirmed, this`failed, this`batches
      ensures Valid()
      ensures IsFraming(line) ==>
                pending == old(pending) && confirmed == old(confirmed) && failed == old(failed) &&
                (r.None? || r == Some([]))
      ensures line.command.BatchStart? ==> FramingStarts(line, old(pending), old(batches), batches, r.Some?)
      ensures line.command.BatchEnd? ==> FramingEnds(line.command.reference, old(batches), batches, r.Some?)
      ensures !IsFraming(line) ==> batches == old(batches)
      ensures !IsFraming(line) ==>
                Settled(line, SettledAt(old(pending), LabelOf(batches, line), line, current, labeled), old(pending),
                        pending, r)
      ensures !IsFraming(line) ==>
                confirmed == old(confirmed) +
                Settling(line, SettledAt(old(pending), LabelOf(batches, line), line, current, labeled), old(pending),
                         true)
      ensures !IsFraming(line) ==>
                failed == old(failed) +
                Settling(line, SettledAt(old(pending), LabelOf(batches, line), line, current, labeled), old(pending),
                         false)
      ensures labeled || LabelOf(old(batches), line).Some? ==>
                && (forall i :: |old(confirmed)| <= i < |confirmed| ==> confirmed[i].tag == LabelOf(old(batches), line))
                && forall i :: |old(failed)| <= i < |failed| ==> failed[i].tag == LabelOf(old(batches), line)
    {
      hide Valid, SettledAt, FramingStarts, FramingEnds, Settled, Settling, LabelOf;
      if IsFraming(line) {
        var followed := Frame(line);
        return if followed then Some([]) else None;
      }
      if labeled || LabelOf(batches, line).Some? {
        SettlesItsLabel(pending, LabelOf(batches, line), line, current, labeled, true);
        SettlesItsLabel(pending, LabelOf(batches, line), line, current, labeled, false);
      }
      r := Settle(line, SettledAt(pending, LabelOf(batches, line), line, current, labeled));
    }

    /** Takes the message found out of the pending ones. */
    method Settle(line: Line, at: Option<nat>) returns (r: Option<seq<Event>>)
      requires Valid() && (at.Some? ==> at.value < |pending|)
      modifies this`pending, this`confirmed, this`failed
      ensures Valid() && Settled(line, at, old(pending), pending, r)
      ensures confirmed == old(confirmed) + Settling(line, at, old(pending), true)
      ensures failed == old(failed) + Settling(line, at, old(pending), false)
    {
      hide Labeled, Conserved, Ascending, OpenOnce, RemoveAt, Outcome;
      if at.None? {
        return None;
      }
      var p := pending[at.value];
      Taken(pending, at.value);
      TakenBound(pending, at.value, last);
      ConservedLeave(tracked, pending, confirmed, failed, untracked, RemoveAt(pending, at.value), [p]);
      pending := RemoveAt(pending, at.value);
      var event := Outcome(line, p);
      if event.OutgoingConfirmed? {
        confirmed := confirmed + [p];
      } else {
        failed := failed + [p];
      }
      return Some([event]);
    }

    /** The start and end of a batch that carries one of our labels. */
    method Frame(line: Line) returns (followed: bool)
      requires Valid() && IsFraming(line)
      modifies this`batches
      ensures Valid()
      ensures line.command.BatchStart? ==> FramingStarts(line, pending, old(batches), batches, followed)
      ensures line.command.BatchEnd? ==> FramingEnds(line.command.reference, old(batches), batches, followed)
      ensures line.command.BatchOther? ==> !followed && batches == old(batches)
    {
      hide Labeled, Conserved, Ascending, FramingStarts, FramingEnds, Filter, OpenOnce;
      followed := false;
      match line.command {
        case BatchStart(reference, usable) =>
          if line.tag.Some? && (exists p :: p in pending && p.tag == line.tag) && usable {
            BatchOpens(line, pending, batches);
            batches := Filter(WithRoom(batches), OtherThan(reference)) + [(reference, line.tag.value)];
            followed := true;
          } else {
            BatchIgnored(line, pending, batches);
          }
        case BatchEnd(reference) =>
          BatchCloses(batches, reference);
          followed := OpenBatch(batches, reference).Some?;
          batches := Filter(batches, OtherThan(reference));
        case BatchOther =>
      }
    }
  }

  predicate IsFraming(line: Line) {
    line.command.BatchStart? || line.command.BatchEnd? || line.command.BatchOther?
  }

  /** The oldest pending message the line would settle. */
  function SettledAt(pending: seq<Pending>, tag: Option<string>, line: Line, current: string,
                     labeled: bool): (at: Option<nat>)
    ensures at.Some? ==> at.value < |pending| && Candidate(tag, line, current, labeled, pending[at.value])
    ensures at.Some? ==> forall k :: 0 <= k < at.value ==> !Candidate(tag, line, current, labeled, pending[k])
    ensures at.None? ==> forall k :: 0 <= k < |pending| ==> !Candidate(tag, line, current, labeled, pending[k])
  {
    var at := First(pending, p => Candidate(tag, line, current, labeled, p));
    if at < |pending| then Some(at) else None
  }

  ghost predicate Settled(line: Line, at: Option<nat>, before: seq<Pending>, after: seq<Pending>, r: Option<seq<Event>>)
    requires at.Some? ==> at.value < |before|
  {
    if at.None? then after == before && r.None?
    else after == RemoveAt(before, at.value) && r == Some([Outcome(line, before[at.value])])
  }

  /** The message confirmed, or failed, by the line. */
  ghost function Settling(line: Line, at: Option<nat>, before: seq<Pending>, confirmed: bool): seq<Pending>
    requires at.Some? ==> at.value < |before|
  {
    if at.Some? && Outcome(line, before[at.value]).OutgoingConfirmed? == confirmed then [before[at.value]] else []
  }

  lemma TakenBound(s: seq<Pending>, i: nat, last: int)
    requires i < |s| && Ascending(s) && s[|s| - 1].sent <= last
    ensures var r := RemoveAt(s, i); r != [] ==> r[|r| - 1].sent <= last
  {
  }

  /** A batch start is followed when it carries the label of a pending
      message; its reference then names that label, and at most the oldest
      other batch is forgotten, when there is no room. */
  ghost predicate FramingStarts(line: Line, pending: seq<Pending>, before: seq<(string, string)>,
                                after: seq<(string, string)>, followed: bool)
    requires line.command.BatchStart?
  {
    && (followed <==> line.tag.Some? && (exists p :: p in pending && p.tag == line.tag) && line.command.followed)
    && (!followed ==> after == before)
    && (followed ==> OpenBatch(after, line.command.reference) == line.tag)
    && (followed ==> forall b :: b in after <==>
          b == (line.command.reference, line.tag.value) || (b in WithRoom(before) && b.0 != line.command.reference))
  }

  /** Without the oldest batch, when there is no room for another one. */
  function WithRoom(batches: seq<(string, string)>): (r: seq<(string, string)>)
    ensures |r| <= |batches| && r == batches[|batches| - |r|..] && (|batches| <= MAX_BATCHES ==> |r| < MAX_BATCHES)
  {
    if |batches| >= MAX_BATCHES then batches[1..] else batches
  }

  /** Only the oldest batch is ever forgotten, and only for want of room. */
  lemma RoomMade(batches: seq<(string, string)>)
    ensures WithRoom(batches) == batches || (|batches| >= MAX_BATCHES && batches == [batches[0]] + WithRoom(batches))
  {
  }

  ghost predicate FramingEnds(reference: string, before: seq<(string, string)>, after: seq<(string, string)>,
                              followed: bool) {
    && (followed <==> OpenBatch(before, reference).Some?)
    && OpenBatch(after, reference).None?
    && forall b :: b in after <==> b in before && b.0 != reference
  }

  lemma OpenedLast(rest: seq<(string, string)>, reference: string, tag: string)
    requires forall b :: b in rest ==> b.0 != reference
    ensures OpenBatch(rest + [(reference, tag)], reference) == Some(tag)
    ensures OpenOnce(rest) ==> OpenOnce(rest + [(reference, tag)])
  {
    if rest != [] {
      assert (rest + [(reference, tag)])[1..] == rest[1..] + [(reference, tag)];
      OpenedLast(rest[1..], reference, tag);
    }
  }

  lemma BatchOpens(line: Line, pending: seq<Pending>, batches: seq<(string, string)>)
    requires line.command.BatchStart? && line.command.followed && line.tag.Some? &&
             exists p :: p in pending && p.tag == line.tag
    requires OpenOnce(batches) && |batches| <= MAX_BATCHES
    ensures
      var after := Filter(WithRoom(batches), OtherThan(line.command.reference)) +
      [(line.command.reference, line.tag.value)];
      OpenOnce(after) && |after| <= MAX_BATCHES && FramingStarts(line, pending, batches, after, true)
  {
    hide Filter, OpenOnce, OpenBatch;
    LaterDistinct(batches, |batches| - |WithRoom(batches)|);
    DroppedOnce(WithRoom(batches), line.command.reference);
    OpenedLast(Filter(WithRoom(batches), OtherThan(line.command.reference)), line.command.reference, line.tag.value);
  }

  lemma DroppedOnce(batches: seq<(string, string)>, reference: string)
    requires OpenOnce(batches)
    ensures OpenOnce(Filter(batches, OtherThan(reference)))
  {
    hide Filter;
    FilterDistinctBy(batches, OtherThan(reference), ReferenceOf());
  }

  lemma LaterDistinct(batches: seq<(string, string)>, from: nat)
    requires OpenOnce(batches) && from <= |batches|
    ensures OpenOnce(batches[from..])
  {
  }

  lemma BatchIgnored(line: Line, pending: seq<Pending>, batches: seq<(string, string)>)
    requires line.command.BatchStart? &&
             !(line.tag.Some? && (exists p :: p in pending && p.tag == line.tag) && line.command.followed)
    ensures FramingStarts(line, pending, batches, batches, false)
  {
  }

  lemma BatchCloses(batches: seq<(string, string)>, reference: string)
    requires OpenOnce(batches) && |batches| <= MAX_BATCHES
    ensures
      var after := Filter(batches, OtherThan(reference));
      OpenOnce(after) && |after| <= MAX_BATCHES &&
      FramingEnds(reference, batches, after, OpenBatch(batches, reference).Some?)
  {
    hide Filter, OpenOnce;
    DroppedOnce(batches, reference);
    NotOpen(Filter(batches, OtherThan(reference)), reference);
  }

  lemma {:induction false} NotOpen(batches: seq<(string, string)>, reference: string)
    requires forall b :: b in batches ==> b.0 != reference
    ensures OpenBatch(batches, reference).None?
  {
    if batches != [] {
      NotOpen(batches[1..], reference);
    }
  }
}
