/** Services accounts of the users we share a channel with, and the events
    that let the application mirror them. */
module Accounts {
  import opened Text
  import opened Names
  import opened Lists

  const MAX_USERS := 4096
  const MAX_QUEUED_WHO := 64
  const MAX_DEPARTED_WHO := 4096
  /** In seconds. */
  const WHO_TIMEOUT := 15
  const MAX_REALNAME_BYTES := 256
  const MAX_ACCOUNT_BYTES := 128

  datatype Known = Known(nickname: string, account: Option<string>, realname: Option<string>, channels: set<string>)

  datatype Event =
    | UserAccount(nickname: string, account: Option<string>, realname: Option<string>)
    | UserAccountForgotten(nickname: string)

  datatype Outstanding = Outstanding(channel: string, token: nat, sent: int, departed: set<string>, overflowed: bool)

  datatype Line =
    | Join(channel: string, source: Option<string>, extended: Option<(string, string)>)
    | Part(channel: string, source: Option<string>)
    | Kick(channel: string, nickname: string)
    | Quit(source: Option<string>)
    | Nick(source: Option<string>, to: string)
    | Account(source: Option<string>, account: string)
    | OtherLine

  /** Numerics of a WHO reply: 354 and 315 with their parameters. */
  datatype WhoLine =
    | WhoEntry(token: nat, entry: Option<(string, string)>, realname: Option<string>)
    | WhoEnd(channel: string)
    | OtherNumeric

  type Users = map<string, Known>
  type View = map<string, (Option<string>, Option<string>)>

  function AccountValue(value: string): Option<string> {
    if value != "" && value != "*" && Bytes(value) <= MAX_ACCOUNT_BYTES then Some(value) else None
  }

  /** The longest beginning of `value` within `n` bytes. */
  function Truncate(value: string, n: nat): string {
    if Bytes(value) <= n then value else Truncate(value[..|value| - 1], n)
  }

  function RealnameValue(value: string): Option<string> {
    var trimmed := Trim(value);
    if trimmed != "" then Some(Truncate(trimmed, MAX_REALNAME_BYTES)) else None
  }

  /** A line names an account unless it says `*` or nothing, or too much; a
      reply of ours may say `0` as well. */
  lemma AccountMeans(value: string, account: string)
    ensures AccountValue(value) == Some(account) <==> value == account && value !in {"", "*"} && Bytes(value) <= 128
    ensures forall line: WhoLine :: line.WhoEntry? && line.entry.Some? && line.entry.value.1 == value ==>
              WhoAccount(line) == if value == "0" then None else AccountValue(value)
  {
  }

  /** A real name is kept without the spaces around it, as much of it as the
      bound allows. */
  lemma RealnameMeans(value: string)
    ensures RealnameValue(value).None? <==> Trim(value) == ""
    ensures forall line: WhoLine :: line.WhoEntry? ==>
              (line.realname == Some(value) ==> WhoRealname(line) == RealnameValue(value)) &&
              (line.realname.None? ==> WhoRealname(line).None?)
    ensures RealnameValue(value).Some? ==>
              var (all, kept) := (Trim(value), RealnameValue(value).value);
              kept <= all && Bytes(kept) <= 256 && (kept == all || Bytes(all[..|kept| + 1]) > 256)
  {
    hide Trim;
    TruncatedLongest(Trim(value), 256);
  }

  lemma {:induction false} TruncatedLongest(value: string, n: nat)
    ensures
      var kept := Truncate(value, n);
      kept <= value && Bytes(kept) <= n && (kept == value || Bytes(value[..|kept| + 1]) > n)
  {
    if Bytes(value) > n {
      TruncatedLongest(value[..|value| - 1], n);
      var kept := Truncate(value[..|value| - 1], n);
      if kept != value[..|value| - 1] {
        assert value[..|value| - 1][..|kept| + 1] == value[..|kept| + 1];
      } else {
        assert value[..|kept| + 1] == value;
      }
    }
  }

  /** Whether a token has this name, before its value if it has one. */
  predicate Announces(token: string, name: string) {
    Same(Ascii, token[..Position(token, '=')], name)
  }

  lemma OneName(token: string)
    ensures !(Announces(token, "WHOX") && Announces(token, "-WHOX"))
  {
    hide Position, FoldChar;
    assert |Fold(Ascii, "WHOX")| == 4 && |Fold(Ascii, "-WHOX")| == 5;
  }

  // ---------- The mirror ----------

  /** What the users table says about each nickname. */
  ghost function ViewOf(users: Users): View {
    map k | k in users :: (users[k].account, users[k].realname)
  }

  function Apply(view: View, event: Event): View {
    match event
    case UserAccount(nickname, account, realname) => view[NicknameKey(nickname) := (account, realname)]
    case UserAccountForgotten(nickname) => view - {NicknameKey(nickname)}
  }

  /** The view after the events, in order. */
  function Mirror(view: View, events: seq<Event>): View {
    if events == [] then view else Apply(Mirror(view, events[..|events| - 1]), events[|events| - 1])
  }

  lemma {:induction false} MirrorSum(view: View, a: seq<Event>, b: seq<Event>)
    ensures Mirror(view, a + b) == Mirror(Mirror(view, a), b)
    decreases |b|
  {
    if b == [] {
      assert a + b == a;
    } else {
      assert (a + b)[..|a + b| - 1] == a + b[..|b| - 1];
      MirrorSum(view, a, b[..|b| - 1]);
    }
  }

  lemma MirrorOne(view: View, event: Event)
    ensures Mirror(view, [event]) == Apply(view, event)
  {
    assert [event][..0] == [];
    assert Mirror(view, []) == view;
  }

  ghost predicate AgreeAt(a: View, b: View, k: string) {
    (k in a <==> k in b) && (k in a ==> a[k] == b[k])
  }

  ghost predicate AgreeOffEmpty(a: View, b: View) {
    forall k :: k != "" ==> AgreeAt(a, b, k)
  }

  lemma {:induction false} MirrorAgrees(a: View, b: View, events: seq<Event>, k: string)
    requires AgreeAt(a, b, k)
    ensures AgreeAt(Mirror(a, events), Mirror(b, events), k)
  {
    if events != [] {
      MirrorAgrees(a, b, events[..|events| - 1], k);
    }
  }

  /** A view fed by every event agrees with the users table, also about the
      empty nickname unless its entry was `dropped` silently. */
  ghost predicate Mirrors(view: View, users: Users, dropped: bool) {
    forall k :: k != "" || !dropped ==> AgreeAt(view, ViewOf(users), k)
  }

  lemma StillMirrors(view: View, before: Users, events: seq<Event>, after: Users, dropped: bool, silent: bool)
    requires Mirrors(view, before, dropped) && AgreeOffEmpty(Mirror(ViewOf(before), events), ViewOf(after))
    requires Mirror(ViewOf(before), events) == ViewOf(after) <==> !silent
    ensures Mirrors(Mirror(view, events), after, dropped || silent)
  {
    hide ViewOf, Mirror;
    forall k | k != "" || !(dropped || silent) ensures AgreeAt(Mirror(view, events), ViewOf(after), k) {
      MirrorAgrees(view, ViewOf(before), events, k);
      assert k != "" ==> AgreeAt(Mirror(ViewOf(before), events), ViewOf(after), k);
    }
  }

  // ---------- The users table ----------

  ghost predicate Kept(users: Users) {
    && (forall k :: k in users ==>
      && NicknameKey(users[k].nickname) == k
      && users[k].channels != {}
      && (users[k].account.Some? || users[k].realname.Some?))
    && |users| <= MAX_USERS
  }

  lemma RemovedKept(users: Users, key: string)
    requires Kept(users) && key in users
    ensures Kept(users - {key})
    ensures Mirror(ViewOf(users), [UserAccountForgotten(users[key].nickname)]) == ViewOf(users - {key})
    ensures |users - {key}| == |users| - 1
  {
    MirrorOne(ViewOf(users), UserAccountForgotten(users[key].nickname));
    assert (users - {key}).Keys == users.Keys - {key};
    assert |users.Keys| == |users|;
  }

  lemma UpdatedKept(users: Users, key: string, known: Known)
    requires Kept(users) && NicknameKey(known.nickname) == key && known.channels != {}
    requires known.account.Some? || known.realname.Some?
    requires key in users || |users| < MAX_USERS
    ensures Kept(users[key := known])
    ensures Mirror(ViewOf(users), [UserAccount(known.nickname, known.account, known.realname)]) ==
              ViewOf(users[key := known])
    ensures key in users && (known.account, known.realname) == (users[key].account, users[key].realname) ==>
              ViewOf(users[key := known]) == ViewOf(users)
  {
    MirrorOne(ViewOf(users), UserAccount(known.nickname, known.account, known.realname));
    assert users[key := known].Keys == users.Keys + {key};
    assert |users[key := known].Keys| == |users[key := known]| && |users.Keys| == |users|;
  }

  /** What is known once a line is learned. */
  function Learned(users: Users, nickname: string, account: Option<Option<string>>, realname: Option<string>,
                   channels: set<string>): Known {
    var key := NicknameKey(nickname);
    var known := if key in users then users[key] else Known("", None, None, {});
    Known(nickname,
      if account.Some? then account.value else known.account,
      if realname.Some? then realname else known.realname,
      known.channels + channels)
  }

  /** An unknown user is not recorded without a shared channel, without room,
      or with nothing to record. */
  predicate Ignored(users: Users, nickname: string, account: Option<Option<string>>, realname: Option<string>,
                    channels: set<string>) {
    NicknameKey(nickname) !in users &&
    (channels == {} || |users| >= MAX_USERS || ((account.None? || account.value.None?) && realname.None?))
  }

  /** The users once a line is learned. */
  function AfterLearning(users: Users, nickname: string, account: Option<Option<string>>, realname: Option<string>,
                         channels: set<string>): Users {
    var known := Learned(users, nickname, account, realname, channels);
    if Ignored(users, nickname, account, realname, channels) then users
    else if NothingKnown(known) then users - {NicknameKey(nickname)}
    else users[NicknameKey(nickname) := known]
  }

  predicate NothingKnown(known: Known) {
    known.account.None? && known.realname.None?
  }

  /** An entry counts as new while its nickname is empty. */
  predicate IsNew(users: Users, key: string) {
    key !in users || users[key].nickname == ""
  }

  /** What learning a line tells. */
  function LearnEvents(users: Users, nickname: string, account: Option<Option<string>>, realname: Option<string>,
                       channels: set<string>): seq<Event> {
    var key, known := NicknameKey(nickname), Learned(users, nickname, account, realname, channels);
    if Ignored(users, nickname, account, realname, channels) then []
    else if NothingKnown(known) then if IsNew(users, key) then [] else [UserAccountForgotten(nickname)]
    else if IsNew(users, key) || users[key].account != known.account || users[key].realname != known.realname
      then [UserAccount(nickname, known.account, known.realname)]
    else []
  }

  lemma LearnKeeps(users: Users, nickname: string, account: Option<Option<string>>, realname: Option<string>,
                   channels: set<string>)
    requires Kept(users)
    ensures Kept(AfterLearning(users, nickname, account, realname, channels))
  {
    hide Kept;
    var key, known := NicknameKey(nickname), Learned(users, nickname, account, realname, channels);
    if !Ignored(users, nickname, account, realname, channels) {
      if NothingKnown(known) {
        RemovedKept(users, key);
      } else {
        SharesChannel(users, nickname, account, realname, channels);
        UpdatedKept(users, key, known);
      }
    }
  }

  lemma SharesChannel(users: Users, nickname: string, account: Option<Option<string>>, realname: Option<string>,
                      channels: set<string>)
    requires Kept(users) && !Ignored(users, nickname, account, realname, channels)
    ensures Learned(users, nickname, account, realname, channels).channels != {}
    ensures NicknameKey(nickname) !in users ==> |users| < MAX_USERS
  {
    var key := NicknameKey(nickname);
    if key in users {
      assert users[key].channels != {};
    }
  }

  /** Replaying what was told mirrors the users, unless the entry drops
      silently. */
  lemma LearnMirrors(users: Users, nickname: string, account: Option<Option<string>>, realname: Option<string>,
                     channels: set<string>)
    requires Kept(users)
    ensures Mirror(ViewOf(users), LearnEvents(users, nickname, account, realname, channels)) ==
            ViewOf(AfterLearning(users, nickname, account, realname, channels)) <==>
            !DropsSilently(users, nickname, account, realname)
  {
    hide Kept, ViewOf, Mirror;
    var key, known := NicknameKey(nickname), Learned(users, nickname, account, realname, channels);
    MirrorNothing(ViewOf(users));
    if !Ignored(users, nickname, account, realname, channels) {
      if NothingKnown(known) {
        RemovedKept(users, key);
        MirrorOne(ViewOf(users), UserAccountForgotten(users[key].nickname));
        MirrorOne(ViewOf(users), UserAccountForgotten(nickname));
        ViewLoses(users, key, nickname);
      } else {
        SharesChannel(users, nickname, account, realname, channels);
        UpdatedKept(users, key, known);
      }
    }
  }

  /** Even then the view stays right about every other nickname. */
  lemma LearnAgrees(users: Users, nickname: string, account: Option<Option<string>>, realname: Option<string>,
                    channels: set<string>)
    requires Kept(users)
    ensures AgreeOffEmpty(Mirror(ViewOf(users), LearnEvents(users, nickname, account, realname, channels)),
                          ViewOf(AfterLearning(users, nickname, account, realname, channels)))
  {
    hide Kept, ViewOf, Mirror, AgreeAt;
    AgreeWithItself();
    LearnMirrors(users, nickname, account, realname, channels);
    if DropsSilently(users, nickname, account, realname) {
      SilentOnlyIfEmpty(users, nickname, account, realname);
      DropAgrees(users);
      MirrorNothing(ViewOf(users));
    }
  }

  lemma AgreeWithItself()
    ensures forall a, k :: AgreeAt(a, a, k)
  {
  }

  lemma DropAgrees(users: Users)
    ensures AgreeOffEmpty(ViewOf(users), ViewOf(users - {""})) && NicknameKey("") == ""
  {
  }

  /** Only an empty nickname is dropped silently. */
  lemma SilentOnlyIfEmpty(users: Users, nickname: string, account: Option<Option<string>>, realname: Option<string>)
    requires Kept(users) && DropsSilently(users, nickname, account, realname)
    ensures nickname == ""
  {
    assert |NicknameKey(nickname)| == |users[NicknameKey(nickname)].nickname|;
  }

  lemma MirrorNothing(view: View)
    ensures Mirror(view, []) == view
  {
  }

  lemma ViewLoses(users: Users, key: string, nickname: string)
    requires Kept(users) && key in users && NicknameKey(nickname) == key
    ensures ViewOf(users) != ViewOf(users - {key})
    ensures Apply(ViewOf(users), UserAccountForgotten(nickname)) ==
              Apply(ViewOf(users), UserAccountForgotten(users[key].nickname))
  {
    assert key in ViewOf(users) && key !in ViewOf(users - {key});
  }

  /** The one way an entry goes without an event: it is taken for a new one,
      because its nickname is empty, and nothing is left to keep. */
  predicate DropsSilently(users: Users, nickname: string, account: Option<Option<string>>, realname: Option<string>) {
    var key := NicknameKey(nickname);
    key in users && users[key].nickname == "" && NothingKnown(Learned(users, nickname, account, realname, {}))
  }

  /** The users once those in `keys` have left `channel`. */
  function AfterLeaving(users: Users, keys: set<string>, channel: string): Users {
    map k | k in users && (k in keys ==> users[k].channels - {channel} != {}) ::
      if k in keys then users[k].(channels := users[k].channels - {channel}) else users[k]
  }

  /** The users once a channel's member list is known: its members are in it,
      whoever else was in it has left it. */
  function AfterNames(users: Users, members: set<string>, channel: string): Users {
    var gone := set k | k in users && k !in members && channel in users[k].channels;
    AfterLeaving(AfterEntering(users, members, channel), gone, channel)
  }

  /** The users once the known ones in `keys` have entered `channel`. */
  function AfterEntering(users: Users, keys: set<string>, channel: string): Users {
    map k | k in users :: if k in keys then users[k].(channels := users[k].channels + {channel}) else users[k]
  }

  lemma AfterLeavingNext(users: Users, keys: set<string>, channel: string, key: string)
    requires key !in keys
    ensures AfterLeaving(AfterLeaving(users, keys, channel), {key}, channel) ==
              AfterLeaving(users, keys + {key}, channel)
    ensures AfterLeaving(users, {}, channel) == users
  {
  }

  lemma LeftOne(users: Users, key: string, channel: string)
    requires Kept(users)
    ensures
      AfterLeaving(users, {key}, channel) ==
      if key !in users then users
      else if users[key].channels - {channel} == {} then users - {key}
      else users[key := users[key].(channels := users[key].channels - {channel})]
    ensures key in users && users[key].channels - {channel} != {} ==>
              Kept(AfterLeaving(users, {key}, channel)) && ViewOf(AfterLeaving(users, {key}, channel)) == ViewOf(users)
  {
    if key in users && users[key].channels - {channel} != {} {
      var known := users[key].(channels := users[key].channels - {channel});
      UpdatedKept(users, key, known);
    }
  }

  // ---------- What the lines told ----------

  /** What one line says about nicknames, by their keys: someone has an account
      or a real name and is in channels, recorded `anew` or known before;
      someone enters or leaves a channel; we leave one; a channel's members are
      exactly those listed; someone is called otherwise. */
  datatype Fact =
    | Heard(key: string, anew: bool, account: Option<Option<string>>, realname: Option<string>, channels: set<string>)
    | Entered(key: string, channel: string)
    | Left(key: string, channel: string)
    | WeLeft(channel: string)
    | Listed(keys: set<string>, channel: string)
    | Called(from: string, to: string)

  /** Whether the lines told that `key` is in `channel`, since it was recorded. */
  ghost predicate ToldIn(history: seq<Fact>, key: string, channel: string) {
    history != [] &&
    var before := history[..|history| - 1];
    match history[|history| - 1]
    case Heard(k, anew, _, _, channels) =>
      if k != key then ToldIn(before, key, channel) else channel in channels || (!anew && ToldIn(before, key, channel))
    case Entered(k, c) => (k == key && c == channel) || ToldIn(before, key, channel)
    case Left(k, c) => !(k == key && c == channel) && ToldIn(before, key, channel)
    case WeLeft(c) => c != channel && ToldIn(before, key, channel)
    case Listed(keys, c) => if c == channel then key in keys else ToldIn(before, key, channel)
    case Called(from, to) => ToldIn(before, if key == to then from else key, channel)
  }

  /** The account the last line that gave one told. */
  ghost function AccountTold(history: seq<Fact>, key: string): Option<string> {
    if history == [] then None
    else
      var before := history[..|history| - 1];
      match history[|history| - 1]
      case Heard(k, anew, account, _, _) =>
        if k != key then AccountTold(before, key)
        else if account.Some? then account.value
        else if anew then None
        else AccountTold(before, key)
      case Called(from, to) => AccountTold(before, if key == to then from else key)
      case _ => AccountTold(before, key)
  }

  /** The real name the last line that gave one told. */
  ghost function RealnameTold(history: seq<Fact>, key: string): Option<string> {
    if history == [] then None
    else
      var before := history[..|history| - 1];
      match history[|history| - 1]
      case Heard(k, anew, _, realname, _) =>
        if k != key then RealnameTold(before, key)
        else if realname.Some? then realname
        else if anew then None
        else RealnameTold(before, key)
      case Called(from, to) => RealnameTold(before, if key == to then from else key)
      case _ => RealnameTold(before, key)
  }

  /** The entry is what the lines told about its nickname. */
  ghost predicate AsTold(known: Known, history: seq<Fact>, key: string) {
    && (forall c :: c in known.channels <==> ToldIn(history, key, c))
    && known.account == AccountTold(history, key) && known.realname == RealnameTold(history, key)
  }

  ghost predicate Recorded(users: Users, history: seq<Fact>) {
    forall k :: k in users ==> AsTold(users[k], history, k)
  }

  /** Whether the lines told something worth an entry about `key`. */
  ghost predicate WorthKeeping(history: seq<Fact>, key: string) {
    && (exists c :: ToldIn(history, key, c))
    && (AccountTold(history, key).Some? || RealnameTold(history, key).Some?)
  }

  /** Who is recorded afterwards: of those recorded before, but for `others`,
      whoever is worth it still. */
  ghost predicate KeptWorthy(before: Users, after: Users, history: seq<Fact>, others: set<string>) {
    forall k :: k !in others ==>
      (k in after <==> k in before && WorthKeeping(history, k)) &&
      (k in after && k in before ==> after[k].nickname == before[k].nickname)
  }

  lemma LastFact(history: seq<Fact>, fact: Fact)
    ensures (history + [fact])[..|history + [fact]| - 1] == history
  {
  }

  lemma RecordedHeard(users: Users, history: seq<Fact>, nickname: string, account: Option<Option<string>>,
                      realname: Option<string>, channels: set<string>)
    requires Recorded(users, history)
    ensures
      var key := NicknameKey(nickname);
      Recorded(AfterLearning(users, nickname, account, realname, channels),
               history + [Heard(key, key !in users, account, realname, channels)])
  {
    var key := NicknameKey(nickname);
    LastFact(history, Heard(key, key !in users, account, realname, channels));
  }

  /** Someone heard of is recorded while in a channel and with an account or a
      real name, and for the first time only while there is room. */
  lemma HeardIsKept(users: Users, history: seq<Fact>, nickname: string, account: Option<Option<string>>,
                    realname: Option<string>, channels: set<string>)
    requires Kept(users) && Recorded(users, history)
    ensures
      var key := NicknameKey(nickname);
      var after := AfterLearning(users, nickname, account, realname, channels);
      var next := history + [Heard(key, key !in users, account, realname, channels)];
      && KeptWorthy(users, after, next, {key})
      && (key in after <==> WorthKeeping(next, key) && (key in users || |users| < MAX_USERS))
      && (key in after ==> after[key].nickname == nickname)
  {
    var key := NicknameKey(nickname);
    LastFact(history, Heard(key, key !in users, account, realname, channels));
    var next := history + [Heard(key, key !in users, account, realname, channels)];
    OthersWorthy(users, history, next, {key});
    if key in users {
      assert AsTold(users[key], history, key);
      var c :| c in users[key].channels;
      assert ToldIn(history, key, c) && ToldIn(next, key, c);
    } else if channels != {} {
      var c :| c in channels;
      assert ToldIn(next, key, c);
    }
  }

  /** Whoever is recorded is worth it. */
  lemma OthersWorthy(users: Users, history: seq<Fact>, next: seq<Fact>, others: set<string>)
    requires Kept(users) && Recorded(users, history)
    requires forall k, c :: k !in others ==> (ToldIn(next, k, c) <==> ToldIn(history, k, c))
    requires forall k :: k !in others ==> AccountTold(next, k) == AccountTold(history, k)
    requires forall k :: k !in others ==> RealnameTold(next, k) == RealnameTold(history, k)
    ensures forall k :: k in users && k !in others ==> WorthKeeping(next, k)
  {
    hide ToldIn, AccountTold, RealnameTold;
    forall k | k in users && k !in others ensures WorthKeeping(next, k) {
      assert AsTold(users[k], history, k);
      var c :| c in users[k].channels;
      assert ToldIn(history, k, c);
    }
  }

  lemma RecordedEntered(users: Users, history: seq<Fact>, key: string, channel: string)
    requires Recorded(users, history)
    ensures Recorded(AfterEntering(users, {key}, channel), history + [Entered(key, channel)])
  {
    LastFact(history, Entered(key, channel));
  }

  lemma RecordedLeft(users: Users, history: seq<Fact>, key: string, channel: string)
    requires Recorded(users, history)
    ensures Recorded(AfterLeaving(users, {key}, channel), history + [Left(key, channel)])
    ensures Recorded(AfterLeaving(users, users.Keys, channel), history + [WeLeft(channel)])
  {
    LastFact(history, Left(key, channel));
    LastFact(history, WeLeft(channel));
  }

  lemma RecordedListed(users: Users, history: seq<Fact>, keys: set<string>, channel: string)
    requires Recorded(users, history)
    ensures Recorded(AfterNames(users, keys, channel), history + [Listed(keys, channel)])
  {
    LastFact(history, Listed(keys, channel));
  }

  lemma RecordedCalled(users: Users, history: seq<Fact>, from: string, to: string)
    requires Recorded(users, history)
    ensures Recorded(RenamedUsers(users, from, to), history + [Called(NicknameKey(from), NicknameKey(to))])
  {
    LastFact(history, Called(NicknameKey(from), NicknameKey(to)));
  }

  lemma EnteredIsKept(users: Users, history: seq<Fact>, key: string, channel: string)
    requires Kept(users) && Recorded(users, history)
    ensures KeptWorthy(users, AfterEntering(users, {key}, channel), history + [Entered(key, channel)], {})
  {
    var next := history + [Entered(key, channel)];
    LastFact(history, Entered(key, channel));
    OthersWorthy(users, history, next, {key});
    assert key in users ==> ToldIn(next, key, channel);
    assert key in users ==> AsTold(users[key], history, key);
  }

  lemma LeftIsKept(users: Users, history: seq<Fact>, key: string, channel: string)
    requires Kept(users) && Recorded(users, history)
    ensures KeptWorthy(users, AfterLeaving(users, {key}, channel), history + [Left(key, channel)], {})
  {
    var next := history + [Left(key, channel)];
    LastFact(history, Left(key, channel));
    OthersWorthy(users, history, next, {key});
    if key in users {
      StillTold(users[key], history, next, key, channel);
    }
  }

  lemma WeLeftIsKept(users: Users, history: seq<Fact>, channel: string)
    requires Kept(users) && Recorded(users, history)
    ensures KeptWorthy(users, AfterLeaving(users, users.Keys, channel), history + [WeLeft(channel)], {})
  {
    LastFact(history, WeLeft(channel));
    forall k | k in users
      ensures users[k].channels - {channel} != {} <==> WorthKeeping(history + [WeLeft(channel)], k)
    {
      StillTold(users[k], history, history + [WeLeft(channel)], k, channel);
    }
  }

  /** Someone who loses one channel is worth an entry while in another one. */
  lemma StillTold(known: Known, history: seq<Fact>, next: seq<Fact>, key: string, channel: string)
    requires AsTold(known, history, key) && (known.account.Some? || known.realname.Some?)
    requires forall c :: ToldIn(next, key, c) <==> c != channel && ToldIn(history, key, c)
    requires AccountTold(next, key) == AccountTold(history, key) &&
             RealnameTold(next, key) == RealnameTold(history, key)
    ensures known.channels - {channel} != {} <==> WorthKeeping(next, key)
  {
    hide ToldIn, AccountTold, RealnameTold;
    if known.channels - {channel} != {} {
      var c :| c in known.channels - {channel};
      assert ToldIn(next, key, c);
    }
    if WorthKeeping(next, key) {
      var c :| ToldIn(next, key, c);
      assert c in known.channels - {channel};
    }
  }

  lemma ListedIsKept(users: Users, history: seq<Fact>, keys: set<string>, channel: string)
    requires Kept(users) && Recorded(users, history)
    ensures KeptWorthy(users, AfterNames(users, keys, channel), history + [Listed(keys, channel)], {})
  {
    var next := history + [Listed(keys, channel)];
    LastFact(history, Listed(keys, channel));
    forall k | k in users
      ensures k in AfterNames(users, keys, channel) <==> WorthKeeping(next, k)
    {
      assert AsTold(users[k], history, k);
      if k in keys {
        assert ToldIn(next, k, channel);
      } else {
        StillTold(users[k], history, next, k, channel);
      }
    }
  }

  lemma CalledIsKept(users: Users, history: seq<Fact>, from: string, to: string)
    requires Kept(users) && Recorded(users, history)
    ensures
      var (oldKey, key) := (NicknameKey(from), NicknameKey(to));
      var after := RenamedUsers(users, from, to);
      && KeptWorthy(users, after, history + [Called(oldKey, key)], {oldKey, key})
      && (key in after <==> oldKey in users) && (oldKey in after ==> oldKey == key)
      && (key in after ==> after[key].nickname == to)
  {
    LastFact(history, Called(NicknameKey(from), NicknameKey(to)));
    OthersWorthy(users, history, history + [Called(NicknameKey(from), NicknameKey(to))],
                 {NicknameKey(from), NicknameKey(to)});
  }

  /** Who is recorded once `line` was followed: of those before, whoever is
      worth it; someone who quits is not, a new name takes over from the old
      one, and someone heard of for the first time only while there is room. */
  ghost predicate RecordedAfter(line: Line, before: Users, after: Users, history: seq<Fact>) {
    match line
    case Join(_, Some(nickname), Some(_)) => HeardAfter(nickname, before, after, history)
    case Account(Some(nickname), _) => HeardAfter(nickname, before, after, history)
    case Quit(Some(nickname)) => after.Keys == before.Keys - {NicknameKey(nickname)}
    case Nick(Some(from), to) =>
      && KeptWorthy(before, after, history, {NicknameKey(from), NicknameKey(to)})
      && (NicknameKey(to) in after <==> NicknameKey(from) in before)
      && (NicknameKey(from) in after ==> NicknameKey(from) == NicknameKey(to))
      && (NicknameKey(to) in after ==> after[NicknameKey(to)].nickname == to)
    case _ => KeptWorthy(before, after, history, {})
  }

  ghost predicate HeardAfter(nickname: string, before: Users, after: Users, history: seq<Fact>) {
    var key := NicknameKey(nickname);
    && (key in after ==> after[key].nickname == nickname)
    && KeptWorthy(before, after, history, {key})
    && (key in after <==> WorthKeeping(history, key) && (key in before || |before| < MAX_USERS))
  }

  lemma RecordedFewer(users: Users, history: seq<Fact>, key: string)
    requires Recorded(users, history)
    ensures Recorded(users - {key}, history)
  {
    hide AsTold;
  }

  lemma NothingTold(users: Users, history: seq<Fact>)
    requires Kept(users) && Recorded(users, history)
    ensures history + [] == history && KeptWorthy(users, users, history, {})
  {
    OthersWorthy(users, history, history, {});
  }

  class Accounts {
    var users: Users
    var whox: bool
    var queue: seq<string>
    var outstanding: Option<Outstanding>
    var token: nat
    var casemapping: CaseMapping
    /** Who left the queried channel since the query went out and did not
        return. */
    ghost var gone: set<string>
    /** What the events so far tell, and whether an entry dropped silently,
        since the users were last cleared. */
    ghost var view: View
    ghost var dropped: bool
    /** What the lines told so far, since the users were last cleared. */
    ghost var history: seq<Fact>

    ghost predicate Sound()
      reads this
    {
      && Kept(users)
      && |queue| <= MAX_QUEUED_WHO
      && Apart(casemapping, queue)
      && (outstanding.Some? ==>
            && |outstanding.value.departed| <= MAX_DEPARTED_WHO
            && (outstanding.value.overflowed || gone == outstanding.value.departed))
    }

    /** What holds at every moment: also, whoever follows the events knows the
        users table, and every entry is what the lines told. */
    ghost predicate Valid()
      reads this
    {
      Sound() && Mirrors(view, users, dropped) && Recorded(users, history)
    }

    constructor ()
      ensures Valid() && users == map[] && queue == [] && outstanding.None? && gone == {} && view == map[] && !dropped
      ensures !whox && casemapping == Rfc1459 && history == []
    {
      users, whox, queue, outstanding, token, casemapping := map[], false, [], None, 0, Rfc1459;
      gone, view, dropped, history := {}, map[], false, [];
    }

    /** Whether the server answers our queries: what the last token about it
        says. */
    method Isupport(tokens: seq<string>)
      requires Valid()
      modifies this`whox
      ensures Valid()
      ensures whox <==>
                || (old(whox) && forall j :: 0 <= j < |tokens| ==> !Announces(tokens[j], "-WHOX"))
                || exists i :: 0 <= i < |tokens| && Announces(tokens[i], "WHOX") &&
                               forall j :: i < j < |tokens| ==> !Announces(tokens[j], "-WHOX")
    {
      hide Announces;
      for i := 0 to |tokens|
        invariant whox <==>
                    || (old(whox) && forall j :: 0 <= j < i ==> !Announces(tokens[j], "-WHOX"))
                    || exists k :: 0 <= k < i && Announces(tokens[k], "WHOX") &&
                                   forall j :: k < j < i ==> !Announces(tokens[j], "-WHOX")
      {
        OneName(tokens[i]);
        if Announces(tokens[i], "WHOX") {
          whox := true;
        } else if Announces(tokens[i], "-WHOX") {
          whox := false;
        }
      }
    }

    function ChannelKey(channel: string): string
      reads this`casemapping
    {
      Fold(casemapping, channel)
    }

    /** Records what is known about `nickname`. The events mirror the change,
        unless the entry drops silently. */
    method Learn(nickname: string, account: Option<Option<string>>, realname: Option<string>, channels: set<string>)
      returns (events: seq<Event>)
      requires Kept(users)
      modifies this`users
      ensures Kept(users)
      ensures Mirror(ViewOf(old(users)), events) == ViewOf(users) <==>
                !DropsSilently(old(users), nickname, account, realname)
      ensures AgreeOffEmpty(Mirror(ViewOf(old(users)), events), ViewOf(users))
      ensures users == AfterLearning(old(users), nickname, account, realname, channels)
    {
      hide Kept, ViewOf, Mirror, DropsSilently, AgreeOffEmpty;
      LearnKeeps(users, nickname, account, realname, channels);
      LearnMirrors(users, nickname, account, realname, channels);
      LearnAgrees(users, nickname, account, realname, channels);
      var key := NicknameKey(nickname);
      if Ignored(users, nickname, account, realname, channels) {
        return [];
      }
      var known := Learned(users, nickname, account, realname, channels);
      var isNew := IsNew(users, key);
      if NothingKnown(known) {
        if isNew {
          users := users - {key};
          return [];
        }
        users := users[key := known];
        events := Forget(key);
        assert users == old(users) - {key};
        return;
      }
      var changed := isNew || (users[key].account, users[key].realname) != (known.account, known.realname);
      users := users[key := known];
      return if changed then [UserAccount(known.nickname, known.account, known.realname)] else [];
    }

    method Forget(key: string) returns (events: seq<Event>)
      modifies this`users
      ensures users == old(users) - {key}
      ensures events == if key in old(users) then [UserAccountForgotten(old(users)[key].nickname)] else []
    {
      events := [];
      if key in users {
        events := [UserAccountForgotten(users[key].nickname)];
        users := users - {key};
      }
    }

    method Leave(key: string, channel: string) returns (events: seq<Event>)
      requires Kept(users)
      modifies this`users
      ensures Kept(users) && users == AfterLeaving(old(users), {key}, channel)
      ensures Mirror(ViewOf(old(users)), events) == ViewOf(users)
    {
      hide Kept, AfterLeaving, ViewOf;
      events := [];
      LeftOne(users, key, channel);
      if key in users {
        if users[key].channels - {channel} == {} {
          RemovedKept(users, key);
          events := Forget(key);
        } else {
          users := users[key := users[key].(channels := users[key].channels - {channel})];
        }
      }
    }

    /** Everybody in `keys` leaves `channel`. */
    method LeaveAll(keys: set<string>, channel: string) returns (events: seq<Event>)
      requires Kept(users)
      modifies this`users
      ensures Kept(users) && users == AfterLeaving(old(users), keys, channel)
      ensures Mirror(ViewOf(old(users)), events) == ViewOf(users)
    {
      hide Kept, AfterLeaving, ViewOf;
      events := [];
      var rest := keys;
      AfterLeavingNext(users, {}, channel, channel);
      assert keys - rest == {};
      while rest != {}
        invariant rest <= keys && Kept(users)
        invariant users == AfterLeaving(old(users), keys - rest, channel)
        invariant Mirror(ViewOf(old(users)), events) == ViewOf(users)
      {
        var key :| key in rest;
        var more := Leave(key, channel);
        MirrorSum(ViewOf(old(users)), events, more);
        events := events + more;
        AfterLeavingNext(old(users), keys - rest, channel, key);
        assert keys - rest + {key} == keys - (rest - {key});
        rest := rest - {key};
      }
      assert keys - rest == keys;
    }

    /** Notes that `nickname` left `channel` (`None`: every channel) while a
        query about it is outstanding. */
    method Departed(nickname: string, channel: Option<string>)
      requires Sound()
      modifies this`outstanding, this`gone
      ensures Sound() &&
              outstanding ==
                if old(Concerns(channel)) then Some(Noted(old(outstanding).value, NicknameKey(nickname)))
                else old(outstanding)
      ensures gone == if old(Concerns(channel)) then old(gone) + {NicknameKey(nickname)} else old(gone)
    {
      hide Kept, Apart;
      if Concerns(channel) {
        var key := NicknameKey(nickname);
        gone := gone + {key};
        outstanding := Some(Noted(outstanding.value, key));
      }
    }

    /** Whether the outstanding query is about `channel`. */
    predicate Concerns(channel: Option<string>)
      reads this`outstanding, this`casemapping
    {
      outstanding.Some? && (channel.None? || Same(casemapping, channel.value, outstanding.value.channel))
    }

    /** The reply is about a member who is here now. */
    method Returned(nickname: string)
      requires Sound()
      modifies this`outstanding, this`gone
      ensures Sound() &&
              outstanding ==
                if old(outstanding).Some? then Some(Back(old(outstanding).value, NicknameKey(nickname))) else None
      ensures gone == if outstanding.Some? then old(gone) - {NicknameKey(nickname)} else old(gone)
    {
      hide Kept, Apart;
      if outstanding.Some? {
        gone := gone - {NicknameKey(nickname)};
        outstanding := Some(Back(outstanding.value, NicknameKey(nickname)));
      }
    }

    // ---------- Lines ----------

    /** Who is gone from the queried channel once `line` is followed: whoever
        left it, quit or changed names, and did not return. */
    ghost function GoneAfter(line: Line, current: string): set<string>
      reads this`gone, this`outstanding, this`casemapping
    {
      match line
      case Join(channel, Some(nickname), _) => if IsAsked(channel) then gone - {NicknameKey(nickname)} else gone
      case Part(channel, Some(nickname)) => GoneBy(channel, nickname, current)
      case Kick(channel, nickname) => GoneBy(channel, nickname, current)
      case Quit(Some(nickname)) => if outstanding.Some? then gone + {NicknameKey(nickname)} else gone
      case Nick(Some(from), to) => if outstanding.Some? then gone + {NicknameKey(from)} - {NicknameKey(to)} else gone
      case _ => gone
    }

    ghost function GoneBy(channel: string, nickname: string, current: string): set<string>
      reads this`gone, this`outstanding, this`casemapping
    {
      if !Same(Rfc1459, nickname, current) && IsAsked(channel) then gone + {NicknameKey(nickname)} else gone
    }

    ghost predicate IsAsked(channel: string)
      reads this`outstanding, this`casemapping
    {
      outstanding.Some? && ChannelKey(channel) == ChannelKey(outstanding.value.channel)
    }

    /** The query once `line` is followed: who leaves is noted, within the
        bound, and our own leaving ends it. */
    ghost function QueryAfter(line: Line, current: string): Option<Outstanding>
      reads this`outstanding, this`casemapping
    {
      match line
      case Join(channel, Some(nickname), _) =>
        if Concerns(Some(channel)) then Some(Back(outstanding.value, NicknameKey(nickname))) else outstanding
      case Part(channel, Some(nickname)) => QueryLeft(channel, nickname, current)
      case Kick(channel, nickname) => QueryLeft(channel, nickname, current)
      case Quit(Some(nickname)) =>
        if Concerns(None) then Some(Noted(outstanding.value, NicknameKey(nickname))) else outstanding
      case Nick(Some(from), to) =>
        if Concerns(None) then Some(Back(Noted(outstanding.value, NicknameKey(from)), NicknameKey(to))) else outstanding
      case _ => outstanding
    }

    ghost function QueryLeft(channel: string, nickname: string, current: string): Option<Outstanding>
      reads this`outstanding, this`casemapping
    {
      if !Concerns(Some(channel)) then outstanding
      else if Same(Rfc1459, nickname, current) then None
      else Some(Noted(outstanding.value, NicknameKey(nickname)))
    }

    /** The queue once `line` is followed: our own leaving takes the channel
        out of it. */
    ghost function QueueAfter(line: Line, current: string): seq<string>
      reads this`queue, this`casemapping
    {
      match line
      case Part(channel, Some(nickname)) => QueueLeft(channel, nickname, current)
      case Kick(channel, nickname) => QueueLeft(channel, nickname, current)
      case _ => queue
    }

    ghost function QueueLeft(channel: string, nickname: string, current: string): seq<string>
      reads this`queue, this`casemapping
    {
      if Same(Rfc1459, nickname, current) then Filter(queue, NotSame(casemapping, channel)) else queue
    }

    /** Whether following `line` drops an entry without an event. */
    ghost predicate Silent(line: Line)
      reads this`users
    {
      match line
      case Join(_, Some(nickname), Some(extended)) =>
        DropsSilently(users, nickname, Some(AccountValue(extended.0)), RealnameValue(extended.1))
      case Account(Some(nickname), account) => DropsSilently(users, nickname, Some(AccountValue(account)), None)
      case _ => false
    }

    /** What a line makes of the users. */
    ghost function UsersAfter(line: Line, current: string, shared: set<string>): Users
      reads this`users, this`casemapping
    {
      match line
      case Join(channel, Some(nickname), extended) => UsersJoined(channel, nickname, extended)
      case Part(channel, Some(nickname)) => UsersLeft(channel, nickname, current)
      case Kick(channel, nickname) => UsersLeft(channel, nickname, current)
      case Quit(Some(nickname)) => users - {NicknameKey(nickname)}
      case Nick(Some(from), to) => RenamedUsers(users, from, to)
      case Account(Some(nickname), account) => AfterLearning(users, nickname, Some(AccountValue(account)), None, shared)
      case _ => users
    }

    ghost function UsersJoined(channel: string, nickname: string, extended: Option<(string, string)>): Users
      reads this`users, this`casemapping
    {
      if extended.Some?
      then AfterLearning(users, nickname, Some(AccountValue(extended.value.0)), RealnameValue(extended.value.1),
                         {ChannelKey(channel)})
      else AfterEntering(users, {NicknameKey(nickname)}, ChannelKey(channel))
    }

    /** Our own leaving takes the channel from everybody. */
    ghost function UsersLeft(channel: string, nickname: string, current: string): Users
      reads this`users, this`casemapping
    {
      AfterLeaving(users,
                   if Same(Rfc1459, nickname, current) then users.Keys
                   else {NicknameKey(nickname)}, ChannelKey(channel))
    }

    /** What a line tells. */
    ghost function FactsOf(line: Line, current: string, shared: set<string>): seq<Fact>
      reads this`users, this`casemapping
    {
      match line
      case Join(channel, Some(nickname), Some(extended)) =>
        HeardOf(nickname, Some(AccountValue(extended.0)), RealnameValue(extended.1), {ChannelKey(channel)})
      case Join(channel, Some(nickname), None) => [Entered(NicknameKey(nickname), ChannelKey(channel))]
      case Part(channel, Some(nickname)) => LeavingOf(channel, nickname, current)
      case Kick(channel, nickname) => LeavingOf(channel, nickname, current)
      case Nick(Some(from), to) => [Called(NicknameKey(from), NicknameKey(to))]
      case Account(Some(nickname), account) => HeardOf(nickname, Some(AccountValue(account)), None, shared)
      case _ => []
    }

    ghost function HeardOf(nickname: string, account: Option<Option<string>>, realname: Option<string>,
                           channels: set<string>): seq<Fact>
      reads this`users
    {
      [Heard(NicknameKey(nickname), NicknameKey(nickname) !in users, account, realname, channels)]
    }

    ghost function LeavingOf(channel: string, nickname: string, current: string): seq<Fact>
      reads this`casemapping
    {
      if Same(Rfc1459, nickname, current) then [WeLeft(ChannelKey(channel))]
      else [Left(NicknameKey(nickname), ChannelKey(channel))]
    }

    /** Follows a line. `shared` are the channels the source of an ACCOUNT is
        present in. The events mirror what changed. */
    method Observe(line: Line, current: string, shared: set<string>) returns (events: seq<Event>)
      requires Valid()
      modifies this`users, this`outstanding, this`queue, this`gone, this`view, this`dropped, this`history
      ensures Valid() && users == old(UsersAfter(line, current, shared))
      ensures history == old(history) + old(FactsOf(line, current, shared)) &&
              RecordedAfter(line, old(users), users, history)
      ensures Mirror(ViewOf(old(users)), events) == ViewOf(users) <==> !old(Silent(line))
      ensures view == Mirror(old(view), events) && (dropped <==> old(dropped) || old(Silent(line)))
      ensures gone == old(GoneAfter(line, current))
      ensures outstanding == old(QueryAfter(line, current)) && queue == old(QueueAfter(line, current))
    {
      hide Mirrors, AgreeOffEmpty, Mirror, ViewOf, UsersAfter, Silent, GoneAfter, QueryAfter, QueueAfter, Kept, Apart,
           Recorded, RecordedAfter, FactsOf;
      ghost var silent, facts := Silent(line), FactsOf(line, current, shared);
      FollowsLine(line, current, shared);
      events := Take(line, current, shared);
      history := history + facts;
      StillMirrors(view, old(users), events, users, dropped, silent);
      view := Mirror(view, events);
      dropped := dropped || silent;
    }

    lemma FollowsLine(line: Line, current: string, shared: set<string>)
      requires Kept(users) && Recorded(users, history)
      ensures
        var (after, next) := (UsersAfter(line, current, shared), history + FactsOf(line, current, shared));
        Recorded(after, next) && RecordedAfter(line, users, after, next)
    {
      hide Kept, Recorded, KeptWorthy, AfterLearning, AfterEntering, AfterLeaving, RenamedUsers, WorthKeeping,
           AccountValue,
           RealnameValue, Fold, Learned, Ignored;
      NothingTold(users, history);
      match line {
        case Join(channel, Some(nickname), Some(extended)) =>
          HeardFollows(nickname, Some(AccountValue(extended.0)), RealnameValue(extended.1), {ChannelKey(channel)});
        case Join(channel, Some(nickname), None) =>
          RecordedEntered(users, history, NicknameKey(nickname), ChannelKey(channel));
          EnteredIsKept(users, history, NicknameKey(nickname), ChannelKey(channel));
        case Part(channel, Some(nickname)) =>
          LeavingFollows(channel, nickname);
        case Kick(channel, nickname) =>
          LeavingFollows(channel, nickname);
        case Quit(Some(nickname)) =>
          RecordedFewer(users, history, NicknameKey(nickname));
        case Nick(Some(from), to) =>
          RecordedCalled(users, history, from, to);
          CalledIsKept(users, history, from, to);
        case Account(Some(nickname), account) =>
          HeardFollows(nickname, Some(AccountValue(account)), None, shared);
        case _ =>
      }
    }

    lemma HeardFollows(nickname: string, account: Option<Option<string>>, realname: Option<string>,
                       channels: set<string>)
      requires Kept(users) && Recorded(users, history)
      ensures
        var after := AfterLearning(users, nickname, account, realname, channels);
        var next := history + HeardOf(nickname, account, realname, channels);
        Recorded(after, next) && HeardAfter(nickname, users, after, next)
    {
      hide Kept, Recorded, KeptWorthy, AfterLearning, WorthKeeping;
      RecordedHeard(users, history, nickname, account, realname, channels);
      HeardIsKept(users, history, nickname, account, realname, channels);
    }

    lemma LeavingFollows(channel: string, nickname: string)
      requires Kept(users) && Recorded(users, history)
      ensures
        var (one, all) := (AfterLeaving(users, {NicknameKey(nickname)}, ChannelKey(channel)),
                           AfterLeaving(users, users.Keys, ChannelKey(channel)));
        var (left, weLeft) := (history + [Left(NicknameKey(nickname), ChannelKey(channel))],
                               history + [WeLeft(ChannelKey(channel))]);
        && Recorded(one, left) && KeptWorthy(users, one, left, {})
        && Recorded(all, weLeft) && KeptWorthy(users, all, weLeft, {})
    {
      hide Kept, Recorded, KeptWorthy, AfterLeaving, WorthKeeping;
      RecordedLeft(users, history, NicknameKey(nickname), ChannelKey(channel));
      LeftIsKept(users, history, NicknameKey(nickname), ChannelKey(channel));
      WeLeftIsKept(users, history, ChannelKey(channel));
    }

    method Take(line: Line, current: string, shared: set<string>) returns (events: seq<Event>)
      requires Sound()
      modifies this`users, this`outstanding, this`queue, this`gone
      ensures Sound() && users == old(UsersAfter(line, current, shared))
      ensures Mirror(ViewOf(old(users)), events) == ViewOf(users) <==> !old(Silent(line))
      ensures AgreeOffEmpty(Mirror(ViewOf(old(users)), events), ViewOf(users))
      ensures gone == old(GoneAfter(line, current))
      ensures outstanding == old(QueryAfter(line, current)) && queue == old(QueueAfter(line, current))
    {
      hide Kept, Learned, Ignored, NothingKnown, DropsSilently, ViewOf, AccountValue, RealnameValue, Fold, Noted, Back,
           Filter, AgreeAt,
        AfterLearning, AfterEntering, AfterLeaving, RenamedUsers, UsersJoined, UsersLeft;
      AgreeWithItself();
      events := [];
      match line {
        case Join(channel, Some(nickname), extended) =>
          events := ObserveJoin(channel, nickname, extended);
        case Part(channel, Some(nickname)) =>
          events := ObserveLeaving(channel, nickname, current);
        case Kick(channel, nickname) =>
          events := ObserveLeaving(channel, nickname, current);
        case Quit(Some(nickname)) =>
          Departed(nickname, None);
          events := ForgetMirrored(NicknameKey(nickname));
        case Nick(Some(from), to) =>
          Departed(from, None);
          Returned(to);
          events := Renamed(from, to);
        case Account(Some(nickname), account) =>
          events := Learn(nickname, Some(AccountValue(account)), None, shared);
        case _ =>
      }
    }

    method ForgetMirrored(key: string) returns (events: seq<Event>)
      requires Kept(users)
      modifies this`users
      ensures Kept(users) && users == old(users) - {key}
      ensures Mirror(ViewOf(old(users)), events) == ViewOf(users)
    {
      hide Kept, ViewOf;
      if key in users {
        RemovedKept(users, key);
      }
      events := Forget(key);
      assert key !in old(users) ==> users == old(users);
    }

    method ObserveJoin(channel: string, nickname: string, extended: Option<(string, string)>)
      returns (events: seq<Event>)
      requires Sound()
      modifies this`users, this`outstanding, this`gone
      ensures Sound() && users == old(UsersJoined(channel, nickname, extended))
      ensures outstanding ==
                if old(Concerns(Some(channel))) then Some(Back(old(outstanding).value, NicknameKey(nickname)))
                else old(outstanding)
      ensures AgreeOffEmpty(Mirror(ViewOf(old(users)), events), ViewOf(users))
      ensures Mirror(ViewOf(old(users)), events) == ViewOf(users) <==>
                !old(Silent(Join(channel, Some(nickname), extended)))
      ensures gone == if old(Concerns(Some(channel))) then old(gone) - {NicknameKey(nickname)} else old(gone)
    {
      hide AgreeAt, Noted, Back, Apart, Kept, Learned, Ignored, NothingKnown, DropsSilently, ViewOf, AccountValue,
           RealnameValue, Fold, AfterLearning, AfterEntering;
      AgreeWithItself();
      events := [];
      if Concerns(Some(channel)) {
        Returned(nickname);
      }
      if extended.Some? {
        events :=
          Learn(nickname, Some(AccountValue(extended.value.0)), RealnameValue(extended.value.1), {ChannelKey(channel)});
      } else {
        AddChannel({NicknameKey(nickname)}, ChannelKey(channel));
      }
    }

    /** Known users in `keys` gain a channel; nothing else is known. */
    method AddChannel(keys: set<string>, channel: string)
      requires Kept(users)
      modifies this`users
      ensures Kept(users) && ViewOf(users) == ViewOf(old(users))
      ensures users == AfterEntering(old(users), keys, channel)
    {
      users := AfterEntering(users, keys, channel);
      assert users.Keys == old(users).Keys;
      assert |users| == |users.Keys| && |old(users)| == |old(users).Keys|;
    }

    method ObserveLeaving(channel: string, nickname: string, current: string) returns (events: seq<Event>)
      requires Sound()
      modifies this`users, this`outstanding, this`gone, this`queue
      ensures Sound() && gone == old(GoneBy(channel, nickname, current))
      ensures Mirror(ViewOf(old(users)), events) == ViewOf(users)
      ensures outstanding == old(QueryLeft(channel, nickname, current)) &&
              queue == old(QueueLeft(channel, nickname, current))
      ensures users == old(UsersLeft(channel, nickname, current))
    {
      hide Noted, Back, Apart, Filter, Kept, ViewOf, AfterLeaving, Fold;
      if Same(Rfc1459, nickname, current) {
        events := ForgetChannel(channel);
      } else {
        Departed(nickname, Some(channel));
        events := Leave(NicknameKey(nickname), ChannelKey(channel));
      }
    }

    /** We left `channel`: everybody loses it. */
    method ForgetChannel(channel: string) returns (events: seq<Event>)
      requires Sound()
      modifies this`users, this`outstanding, this`queue
      ensures Sound() && users == AfterLeaving(old(users), old(users).Keys, ChannelKey(channel))
      ensures Mirror(ViewOf(old(users)), events) == ViewOf(users)
      ensures queue == Filter(old(queue), NotSame(casemapping, channel)) &&
              forall q :: q in queue <==> q in old(queue) && !Same(casemapping, q, channel)
      ensures outstanding == if old(Concerns(Some(channel))) then None else old(outstanding)
    {
      hide Apart, Filter, Kept, ViewOf, AfterLeaving, Fold;
      ApartFiltered(casemapping, queue, NotSame(casemapping, channel));
      queue := Filter(queue, NotSame(casemapping, channel));
      if Concerns(Some(channel)) {
        outstanding := None;
      }
      events := LeaveAll(users.Keys, ChannelKey(channel));
    }

    method Renamed(from: string, to: string) returns (events: seq<Event>)
      requires Kept(users)
      modifies this`users
      ensures Kept(users) && Mirror(ViewOf(old(users)), events) == ViewOf(users)
      ensures users == RenamedUsers(old(users), from, to)
    {
      hide Kept, ViewOf, Fold;
      var (oldKey, key) := (NicknameKey(from), NicknameKey(to));
      RenameMirrors(users, from, to);
      ghost var expected := RenameEvents(users, from, to);
      events := [];
      if oldKey in users {
        var known := users[oldKey];
        users := users - {oldKey};
        events := Forget(key);
        events := events + [UserAccountForgotten(known.nickname)];
        users := users[key := known.(nickname := to)];
        events := events + [UserAccount(to, known.account, known.realname)];
      } else {
        events := Forget(key);
      }
      assert users == RenamedUsers(old(users), from, to);
      assert events == expected;
    }

    /** A channel's member list was published. */
    method Names(channel: string, members: seq<string>) returns (events: seq<Event>)
      requires Valid()
      modifies this`users, this`view, this`history
      ensures Valid() && Mirror(ViewOf(old(users)), events) == ViewOf(users) && view == Mirror(old(view), events)
      ensures history == old(history) + [Listed(RosterKeys(members), ChannelKey(channel))]
      ensures KeptWorthy(old(users), users, history, {})
      ensures users == AfterNames(old(users), RosterKeys(members), ChannelKey(channel))
    {
      hide Kept, ViewOf, RosterKeys, Mirrors, AfterLeaving, Apart, AgreeAt, Recorded, KeptWorthy;
      AgreeWithItself();
      var key := ChannelKey(channel);
      var present := RosterKeys(members);
      RecordedListed(users, history, present, key);
      ListedIsKept(users, history, present, key);
      history := history + [Listed(present, key)];
      AddChannel(present, key);
      var departed := set k | k in users && k !in present && key in users[k].channels;
      assert departed == set k | k in old(users) && k !in present && key in old(users)[k].channels;
      events := LeaveAll(departed, key);
      StillMirrors(view, old(users), events, users, dropped, false);
      view := Mirror(view, events);
    }

    /** We joined `channel`: its members' accounts are asked for. */
    method Joined(channel: string)
      requires Valid()
      modifies this`queue
      ensures Valid()
      ensures queue == if whox && |old(queue)| < MAX_QUEUED_WHO && !Concerns(Some(channel)) &&
                       !(exists i :: 0 <= i < |old(queue)| && Same(casemapping, old(queue)[i], channel))
                       then old(queue) + [channel] else old(queue)
    {
      if whox && |queue| < MAX_QUEUED_WHO && !Concerns(Some(channel)) && !InQueue(casemapping, queue, channel) {
        queue := queue + [channel];
      }
    }

    /** The next query, when none is waiting for its answer. */
    method NextWho(now: int) returns (query: Option<(string, nat)>)
      requires Valid()
      modifies this`queue, this`outstanding, this`token, this`gone
      ensures Valid()
      ensures
        var waiting := old(outstanding).Some? && now - old(outstanding).value.sent < WHO_TIMEOUT;
        if waiting then query.None? && outstanding == old(outstanding) && queue == old(queue) && gone == old(gone)
        else if old(queue) == [] then query.None? && outstanding.None? && queue == []
        else query == Some((old(queue)[0], token)) && queue == old(queue)[1..] && 1 <= token <= 999 &&
             token != old(token) &&
             outstanding == Some(Outstanding(old(queue)[0], token, now, {}, false)) && gone == {}
    {
      hide Kept, Mirrors, Recorded;
      if outstanding.Some? && now - outstanding.value.sent >= WHO_TIMEOUT {
        outstanding := None;
      }
      if outstanding.Some? || queue == [] {
        return None;
      }
      var channel := queue[0];
      queue := queue[1..];
      token := token % 999 + 1;
      outstanding := Some(Outstanding(channel, token, now, {}, false));
      gone := {};
      return Some((channel, token));
    }

    /** Part of our reply is consumed. A line about someone who left after the
        query and did not return changes nothing. */
    method ObserveWho(line: WhoLine) returns (r: Option<seq<Event>>)
      requires Valid()
      modifies this`users, this`outstanding, this`view, this`dropped, this`history
      ensures Valid()
      ensures r.Some? <==>
                (old(outstanding).Some? &&
                  ((line.WhoEntry? && line.token == old(outstanding).value.token) ||
                   (line.WhoEnd? && Same(casemapping, line.channel, old(outstanding).value.channel))))
      ensures r.None? ==> users == old(users) && outstanding == old(outstanding)
      ensures view == Mirror(old(view), if r.Some? then r.value else [])
      ensures r.Some? && line.WhoEnd? ==> users == old(users) && outstanding.None? && r.value == []
      ensures r.Some? && line.WhoEntry? ==> outstanding == old(outstanding)
      ensures r.Some? && line.WhoEntry? ==>
                (Counts(line, outstanding.value) <==> line.entry.Some? && !outstanding.value.overflowed && !Stale(line))
      ensures r.Some? && line.WhoEntry? && Stale(line) ==> users == old(users) && r.value == []
      ensures r.Some? && line.WhoEntry? && !Counts(line, outstanding.value) ==> users == old(users) && r.value == []
      ensures r.Some? && line.WhoEntry? && Counts(line, outstanding.value) ==>
                users == AfterLearning(old(users), line.entry.value.0, Some(WhoAccount(line)), WhoRealname(line),
                                       {Fold(casemapping, outstanding.value.channel)}) &&
                (Mirror(ViewOf(old(users)), r.value) == ViewOf(users) <==>
                 !DropsSilently(old(users), line.entry.value.0, Some(WhoAccount(line)), WhoRealname(line)))
      ensures r.Some? && line.WhoEntry? && Counts(line, outstanding.value) ==>
                && history == old(history) + old(HeardOf(line.entry.value.0, Some(WhoAccount(line)), WhoRealname(line),
                                                         {Fold(casemapping, outstanding.value.channel)}))
                && HeardAfter(line.entry.value.0, old(users), users, history)
      ensures !(r.Some? && line.WhoEntry? && Counts(line, outstanding.value)) ==> history == old(history)
    {
      hide Apart, Mirrors, AgreeAt, Kept, Learned, Ignored, NothingKnown, DropsSilently, ViewOf, AccountValue,
           RealnameValue, Fold, AfterLearning, Recorded, KeptWorthy, WorthKeeping;
      MirrorNothing(view);
      if outstanding.None? {
        return None;
      }
      var o := outstanding.value;
      match line {
        case WhoEntry(token, entry, _) =>
          if token != o.token {
            return None;
          }
          if !Counts(line, o) {
            return Some([]);
          }
          HeardFollows(entry.value.0, Some(WhoAccount(line)), WhoRealname(line), {Fold(casemapping, o.channel)});
          history := history + HeardOf(entry.value.0, Some(WhoAccount(line)), WhoRealname(line),
                                       {Fold(casemapping, o.channel)});
          var events := Learn(entry.value.0, Some(WhoAccount(line)), WhoRealname(line), {Fold(casemapping, o.channel)});
          ghost var silent := DropsSilently(old(users), entry.value.0, Some(WhoAccount(line)), WhoRealname(line));
          StillMirrors(view, old(users), events, users, dropped, silent);
          view := Mirror(view, events);
          dropped := dropped || silent;
          return Some(events);
        case WhoEnd(channel) =>
          if !Same(casemapping, channel, o.channel) {
            return None;
          }
          outstanding := None;
          return Some([]);
        case OtherNumeric =>
          return None;
      }
    }

    /** The line is about someone who left after the query. */
    ghost predicate Stale(line: WhoLine)
      reads this`gone
    {
      line.WhoEntry? && line.entry.Some? && NicknameKey(line.entry.value.0) in gone
    }

    /** What depends on the old keys is dropped, without events. */
    method SetCasemapping(mapping: CaseMapping)
      requires Valid()
      modifies this`users, this`queue, this`outstanding, this`casemapping, this`view, this`dropped, this`history
      ensures Valid() && casemapping == mapping
      ensures old(casemapping) == mapping ==>
                users == old(users) && queue == old(queue) && outstanding == old(outstanding)
      ensures old(casemapping) != mapping ==>
                users == map[] && queue == [] && outstanding.None? && view == map[] && !dropped && history == []
    {
      if casemapping != mapping {
        casemapping := mapping;
        users := map[];
        queue := [];
        outstanding := None;
        view, dropped, history := map[], false, [];
      }
    }
  }

  /** The entry is about someone not known to have left since the query. */
  predicate Counts(line: WhoLine, o: Outstanding) {
    line.WhoEntry? && line.entry.Some? && !o.overflowed && NicknameKey(line.entry.value.0) !in o.departed
  }

  /** The entry moves to the new name, whose stale holder is forgotten. */
  function RenamedUsers(users: Users, from: string, to: string): Users {
    var (oldKey, key) := (NicknameKey(from), NicknameKey(to));
    if oldKey in users then (users - {oldKey})[key := users[oldKey].(nickname := to)] else users - {key}
  }

  /** The events of a rename. */
  function RenameEvents(users: Users, from: string, to: string): seq<Event> {
    var (oldKey, key) := (NicknameKey(from), NicknameKey(to));
    (if key in users && key != oldKey then [UserAccountForgotten(users[key].nickname)] else []) +
    if oldKey in users
    then [UserAccountForgotten(users[oldKey].nickname), UserAccount(to, users[oldKey].account, users[oldKey].realname)]
    else []
  }

  lemma RenameMirrors(users: Users, from: string, to: string)
    requires Kept(users)
    ensures Kept(RenamedUsers(users, from, to))
    ensures Mirror(ViewOf(users), RenameEvents(users, from, to)) == ViewOf(RenamedUsers(users, from, to))
  {
    hide Kept, ViewOf, Apply, Fold;
    var (oldKey, key) := (NicknameKey(from), NicknameKey(to));
    var first := if key in users && key != oldKey then [UserAccountForgotten(users[key].nickname)] else [];
    var u1 := if key in users && key != oldKey then users - {key} else users;
    if key in users && key != oldKey {
      RemovedKept(users, key);
    }
    assert first + [] == first;
    if oldKey in users {
      RenameMoves(u1, from, to);
      var known := u1[oldKey];
      var second := [UserAccountForgotten(known.nickname), UserAccount(to, known.account, known.realname)];
      MirrorSum(ViewOf(users), first, second);
      assert (u1 - {oldKey})[key := known.(nickname := to)] == RenamedUsers(users, from, to);
    } else {
      assert key !in users ==> users - {key} == users;
    }
  }

  lemma RenameMoves(users: Users, from: string, to: string)
    requires Kept(users) && NicknameKey(from) in users &&
             (NicknameKey(to) in users ==> NicknameKey(to) == NicknameKey(from))
    ensures
      var known := users[NicknameKey(from)];
      var u := (users - {NicknameKey(from)})[NicknameKey(to) := known.(nickname := to)];
      Kept(u) &&
      Mirror(ViewOf(users), [UserAccountForgotten(known.nickname), UserAccount(to, known.account, known.realname)]) ==
        ViewOf(u)
  {
    hide ViewOf, Apply, Fold;
    var oldKey := NicknameKey(from);
    var known := users[oldKey];
    var (a, b) := (UserAccountForgotten(known.nickname), UserAccount(to, known.account, known.realname));
    RemovedKept(users, oldKey);
    UpdatedKept(users - {oldKey}, NicknameKey(to), known.(nickname := to));
    MirrorSum(ViewOf(users), [a], [b]);
    assert [a] + [b] == [a, b];
  }

  ghost predicate Apart(m: CaseMapping, s: seq<string>) {
    forall i, j :: 0 <= i < j < |s| ==> !Same(m, s[i], s[j])
  }

  function NotSame(m: CaseMapping, channel: string): string -> bool {
    (c: string) => !Same(m, c, channel)
  }

  lemma ApartFiltered(m: CaseMapping, queue: seq<string>, p: string -> bool)
    requires Apart(m, queue)
    ensures Apart(m, Filter(queue, p))
  {
    hide Fold, Filter;
    FilterDistinctBy(queue, p, (c: string) => Fold(m, c));
  }

  predicate InQueue(m: CaseMapping, queue: seq<string>, channel: string) {
    exists i :: 0 <= i < |queue| && Same(m, queue[i], channel)
  }

  function WhoAccount(line: WhoLine): Option<string>
    requires line.WhoEntry? && line.entry.Some?
  {
    if line.entry.value.1 == "0" then None else AccountValue(line.entry.value.1)
  }

  function WhoRealname(line: WhoLine): Option<string>
    requires line.WhoEntry?
  {
    if line.realname.Some? then RealnameValue(line.realname.value) else None
  }

  // ---------- The silent drop ----------

  /** It happens: a user renamed to an empty nickname logs out. */
  lemma SilentDropExists()
    ensures exists users, from ::
      Kept(users) && from in users && DropsSilently(RenamedUsers(users, from, ""), "", Some(None), None)
  {
    var users: Users := map["bob" := Known("bob", Some("b"), None, {"#c"})];
    BobIsKept(users);
    assert "" in RenamedUsers(users, "bob", "");
    assert NicknameKey("") == "";
    assert DropsSilently(RenamedUsers(users, "bob", ""), "", Some(None), None);
    assert Kept(users) && "bob" in users;
  }

  lemma BobIsKept(users: Users)
    requires users == map["bob" := Known("bob", Some("b"), None, {"#c"})]
    ensures Kept(users) && NicknameKey("bob") == "bob"
  {
    assert NicknameKey("bob") == "bob";
    assert |users.Keys| == |users| && users.Keys == {"bob"};
    assert users["bob"].channels == {"#c"} && "#c" in {"#c"};
  }

  /** The query once someone's leaving is noted, within the bound. */
  function Noted(o: Outstanding, key: string): Outstanding {
    if key in o.departed then o
    else if |o.departed| < MAX_DEPARTED_WHO then o.(departed := o.departed + {key})
    else o.(overflowed := true)
  }

  /** Only when more names left than can be noted is one of them not known. */
  lemma NotedMeans(o: Outstanding, key: string)
    ensures
      var n := Noted(o, key);
      && o.departed <= n.departed <= o.departed + {key} && (key in n.departed || n.overflowed)
      && (n.overflowed ==> o.overflowed || |o.departed + {key}| > MAX_DEPARTED_WHO)
  {
    if key !in o.departed {
      assert |o.departed + {key}| == |o.departed| + 1;
    }
  }

  /** The query once its reply is about a member who is here now. */
  function Back(o: Outstanding, key: string): Outstanding {
    o.(departed := o.departed - {key})
  }
}
