/** The modes set on each joined channel, asked for through a bounded window
    of queries. */
module ChannelModes {
  import opened Text
  import opened Names
  import opened Lists
  import opened Sizes

  const MAX_FLAGS := 64
  const MAX_TRACKED := 512
  const MAX_IN_FLIGHT := 4
  /** In seconds. */
  const QUERY_TIMEOUT := 10

  datatype Change = Change(plus: bool, letter: char)

  datatype Line =
    | ModeIs(channel: string, letters: string)
    | Mode(channel: string, changes: seq<Change>)
    | OtherLine

  /** A channel as the server wrote it, and its flags once they are known. */
  datatype Tracked = Tracked(name: string, flags: Option<seq<char>>)

  // ---------- Flags ----------

  predicate IsAlphabetic(c: char) {
    'a' <= c <= 'z' || 'A' <= c <= 'Z'
  }

  function Range(low: int, n: nat): (r: set<int>)
    ensures |r| == n
    ensures forall i :: i in r <==> low <= i < low + n
  {
    if n == 0 then {} else Range(low, n - 1) + {low + n - 1}
  }

  ghost function Codes(flags: seq<char>): set<int> {
    set i | 0 <= i < |flags| :: flags[i] as int
  }

  lemma {:induction false} CodesSize(flags: seq<char>)
    requires Distinct(flags)
    ensures |Codes(flags)| == |flags|
  {
    if flags != [] {
      var front, last := flags[..|flags| - 1], flags[|flags| - 1];
      CodesSize(front);
      assert Codes(flags) == Codes(front) + {last as int};
      assert last as int !in Codes(front);
    }
  }

  /** Only 52 letters qualify, so the bound on flags is never met. */
  lemma FewFlags(flags: seq<char>)
    requires Distinct(flags) && forall c :: c in flags ==> IsAlphabetic(c)
    ensures |flags| <= 52
  {
    hide Range;
    CodesSize(flags);
    var (upper, lower) := (Range(65, 26), Range(97, 26));
    assert upper !! lower;
    assert |upper + lower| == 52;
    forall i | 0 <= i < |flags|
      ensures flags[i] as int in upper + lower
    {
      assert flags[i] in flags;
    }
    SubsetSize(Codes(flags), upper + lower);
  }

  /** Letters that take a list entry or a member are no flags. */
  predicate Qualifies(notFlags: set<char>, c: Change) {
    IsAlphabetic(c.letter) && c.letter !in notFlags
  }

  function SetFlag(notFlags: set<char>, flags: seq<char>, c: Change): seq<char> {
    if !Qualifies(notFlags, c) then flags
    else if c.plus then
      if c.letter !in flags && |flags| < MAX_FLAGS then flags + [c.letter] else flags
    else Except(flags, c.letter)
  }

  /** The changes that qualify, in order. */
  function Qualified(notFlags: set<char>, changes: seq<Change>): seq<Change> {
    if changes == [] then []
    else
      Qualified(notFlags, changes[..|changes| - 1]) +
      if Qualifies(notFlags, changes[|changes| - 1]) then [changes[|changes| - 1]] else []
  }

  /** Whether a letter was set and not cleared since. */
  predicate IsSet(changes: seq<Change>, letter: char) {
    changes != [] &&
    var last := changes[|changes| - 1];
    if last.letter == letter then last.plus else IsSet(changes[..|changes| - 1], letter)
  }

  /** The flags are exactly the letters set and not cleared. */
  ghost predicate Shows(flags: seq<char>, changes: seq<Change>) {
    Distinct(flags) && forall c :: (c in flags ==> IsAlphabetic(c)) && (c in flags <==> IsSet(changes, c))
  }

  lemma SetShows(notFlags: set<char>, flags: seq<char>, changes: seq<Change>, c: Change)
    requires Shows(flags, changes)
    ensures Shows(SetFlag(notFlags, flags, c), changes + Qualified(notFlags, [c]))
  {
    FewFlags(flags);
    assert [c][..0] == [];
    if Qualifies(notFlags, c) {
      assert Qualified(notFlags, [c]) == [c];
      assert (changes + [c])[..|changes|] == changes;
    } else {
      assert changes + [] == changes;
    }
  }

  lemma QualifiedNext(notFlags: set<char>, changes: seq<Change>, i: nat)
    requires i < |changes|
    ensures Qualified(notFlags, changes[..i + 1]) == Qualified(notFlags, changes[..i]) +
            Qualified(notFlags, [changes[i]])
  {
    assert changes[..i + 1][..i] == changes[..i];
    assert [changes[i]][..0] == [];
  }

  /** Applies the changes one after the other. */
  method ApplyAll(notFlags: set<char>, flags0: seq<char>, changes: seq<Change>, ghost before: seq<Change>)
    returns (flags: seq<char>)
    requires Shows(flags0, before)
    ensures Shows(flags, before + Qualified(notFlags, changes))
  {
    hide Shows, Qualified, SetFlag;
    flags := flags0;
    assert changes[..0] == [] && before + Qualified(notFlags, []) == before by {
      QualifiedNone(notFlags);
    }
    for i := 0 to |changes|
      invariant Shows(flags, before + Qualified(notFlags, changes[..i]))
    {
      SetShows(notFlags, flags, before + Qualified(notFlags, changes[..i]), changes[i]);
      QualifiedNext(notFlags, changes, i);
      assert before + (Qualified(notFlags, changes[..i]) + Qualified(notFlags, [changes[i]])) ==
             before + Qualified(notFlags, changes[..i]) + Qualified(notFlags, [changes[i]]);
      flags := SetFlag(notFlags, flags, changes[i]);
    }
    assert changes[..|changes|] == changes;
  }

  lemma QualifiedNone(notFlags: set<char>)
    ensures Qualified(notFlags, []) == []
  {
  }

  /** The changes a string of letters and signs asks for. */
  function ChangesOf(letters: string, plus: bool): seq<Change> {
    if letters == "" then []
    else if letters[0] == '+' then ChangesOf(letters[1..], true)
    else if letters[0] == '-' then ChangesOf(letters[1..], false)
    else [Change(plus, letters[0])] + ChangesOf(letters[1..], plus)
  }

  predicate IsSign(c: char) {
    c == '+' || c == '-'
  }

  function IsLetter(): char -> bool {
    (c: char) => !IsSign(c)
  }

  /** Every letter that is no sign asks for one change, in its place among
      the letters, and the last sign before it says which. */
  lemma {:induction false} ChangeAt(letters: string, plus: bool, i: nat)
    requires i < |letters| && !IsSign(letters[i])
    ensures |ChangesOf(letters, plus)| == |Filter(letters, IsLetter())|
    ensures
      var n := |Filter(letters[..i], IsLetter())|;
      var changes := ChangesOf(letters, plus);
      n < |changes| && changes[n].letter == letters[i] && LastSign(letters, i, plus, changes[n].plus)
  {
    hide Filter, LastSign, ChangesOf;
    var rest := letters[1..];
    var sign := if IsSign(letters[0]) then letters[0] == '+' else plus;
    LettersSplit(letters, plus);
    ChangesNext(letters, plus);
    if i > 0 {
      ChangeAt(rest, sign, i - 1);
      LettersBefore(letters, i);
      LastSignLater(letters, i, plus, ChangesOf(rest, sign)[|Filter(rest[..i - 1], IsLetter())|].plus);
    } else {
      FilterAll(letters[..0], IsLetter());
      LastSignNone(letters, plus);
    }
  }

  lemma ChangesNext(letters: string, plus: bool)
    requires letters != ""
    ensures ChangesOf(letters, plus) ==
            if IsSign(letters[0]) then ChangesOf(letters[1..], letters[0] == '+')
            else [Change(plus, letters[0])] + ChangesOf(letters[1..], plus)
  {
  }

  lemma LettersBefore(letters: string, i: nat)
    requires 0 < i < |letters|
    ensures |Filter(letters[..i], IsLetter())| ==
            |Filter(letters[1..][..i - 1], IsLetter())| + if IsSign(letters[0]) then 0 else 1
  {
    hide Filter;
    var rest := letters[1..];
    assert letters[..i] == [letters[0]] + rest[..i - 1];
    FilterSplit([letters[0]], rest[..i - 1], IsLetter());
    FilterAll([letters[0]], IsLetter());
  }

  lemma LastSignNone(letters: string, plus: bool)
    ensures LastSign(letters, 0, plus, plus)
  {
  }

  /** `sign` says which way the last sign before place `i` points, and `plus`
      where there is none. */
  ghost predicate LastSign(letters: string, i: nat, plus: bool, sign: bool)
    requires i <= |letters|
  {
    && ((forall j :: 0 <= j < i ==> !IsSign(letters[j])) ==> sign == plus)
    && forall j :: 0 <= j < i && IsSign(letters[j]) && (forall k :: j < k < i ==> !IsSign(letters[k])) ==>
         sign == (letters[j] == '+')
  }

  lemma LastSignLater(letters: string, i: nat, plus: bool, sign: bool)
    requires 0 < i <= |letters|
    requires LastSign(letters[1..], i - 1, if IsSign(letters[0]) then letters[0] == '+' else plus, sign)
    ensures LastSign(letters, i, plus, sign)
  {
    var rest := letters[1..];
    assert forall j :: 0 < j < |letters| ==> letters[j] == rest[j - 1];
    forall j | 0 <= j < i && IsSign(letters[j]) && forall k :: j < k < i ==> !IsSign(letters[k])
      ensures sign == (letters[j] == '+')
    {
      assert forall k :: j < k + 1 < i ==> rest[k] == letters[k + 1];
    }
  }

  lemma LettersSplit(letters: string, plus: bool)
    ensures |ChangesOf(letters, plus)| == |Filter(letters, IsLetter())|
    decreases |letters|
  {
    hide Filter;
    if letters == "" {
      FilterAll(letters, IsLetter());
    } else {
      var rest := letters[1..];
      assert letters == [letters[0]] + rest;
      FilterSplit([letters[0]], rest, IsLetter());
      FilterAll([letters[0]], IsLetter());
      LettersSplit(rest, if IsSign(letters[0]) then letters[0] == '+' else plus);
    }
  }

  /** A letter is set when it is one the server may list as a flag and the
      last change of it sets it. */
  lemma {:induction false} QualifiedSets(notFlags: set<char>, changes: seq<Change>, letter: char)
    ensures IsSet(Qualified(notFlags, changes), letter) <==>
              && ('a' <= letter <= 'z' || 'A' <= letter <= 'Z') && letter !in notFlags
              && exists i :: 0 <= i < |changes| && changes[i] == Change(true, letter) &&
                             forall j :: i < j < |changes| ==> changes[j].letter != letter
  {
    if changes != [] {
      var front, last := changes[..|changes| - 1], changes[|changes| - 1];
      QualifiedSets(notFlags, front, letter);
      var before := Qualified(notFlags, front);
      assert (before + [last])[..|before|] == before;
      assert before + [] == before;
      if last.letter == letter {
        assert changes[|changes| - 1] == last;
      } else {
        assert forall i :: 0 <= i < |front| ==> front[i] == changes[i];
      }
    }
  }

  // ---------- Channels and queries ----------

  ghost predicate Filed(channels: map<string, Tracked>, m: CaseMapping) {
    forall k :: k in channels ==> Fold(m, channels[k].name) == k
  }

  /** Every queued name is the current spelling of a distinct channel. */
  ghost predicate Queued(pending: seq<string>, channels: map<string, Tracked>, m: CaseMapping) {
    (forall q :: q in pending ==> Fold(m, q) in channels && channels[Fold(m, q)].name == q) && Distinct(pending)
  }

  lemma JoinedKeeps(channels: map<string, Tracked>, m: CaseMapping, since: map<string, seq<Change>>, channel: string)
    requires Filed(channels, m) && Shown(channels, since)
    ensures
      var key := Fold(m, channel);
      var c := channels[key := Tracked(channel, None)];
      Filed(c, m) && Shown(c, since)
  {
    hide Fold, Shows;
  }

  lemma QueueJoined(pending: seq<string>, channels: map<string, Tracked>, m: CaseMapping, channel: string)
    requires Queued(pending, channels, m)
    ensures
      var key := Fold(m, channel);
      Queued(Filter(pending, OtherName(m, key)) + [channel], channels[key := Tracked(channel, None)], m)
  {
    hide Fold, Filter, Distinct;
    FilterDistinct(pending, OtherName(m, Fold(m, channel)));
    AppendDistinct(Filter(pending, OtherName(m, Fold(m, channel))), channel);
  }

  lemma LeftKeeps(pending: seq<string>, channels: map<string, Tracked>, m: CaseMapping, since: map<string, seq<Change>>,
                  key: string)
    requires Filed(channels, m) && Queued(pending, channels, m) && Shown(channels, since)
    ensures
      var c := channels - {key};
      Filed(c, m) && Queued(Filter(pending, OtherName(m, key)), c, m) && Shown(c, since)
  {
    hide Fold, Shows, Filter, Distinct;
    FilterDistinct(pending, OtherName(m, key));
  }

  lemma CurrentKeeps(pending: seq<string>, before: map<string, Tracked>, m0: CaseMapping,
                     channels: map<string, Tracked>, m: CaseMapping)
    requires Queued(pending, before, m0)
    ensures Queued(Filter(pending, IsCurrent(channels, m)), channels, m)
  {
    hide Fold, Filter, Distinct;
    FilterDistinct(pending, IsCurrent(channels, m));
  }

  lemma RefiledKeeps(channels: map<string, Tracked>, m: CaseMapping, changes: map<string, seq<Change>>,
                     since: map<string, seq<Change>>, k: string, t: Tracked)
    requires Filed(channels, m) && Shown(channels, changes)
    requires t.flags.Some? ==> k in since && Shows(t.flags.value, since[k])
    ensures
      var key := Fold(m, t.name);
      var c := channels[key := if key in channels then channels[key].(flags := None) else t];
      Filed(c, m) && Shown(c, if k in since then changes[key := since[k]] else changes)
  {
    hide Fold, Shows;
  }

  ghost predicate Shown(channels: map<string, Tracked>, since: map<string, seq<Change>>) {
    forall k :: k in channels && channels[k].flags.Some? ==> k in since && Shows(channels[k].flags.value, since[k])
  }

  type Query = (string, int)

  /** The names, and the queries, that do not fold to `key`. */
  function OtherName(m: CaseMapping, key: string): string -> bool {
    (q: string) => Fold(m, q) != key
  }

  function OtherQuery(m: CaseMapping, key: string): Query -> bool {
    (q: Query) => Fold(m, q.0) != key
  }

  function Unexpired(now: int): Query -> bool {
    (q: Query) => q.1 > now
  }

  function Earliest(queries: seq<Query>): (d: int)
    requires queries != []
    ensures exists q :: q in queries && q.1 == d
    ensures forall q :: q in queries ==> d <= q.1
  {
    if |queries| == 1 then
      assert queries[0] in queries;
      queries[0].1
    else
      var rest := Earliest(queries[1..]);
      assert queries[0] in queries;
      if queries[0].1 < rest then queries[0].1 else rest
  }

  class ChannelModes {
    var notFlags: set<char>
    /** The channels we are in, by folded name. */
    var channels: map<string, Tracked>
    /** Channels whose modes are still to be asked, oldest first. */
    var pending: seq<string>
    /** Queries not yet answered, with the time they give up. */
    var inFlight: seq<Query>
    var warned: bool
    /** How the server compares names, and the changes since each reply. */
    ghost var mapping: CaseMapping
    ghost var since: map<string, seq<Change>>

    ghost predicate Valid()
      reads this
    {
      && |channels| <= MAX_TRACKED && |inFlight| <= MAX_IN_FLIGHT
      && Filed(channels, mapping) && Queued(pending, channels, mapping) && Shown(channels, since)
    }

    constructor ()
      ensures Valid() && channels == map[] && pending == [] && inFlight == [] && mapping == Rfc1459 && !warned
      ensures notFlags == {'b', 'e', 'I', 'o', 'v'}
    {
      notFlags := {'b', 'e', 'I', 'o', 'v'};
      channels, pending, inFlight, warned := map[], [], [], false;
      mapping, since := Rfc1459, map[];
    }

    /** The letters that are not channel flags, as the server announced. */
    method Isupport(listModes: string, prefixModes: string)
      requires Valid()
      modifies this`notFlags
      ensures Valid() && forall c :: c in notFlags <==> c in listModes || c in prefixModes
    {
      notFlags := (set c | c in listModes) + set c | c in prefixModes;
    }

    /** The channel's flags after a reply, or a change to a channel whose
        flags are known. */
    method Observe(line: Line, m: CaseMapping, replayed: bool) returns (r: Option<seq<char>>)
      requires Valid() && m == mapping
      modifies this`channels, this`inFlight, this`since
      ensures Valid() && channels.Keys == old(channels).Keys
      ensures replayed || line.OtherLine? ==> r.None? && channels == old(channels) && inFlight == old(inFlight)
      ensures r.Some? ==>
                var key := Fold(mapping, line.channel);
                && key in channels && channels == old(channels)[key := old(channels)[key].(flags := r)]
                && since == old(since)[key :=
                     if line.ModeIs? then Qualified(notFlags, ChangesOf(line.letters, true))
                     else (if key in old(since) then old(since)[key] else []) + Qualified(notFlags, line.changes)]
      ensures !replayed && line.ModeIs? ==>
                (r.Some? <==> Fold(mapping, line.channel) in channels) &&
                inFlight == Filter(old(inFlight), OtherQuery(mapping, Fold(mapping, line.channel)))
      ensures !replayed && line.Mode? ==>
                (r.Some? <==>
                   Fold(mapping, line.channel) in old(channels) &&
                   old(channels)[Fold(mapping, line.channel)].flags.Some?)
      ensures r.None? ==> channels == old(channels) && since == old(since)
    {
      hide Fold, Shows, Qualified, Filed, Queued, Shown;
      if replayed {
        return None;
      }
      match line {
        case ModeIs(channel, letters) =>
          var key := Fold(m, channel);
          inFlight := Filter(inFlight, OtherQuery(m, key));
          if key !in channels {
            return None;
          }
          NoFlags();
          var flags := ApplyAll(notFlags, [], ChangesOf(letters, true), []);
          assert [] + Qualified(notFlags, ChangesOf(letters, true)) == Qualified(notFlags, ChangesOf(letters, true));
          Store(key, flags, Qualified(notFlags, ChangesOf(letters, true)));
          return Some(flags);
        case Mode(channel, changes) =>
          var key := Fold(m, channel);
          if key !in channels || channels[key].flags.None? {
            return None;
          }
          ShownAt(channels, since, key);
          var flags := ApplyAll(notFlags, channels[key].flags.value, changes, since[key]);
          Store(key, flags, since[key] + Qualified(notFlags, changes));
          return Some(flags);
        case OtherLine =>
          return None;
      }
    }

    method Store(key: string, flags: seq<char>, ghost changes: seq<Change>)
      requires Valid() && key in channels && Shows(flags, changes)
      modifies this`channels, this`since
      ensures Valid() && channels == old(channels)[key := old(channels)[key].(flags := Some(flags))]
      ensures since == old(since)[key := changes]
    {
      hide Fold, Shows;
      channels := channels[key := channels[key].(flags := Some(flags))];
      since := since[key := changes];
      SizeOfUpdate(old(channels), key, channels[key]);
    }

    /** Our own join starts from unknown modes and queues the query, unless
        too many channels are tracked. */
    method Joined(channel: string, m: CaseMapping) returns (limited: bool)
      requires Valid() && m == mapping
      modifies this`channels, this`pending, this`warned
      ensures Valid()
      ensures
        var key := Fold(mapping, channel);
        if key !in old(channels) && |old(channels)| == MAX_TRACKED
        then channels == old(channels) && pending == old(pending) && warned && (limited <==> !old(warned))
        else channels == old(channels)[key := Tracked(channel, None)] &&
             pending == Filter(old(pending), OtherName(mapping, key)) + [channel] && !limited
    {
      hide Fold, Filed, Queued, Shown, Filter;
      JoinedKeeps(channels, m, since, channel);
      QueueJoined(pending, channels, m, channel);
      var key := Fold(m, channel);
      if key !in channels && |channels| >= MAX_TRACKED {
        limited := !warned;
        warned := true;
        return;
      }
      limited := false;
      pending := Filter(pending, OtherName(m, key)) + [channel];
      SizeOfUpdate(channels, key, Tracked(channel, None));
      channels := channels[key := Tracked(channel, None)];
    }

    /** A part or kick ends tracking. */
    method Left(channel: string, m: CaseMapping)
      requires Valid() && m == mapping
      modifies this`channels, this`pending, this`inFlight
      ensures Valid() && channels == old(channels) - {Fold(mapping, channel)}
      ensures pending == Filter(old(pending), OtherName(mapping, Fold(mapping, channel)))
      ensures inFlight == Filter(old(inFlight), OtherQuery(mapping, Fold(mapping, channel)))
    {
      hide Fold, Filed, Queued, Shown, Filter;
      var key := Fold(m, channel);
      LeftKeeps(pending, channels, m, since, key);
      SizeOfRemoval(channels, key);
      channels := channels - {key};
      pending := Filter(pending, OtherName(m, key));
      inFlight := Filter(inFlight, OtherQuery(m, key));
    }

    /** The server changed its case mapping: the names are folded again. Names
        that now collide keep one entry, with unknown modes. */
    method SetCasemapping(m: CaseMapping)
      requires Valid()
      modifies this`channels, this`pending, this`inFlight, this`mapping, this`since
      ensures Valid() && mapping == m && Refolded(old(channels), old(channels).Keys, m, channels)
      ensures pending == Filter(old(pending), IsCurrent(channels, m)) &&
              inFlight == Filter(old(inFlight), AsksCurrent(channels, m))
    {
      hide Fold, Filed, Queued, Shown, Shows, Refolded, Filter;
      ghost var before := channels;
      ghost var changes := Refold(m);
      CurrentKeeps(pending, before, mapping, channels, m);
      mapping := m;
      since := changes;
      pending := Filter(pending, IsCurrent(channels, m));
      inFlight := Filter(inFlight, AsksCurrent(channels, m));
    }

    /** Files every tracked channel anew under its name's fold. */
    method Refold(m: CaseMapping) returns (ghost changes: map<string, seq<Change>>)
      requires Filed(channels, mapping) && Shown(channels, since)
      modifies this`channels
      ensures Filed(channels, m) && Shown(channels, changes) && |channels| <= |old(channels)|
      ensures Refolded(old(channels), old(channels).Keys, m, channels)
    {
      hide Fold, Filed, Queued, Shown, Shows, Refolded;
      ghost var before := channels;
      changes := map[];
      var rest := channels;
      channels := map[];
      RefoldedNone(before, m);
      assert before.Keys - rest.Keys == {};
      while rest.Keys != {}
        invariant rest.Keys <= before.Keys && forall k :: k in rest ==> rest[k] == before[k]
        invariant Refolded(before, before.Keys - rest.Keys, m, channels) && Filed(channels, m) &&
                  Shown(channels, changes)
        invariant |channels| <= |before| - |rest|
        modifies this`channels
        decreases rest.Keys
      {
        var k :| k in rest.Keys;
        var key := Fold(m, rest[k].name);
        RefoldedNext(before, before.Keys - rest.Keys, m, channels, k);
        ShownAt(before, since, k);
        RefiledKeeps(channels, m, changes, since, k, rest[k]);
        SizeOfUpdate(channels, key, if key in channels then channels[key].(flags := None) else rest[k]);
        changes := if k in since then changes[key := since[k]] else changes;
        channels := channels[key := if key in channels then channels[key].(flags := None) else rest[k]];
        assert before.Keys - rest.Keys + {k} == before.Keys - (rest.Keys - {k});
        SizeOfRemoval(rest, k);
        rest := rest - {k};
      }
      assert before.Keys - rest.Keys == before.Keys;
    }

    /** The queries that go out now: as many as places are free. A queue left
        non-empty has a deadline, and it lies ahead. */
    method TakeQueries(now: int) returns (queries: seq<string>)
      requires Valid()
      modifies this`pending, this`inFlight
      ensures Valid() && old(pending) == queries + pending
      ensures inFlight == Filter(old(inFlight), Unexpired(now)) +
              seq(|queries|, i requires 0 <= i < |queries| => (queries[i], now + QUERY_TIMEOUT))
      ensures pending != [] ==> |inFlight| == MAX_IN_FLIGHT
      ensures pending != [] ==> NextDeadline().Some? && NextDeadline().value > now
    {
      hide Fold, Shown, Filed;
      inFlight := Filter(inFlight, Unexpired(now));
      var free := MAX_IN_FLIGHT - |inFlight|;
      var count := if free < |pending| then free else |pending|;
      queries := pending[..count];
      pending := pending[count..];
      inFlight := inFlight + seq(|queries|, i requires 0 <= i < |queries| => (queries[i], now + QUERY_TIMEOUT));
      assert forall q :: q in inFlight ==> q.1 > now;
    }

    /** When a waiting query may go out for want of an answer. */
    function NextDeadline(): (d: Option<int>)
      reads this`pending, this`inFlight
      ensures d.Some? <==> pending != [] && inFlight != []
      ensures d.Some? ==> (exists q :: q in inFlight && q.1 == d.value) && forall q :: q in inFlight ==> d.value <= q.1
    {
      if pending == [] || inFlight == [] then None else Some(Earliest(inFlight))
    }
  }

  /** The name is its channel's own. */
  predicate Current(channels: map<string, Tracked>, m: CaseMapping, name: string) {
    Fold(m, name) in channels && channels[Fold(m, name)].name == name
  }

  function IsCurrent(channels: map<string, Tracked>, m: CaseMapping): string -> bool {
    (q: string) => Current(channels, m, q)
  }

  function AsksCurrent(channels: map<string, Tracked>, m: CaseMapping): Query -> bool {
    (q: Query) => Current(channels, m, q.0)
  }

  /** The channels `done` of `before` folded under `m`: each is there under
      some name with its fold, unchanged when no other one folds like it and
      with unknown modes otherwise. */
  ghost predicate Refolded(before: map<string, Tracked>, done: set<string>, m: CaseMapping,
                           after: map<string, Tracked>) {
    && done <= before.Keys
    && (forall k :: k in done ==> Fold(m, before[k].name) in after)
    && (forall key ::
          key in after ==> exists k :: k in done && Fold(m, before[k].name) == key && after[key].name == before[k].name)
    && (forall k ::
          k in done && (forall j :: j in done && j != k ==> Fold(m, before[j].name) != Fold(m, before[k].name)) ==>
         after[Fold(m, before[k].name)] == before[k])
    && forall j, k :: j in done && k in done && j != k && Fold(m, before[j].name) == Fold(m, before[k].name) ==>
         after[Fold(m, before[k].name)].flags.None?
  }

  lemma RefoldedNone(before: map<string, Tracked>, m: CaseMapping)
    ensures Refolded(before, {}, m, map[]) && Filed(map[], m) && Shown(map[], map[])
  {
  }

  lemma RefoldedNext(before: map<string, Tracked>, done: set<string>, m: CaseMapping, after: map<string, Tracked>,
                     k: string)
    requires Refolded(before, done, m, after) && k in before && k !in done
    ensures
      var key := Fold(m, before[k].name);
      Refolded(before, done + {k}, m, after[key := if key in after then after[key].(flags := None) else before[k]])
  {
    hide Fold;
  }

  lemma NoFlags()
    ensures Shows([], [])
  {
  }

  lemma ShownAt(channels: map<string, Tracked>, since: map<string, seq<Change>>, key: string)
    requires Shown(channels, since) && key in channels
    ensures channels[key].flags.Some? ==> key in since && Shows(channels[key].flags.value, since[key])
  {
  }
}
