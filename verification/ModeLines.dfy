/** Privilege changes for several members, split into `MODE` lines. */
module ModeLines {
  import opened Text
  import opened Names
  import opened Lists
  import opened ChannelModes

  /** Modes per line when the server announces no limit (section 3.2.3 of
      RFC 2812), and the most even when it announces more. */
  const DEFAULT_MODES_PER_LINE := 3
  const MAX_MODES_PER_LINE := 12
  const MAX_PARAMETER_BYTES := 350

  datatype MemberMode = Op | Deop | Voice | Devoice {
    function Sign(): char { if Op? || Voice? then '+' else '-' }
    function Flag(): char { if Op? || Deop? then 'o' else 'v' }
  }

  function EffectiveLimit(announced: nat): (n: nat)
    ensures 1 <= n <= MAX_MODES_PER_LINE
    ensures announced == 0 ==> n == DEFAULT_MODES_PER_LINE
    ensures 0 < announced <= MAX_MODES_PER_LINE ==> n == announced
    ensures announced > MAX_MODES_PER_LINE ==> n == MAX_MODES_PER_LINE
  {
    if announced == 0 then DEFAULT_MODES_PER_LINE
    else if announced < MAX_MODES_PER_LINE then announced else MAX_MODES_PER_LINE
  }

  // ---------- Distinct nicknames ----------

  predicate Seen(names: seq<string>, name: string) {
    exists i :: 0 <= i < |names| && Same(Rfc1459, names[i], name)
  }

  /** The names whose key no earlier name has. */
  ghost function FirstOfEach(names: seq<string>): seq<string> {
    if names == [] then []
    else
      var front, last := names[..|names| - 1], names[|names| - 1];
      FirstOfEach(front) + if Seen(front, last) then [] else [last]
  }

  lemma SeenNext(names: seq<string>, last: string, name: string)
    ensures Seen(names + [last], name) <==> Seen(names, name) || Same(Rfc1459, last, name)
  {
    var next := names + [last];
    if Seen(names, name) {
      var i :| 0 <= i < |names| && Same(Rfc1459, names[i], name);
      assert next[i] == names[i];
    }
    assert next[|names|] == last;
  }

  /** Every name appears, under its key. */
  lemma {:induction false} SeenInFirst(names: seq<string>, name: string)
    ensures Seen(FirstOfEach(names), name) <==> Seen(names, name)
  {
    hide Fold;
    if names != [] {
      var front, last := names[..|names| - 1], names[|names| - 1];
      assert names == front + [last];
      SeenInFirst(front, name);
      SeenNext(front, last, name);
      SeenNext(FirstOfEach(front), last, name);
      if Seen(front, last) && Same(Rfc1459, last, name) {
        var i :| 0 <= i < |front| && Same(Rfc1459, front[i], last);
        assert Same(Rfc1459, front[i], name);
      }
      assert FirstOfEach(front) + [] == FirstOfEach(front);
    }
  }

  /** No two of them share a key. */
  lemma {:induction false} FirstOfEachIsDistinct(names: seq<string>)
    ensures DistinctBy(FirstOfEach(names), NicknameKey)
  {
    hide Fold;
    if names != [] {
      var front, last := names[..|names| - 1], names[|names| - 1];
      FirstOfEachIsDistinct(front);
      SeenInFirst(front, last);
      var before := FirstOfEach(front);
      assert !Seen(front, last) ==> forall i :: 0 <= i < |before| ==> !Same(Rfc1459, before[i], last);
    }
  }

  /** They are the names that no earlier one is the same as, and more names
      change nothing about the first ones. */
  lemma {:induction false} FirstOfEachMeans(names: seq<string>, name: string)
    ensures name in FirstOfEach(names) <==>
              exists i :: 0 <= i < |names| && names[i] == name && !Seen(names[..i], name)
  {
    hide Seen;
    if names != [] {
      var front, last := names[..|names| - 1], names[|names| - 1];
      FirstOfEachMeans(front, name);
      assert forall i :: 0 <= i < |front| ==> front[i] == names[i] && front[..i] == names[..i];
      assert names[|front|] == last && names[..|front|] == front;
    }
  }

  lemma {:induction false} FirstOfEachGrows(names: seq<string>, more: seq<string>)
    ensures FirstOfEach(names) <= FirstOfEach(names + more)
  {
    if more == [] {
      assert names + more == names;
    } else {
      var front := more[..|more| - 1];
      FirstOfEachGrows(names, front);
      assert (names + more)[..|names + more| - 1] == names + front;
    }
  }

  // ---------- Splits ----------

  /** The bytes the parameters of a line take. */
  function Size(group: seq<string>): nat {
    if group == [] then 0 else Size(group[..|group| - 1]) + Bytes(group[|group| - 1]) + 1
  }

  /** Within both limits, or one overlong nickname alone. */
  ghost predicate Fits(group: seq<string>, limit: nat) {
    |group| <= limit && (Size(group) <= MAX_PARAMETER_BYTES || |group| == 1)
  }

  ghost function Flatten(groups: seq<seq<string>>): seq<string> {
    if groups == [] then [] else Flatten(groups[..|groups| - 1]) + groups[|groups| - 1]
  }

  ghost predicate AllFit(groups: seq<seq<string>>, limit: nat) {
    forall i :: 0 <= i < |groups| ==> Fits(groups[i], limit)
  }

  /** No group could take the first name of the next one. */
  ghost predicate Filled(groups: seq<seq<string>>, limit: nat) {
    (forall i :: 0 <= i < |groups| ==> groups[i] != []) &&
    forall i :: 0 < i < |groups| ==> !Fits(groups[i - 1] + [groups[i][0]], limit)
  }

  /** Where group `i` starts. */
  ghost function Start(groups: seq<seq<string>>, i: nat): nat
    requires i <= |groups|
  {
    |Flatten(groups[..i])|
  }

  lemma {:induction false} GroupAt(groups: seq<seq<string>>, i: nat)
    requires i < |groups|
    ensures Start(groups, i + 1) == Start(groups, i) + |groups[i]| <= |Flatten(groups)|
    ensures groups[i] == Flatten(groups)[Start(groups, i)..Start(groups, i + 1)]
    decreases |groups|
  {
    var front := groups[..|groups| - 1];
    if i < |groups| - 1 {
      GroupAt(front, i);
      assert front[..i] == groups[..i] && front[..i + 1] == groups[..i + 1];
    } else {
      assert groups[..i + 1] == groups && groups[..i] == front;
    }
  }

  lemma {:induction false} SizePart(names: seq<string>, a: nat, b: nat, d: nat, e: nat)
    requires a <= b <= d <= e <= |names|
    ensures Size(names[b..d]) <= Size(names[a..e])
    decreases e - d, b - a, d
  {
    if d < e {
      SizePart(names, a, b, d, e - 1);
      assert names[a..e][..e - a - 1] == names[a..e - 1];
    } else if a < b && b < d {
      SizePart(names, a, b, d - 1, d - 1);
      assert names[a..d][..d - a - 1] == names[a..d - 1];
      assert names[b..d][..d - b - 1] == names[b..d - 1];
    }
  }

  /** A filled split stays ahead of every other split of the same names. */
  lemma {:induction false} StaysAhead(groups: seq<seq<string>>, other: seq<seq<string>>, limit: nat, i: nat)
    requires Filled(groups, limit) && AllFit(other, limit) && Flatten(groups) == Flatten(other)
    requires i <= |groups| && i <= |other|
    ensures Start(other, i) <= Start(groups, i)
  {
    hide Flatten, Size, Bytes;
    NoneBefore(groups);
    NoneBefore(other);
    if i > 0 {
      StaysAhead(groups, other, limit, i - 1);
      GroupAt(groups, i - 1);
      GroupAt(other, i - 1);
      var names := Flatten(groups);
      if Start(other, i) > Start(groups, i) {
        AllOf(groups);
        assert i < |groups|;
        GroupAt(groups, i);
        var (a, b, d, e) := (Start(other, i - 1), Start(groups, i - 1), Start(groups, i), Start(other, i));
        assert names[b..d + 1] == groups[i - 1] + [groups[i][0]];
        SizePart(names, a, b, d + 1, e);
      }
    }
  }

  lemma NoneBefore(groups: seq<seq<string>>)
    ensures Start(groups, 0) == 0
  {
  }

  lemma AllOf(groups: seq<seq<string>>)
    ensures Start(groups, |groups|) == |Flatten(groups)|
  {
    assert groups[..|groups|] == groups;
  }

  /** No order-preserving split under the limits has fewer lines. */
  lemma FilledIsShortest(groups: seq<seq<string>>, other: seq<seq<string>>, limit: nat)
    requires Filled(groups, limit) && AllFit(other, limit) && Flatten(groups) == Flatten(other)
    ensures |groups| <= |other|
  {
    if |other| < |groups| {
      StaysAhead(groups, other, limit, |other|);
      AllOf(other);
      GroupAt(groups, |other|);
    }
  }

  // ---------- The lines ----------

  function Repeat(c: char, n: nat): string {
    seq(n, _ => c)
  }

  /** The parameters of one `MODE` line. */
  function LineOf(channel: string, mode: MemberMode, group: seq<string>): seq<string> {
    [channel, [mode.Sign()] + Repeat(mode.Flag(), |group|)] + group
  }

  /** The line's flags, read one by one, ask for the change of each name. */
  lemma LineAsks(channel: string, mode: MemberMode, group: seq<string>, plus: bool)
    ensures
      var line := LineOf(channel, mode, group);
      && line[0] == channel && line[2..] == group
      && ChangesOf(line[1], plus) ==
           seq(|group|, _ => Change(mode in {Op, Voice}, if mode in {Op, Deop} then 'o' else 'v'))
  {
    RepeatAsks(mode.Flag(), |group|, mode.Sign() == '+');
  }

  lemma {:induction false} RepeatAsks(c: char, n: nat, plus: bool)
    requires c != '+' && c != '-'
    ensures ChangesOf(Repeat(c, n), plus) == seq(n, _ => Change(plus, c))
  {
    if n > 0 {
      RepeatAsks(c, n - 1, plus);
      assert Repeat(c, n)[1..] == Repeat(c, n - 1);
    }
  }

  function LinesOf(channel: string, mode: MemberMode, groups: seq<seq<string>>): seq<seq<string>> {
    seq(|groups|, i requires 0 <= i < |groups| => LineOf(channel, mode, groups[i]))
  }

  /** The lines carry these names in order, each line some of them with as
      many flags, within the limits. */
  ghost predicate Carries(channel: string, mode: MemberMode, lines: seq<seq<string>>, names: seq<string>, limit: nat) {
    exists groups ::
      && lines == LinesOf(channel, mode, groups) && Flatten(groups) == names
      && AllFit(groups, limit) && forall g :: g in groups ==> g != []
  }

  /** The nicknames, each once, in as few lines as the limits allow. */
  method ModeLines(channel: string, mode: MemberMode, nicknames: seq<string>, perLine: nat)
    returns (lines: seq<seq<string>>)
    ensures Carries(channel, mode, lines, FirstOfEach(nicknames), if perLine == 0 then 1 else perLine)
    ensures forall other ::
              Flatten(other) == FirstOfEach(nicknames) && AllFit(other, if perLine == 0 then 1 else perLine) ==>
              |lines| <= |other|
  {
    hide Filled, AllFit, Flatten, LinesOf, Size, Bytes, FirstOfEach, Fits, With, Carries;
    var limit := if perLine == 0 then 1 else perLine;
    var unique := DistinctNames(nicknames);
    lines := [];
    ghost var groups := [];
    var group, bytes := [], 0;
    NoGroups(channel, mode, limit);
    for i := 0 to |unique|
      invariant lines == LinesOf(channel, mode, groups) && bytes == Size(group) && Fits(group, limit)
      invariant Flatten(groups) + group == unique[..i] && (groups != [] ==> group != []) && |group| <= limit
      invariant AllFit(groups, limit) && Filled(With(groups, group), limit)
    {
      var name := unique[i];
      Grow(groups, group, name, limit);
      if |group| == limit || bytes + Bytes(name) + 1 > MAX_PARAMETER_BYTES {
        FlushKeeps(groups, group, limit);
        lines := Flush(channel, mode, group, lines, groups);
        groups := With(groups, group);
        group, bytes := [], 0;
        assert group + [name] == [name] && Flatten(groups) + group == Flatten(groups);
      }
      assert unique[..i + 1] == unique[..i] + [name];
      bytes := bytes + Bytes(name) + 1;
      group := group + [name];
    }
    FlushKeeps(groups, group, limit);
    lines := Flush(channel, mode, group, lines, groups);
    groups := With(groups, group);
    assert unique[..|unique|] == unique;
    FilledLines(channel, mode, groups, limit);
  }

  /** The groups with the open one. */
  ghost function With(groups: seq<seq<string>>, group: seq<string>): seq<seq<string>> {
    if group == [] then groups else groups + [group]
  }

  lemma NoGroups(channel: string, mode: MemberMode, limit: nat)
    requires limit > 0
    ensures LinesOf(channel, mode, []) == [] && Size([]) == 0 && Fits([], limit)
    ensures Flatten([]) == [] && AllFit([], limit) && Filled(With([], []), limit)
  {
  }

  /** A filled split gives as few lines as any. */
  lemma FilledLines(channel: string, mode: MemberMode, groups: seq<seq<string>>, limit: nat)
    requires Filled(groups, limit) && AllFit(groups, limit)
    ensures Carries(channel, mode, LinesOf(channel, mode, groups), Flatten(groups), limit)
    ensures forall other ::
              Flatten(other) == Flatten(groups) && AllFit(other, limit) ==> |LinesOf(channel, mode, groups)| <= |other|
  {
    hide Flatten, AllFit;
    assert forall g :: g in groups ==> g != [];
    forall other | Flatten(other) == Flatten(groups) && AllFit(other, limit) ensures |groups| <= |other| {
      FilledIsShortest(groups, other, limit);
    }
  }

  /** Where the next name goes: into the open group when that fits, else into
      a new one. */
  lemma Grow(groups: seq<seq<string>>, group: seq<string>, name: string, limit: nat)
    requires limit > 0 && Fits(group, limit) && Filled(With(groups, group), limit) && (groups != [] ==> group != [])
    ensures
      var full := |group| == limit || Size(group) + Bytes(name) + 1 > MAX_PARAMETER_BYTES;
      && Size(group + [name]) == Size(group) + Bytes(name) + 1 && Size([name]) == Bytes(name) + 1
      && (if full then Fits([name], limit) && Filled(With(With(groups, group), [name]), limit)
          else Fits(group + [name], limit) && Filled(With(groups, group + [name]), limit))
  {
    hide Bytes, Size, Filled;
    SizeNext(group, name);
    SizeNext([], name);
    assert [] + [name] == [name] && Size([]) == 0 by {
      SizeNone();
    }
    var full := |group| == limit || Size(group) + Bytes(name) + 1 > MAX_PARAMETER_BYTES;
    if full {
      FilledByNew(With(groups, group), name, limit);
    } else {
      FilledByName(groups, group, name, limit);
    }
  }

  lemma SizeNone()
    ensures Size([]) == 0
  {
  }

  lemma SizeNext(group: seq<string>, name: string)
    ensures Size(group + [name]) == Size(group) + Bytes(name) + 1
  {
    hide Bytes;
    assert (group + [name])[..|group|] == group;
  }

  lemma FilledByNew(groups: seq<seq<string>>, name: string, limit: nat)
    requires Filled(groups, limit) && (groups != [] ==> !Fits(groups[|groups| - 1] + [name], limit))
    ensures Filled(groups + [[name]], limit)
  {
    hide Size, Bytes;
  }

  lemma FilledByName(groups: seq<seq<string>>, group: seq<string>, name: string, limit: nat)
    requires Filled(With(groups, group), limit) && (groups != [] ==> group != [])
    ensures Filled(groups + [group + [name]], limit)
  {
    hide Fits;
    var (a, b) := (With(groups, group), groups + [group + [name]]);
    assert forall i :: 0 <= i < |groups| ==> b[i] == groups[i] == a[i];
    forall i | 0 < i < |b|
      ensures !Fits(b[i - 1] + [b[i][0]], limit)
    {
      assert b[i - 1] == a[i - 1] && b[i][0] == a[i][0];
    }
  }

  /** Ends the open line, if there is one. */
  method Flush(channel: string, mode: MemberMode, group: seq<string>, lines: seq<seq<string>>,
               ghost groups: seq<seq<string>>)
    returns (lines': seq<seq<string>>)
    requires lines == LinesOf(channel, mode, groups)
    ensures lines' == LinesOf(channel, mode, With(groups, group))
  {
    return if group == [] then lines else lines + [LineOf(channel, mode, group)];
  }

  lemma FlushKeeps(groups: seq<seq<string>>, group: seq<string>, limit: nat)
    requires AllFit(groups, limit) && Fits(group, limit)
    ensures AllFit(With(groups, group), limit) && Flatten(With(groups, group)) == Flatten(groups) + group
  {
    hide Fits;
  }

  method DistinctNames(nicknames: seq<string>) returns (unique: seq<string>)
    ensures unique == FirstOfEach(nicknames)
  {
    unique := [];
    for i := 0 to |nicknames|
      invariant unique == FirstOfEach(nicknames[..i])
    {
      assert nicknames[..i + 1][..i] == nicknames[..i];
      SeenInFirst(nicknames[..i], nicknames[i]);
      if !Seen(unique, nicknames[i]) {
        unique := unique + [nicknames[i]];
      }
    }
    assert nicknames[..|nicknames|] == nicknames;
  }
}
