/** The channel groups as the settings keep them: what is read back lists each
    channel once, which the channel tree relies on. */
module SavedGroups {
  import opened Text
  import opened Lists
  import opened Groups
  import opened Moves

  const MAX_NAME_BYTES := 512
  const MAX_GROUP_NAME_CHARS := 64

  datatype StoredMember = StoredMember(server: string, channel: string)
  datatype StoredGroup = StoredGroup(name: string, members: seq<StoredMember>)

  predicate IsControl(c: char) {
    c < ' ' || '\U{7F}' <= c <= '\U{9F}'
  }

  /** Whether a trimmed name is not damaged. */
  predicate UsableName(name: string) {
    name != "" && |name| <= MAX_GROUP_NAME_CHARS && forall i :: 0 <= i < |name| ==> !IsControl(name[i])
  }

  predicate Usable(m: StoredMember) {
    m.channel != "" && Bytes(m.channel) <= MAX_NAME_BYTES && Bytes(m.server) <= MAX_NAME_BYTES
  }

  /** The groups with a usable name, under the trimmed one. */
  function Named(groups: seq<StoredGroup>): (r: seq<StoredGroup>) {
    if groups == [] then []
    else
      var last := groups[|groups| - 1];
      Named(groups[..|groups| - 1]) + if UsableName(Trim(last.name)) then [last.(name := Trim(last.name))] else []
  }

  /** The usable members not seen before, each where it is first. */
  function Fresh(seen: set<StoredMember>, members: seq<StoredMember>): (r: seq<StoredMember>)
    ensures Distinct(r)
    ensures forall m :: m in r <==> m in members && Usable(m) && m !in seen
  {
    if members == [] then []
    else
      var front, last := members[..|members| - 1], members[|members| - 1];
      assert members == front + [last];
      var r := Fresh(seen, front);
      if Usable(last) && last !in seen && last !in front then r + [last] else r
  }

  /** The usable members of some groups. */
  function UsableIn(groups: seq<StoredGroup>): (r: set<StoredMember>)
    ensures forall m :: m in r <==> Usable(m) && exists i :: 0 <= i < |groups| && m in groups[i].members
  {
    if groups == [] then {}
    else
      var front, last := groups[..|groups| - 1], groups[|groups| - 1];
      assert groups == front + [last];
      UsableIn(front) + set m | m in last.members && Usable(m)
  }

  function Bounded<T>(s: seq<T>, n: nat): (r: seq<T>)
    ensures |r| <= n && r <= s && (|s| <= n ==> r == s)
  {
    if |s| <= n then s else s[..n]
  }

  /** What is kept of group `i`. */
  function KeptOf(groups: seq<StoredGroup>, i: nat): StoredGroup
    requires i < |groups|
  {
    StoredGroup(groups[i].name, Bounded(Fresh(UsableIn(groups[..i]), groups[i].members), MAX_GROUP_MEMBERS))
  }

  /** What a file's groups become: usable names, and of each group's members
      the usable ones no earlier place has. */
  method Sanitized(groups: seq<StoredGroup>) returns (r: seq<StoredGroup>)
    ensures
      var named := Bounded(Named(groups), MAX_GROUPS);
      |r| == |named| && forall i :: 0 <= i < |r| ==> r[i] == KeptOf(named, i)
  {
    hide Fresh, Named, UsableIn, Usable;
    var named := WithNames(groups);
    named := Bounded(named, MAX_GROUPS);
    var seen := {};
    r := [];
    NothingUsable();
    for i := 0 to |named|
      invariant |r| == i && forall k :: 0 <= k < i ==> r[k] == KeptOf(named, k)
      invariant seen == UsableIn(named[..i])
    {
      UsableNext(named, i);
      var members;
      members, seen := FirstPlaces(named[i].members, seen);
      r := r + [StoredGroup(named[i].name, Bounded(members, MAX_GROUP_MEMBERS))];
    }
  }

  method WithNames(groups: seq<StoredGroup>) returns (named: seq<StoredGroup>)
    ensures named == Named(groups)
  {
    hide UsableName, Trim;
    named := [];
    for i := 0 to |groups|
      invariant named == Named(groups[..i])
    {
      assert groups[..i + 1][..i] == groups[..i];
      var name := Trim(groups[i].name);
      if UsableName(name) {
        named := named + [groups[i].(name := name)];
      }
    }
    assert groups[..|groups|] == groups;
  }

  lemma NothingUsable()
    ensures forall groups: seq<StoredGroup> :: UsableIn(groups[..0]) == {}
  {
  }

  lemma UsableNext(groups: seq<StoredGroup>, i: nat)
    requires i < |groups|
    ensures UsableIn(groups[..i + 1]) == UsableIn(groups[..i]) + set m | m in groups[i].members && Usable(m)
  {
    hide Usable;
    assert groups[..i + 1][..i] == groups[..i];
  }

  lemma NothingFresh(before: set<StoredMember>)
    ensures Fresh(before, []) == []
  {
  }

  lemma FreshNext(before: set<StoredMember>, members: seq<StoredMember>, k: nat)
    requires k < |members|
    ensures
      var (kept, last) := (Fresh(before, members[..k]), members[k]);
      Fresh(before, members[..k + 1]) ==
      if Usable(last) && last !in before && last !in members[..k] then kept + [last] else kept
  {
    hide Usable;
    assert members[..k + 1][..k] == members[..k];
  }

  method FirstPlaces(members: seq<StoredMember>, before: set<StoredMember>)
    returns (kept: seq<StoredMember>, seen: set<StoredMember>)
    ensures kept == Fresh(before, members) && seen == before + set m | m in members && Usable(m)
  {
    hide Fresh, Usable;
    kept, seen := [], before;
    NothingFresh(before);
    assert members[..0] == [];
    for k := 0 to |members|
      invariant kept == Fresh(before, members[..k])
      invariant seen == before + set m | m in members[..k] && Usable(m)
    {
      FreshNext(before, members, k);
      assert members[..k + 1] == members[..k] + [members[k]];
      if Usable(members[k]) && members[k] !in seen {
        kept, seen := kept + [members[k]], seen + {members[k]};
      }
    }
    assert members[..|members|] == members;
  }

  /** No member is kept twice, in one group or in two. */
  lemma KeptOnce(groups: seq<StoredGroup>, r: seq<StoredGroup>)
    requires |r| == |groups| && forall i :: 0 <= i < |r| ==> r[i] == KeptOf(groups, i)
    ensures forall i :: 0 <= i < |r| ==> Distinct(r[i].members)
    ensures forall i, j, m :: 0 <= i < j < |r| && m in r[i].members ==> m !in r[j].members
  {
    hide Usable;
    forall i, j, m | 0 <= i < j < |r| && m in r[i].members
      ensures m !in r[j].members
    {
      assert m in Fresh(UsableIn(groups[..i]), groups[i].members);
      assert groups[..j][i] == groups[i];
      assert m in UsableIn(groups[..j]);
    }
  }

  /** A member is kept where it is first, if it names a channel and neither
      name is overlong; of these only what is past the limit is lost. */
  lemma NothingLost(groups: seq<StoredGroup>, i: nat, m: StoredMember)
    requires i < |groups|
    ensures
      var first := m in groups[i].members && forall k :: 0 <= k < i ==> m !in groups[k].members;
      var named := m.channel != "" && Bytes(m.channel) <= 512 && Bytes(m.server) <= 512;
      && (m in KeptOf(groups, i).members ==> first && named)
      && (first && named ==> m in KeptOf(groups, i).members || |KeptOf(groups, i).members| == MAX_GROUP_MEMBERS)
  {
    assert Usable(m) <==> m.channel != "" && Bytes(m.channel) <= 512 && Bytes(m.server) <= 512;
    hide Usable;
    assert forall k :: 0 <= k < i ==> groups[..i][k] == groups[k];
    var all := Fresh(UsableIn(groups[..i]), groups[i].members);
    assert m in KeptOf(groups, i).members ==> m in all;
  }

  /** Groups are kept for their names: not empty, without the spaces around
      it, of at most 64 characters and none of them a control character of
      ASCII or Latin-1. */
  lemma {:induction false} NamedMeans(groups: seq<StoredGroup>, g: StoredGroup)
    ensures g in Named(groups) <==>
              && 0 < |g.name| <= 64
              && (forall i :: 0 <= i < |g.name| ==> var c := g.name[i] as int; 0x20 <= c < 0x7F || 0xA0 <= c)
              && exists i :: 0 <= i < |groups| && Trim(groups[i].name) == g.name && groups[i].members == g.members
  {
    hide Trim;
    if groups != [] {
      var front, last := groups[..|groups| - 1], groups[|groups| - 1];
      NamedMeans(front, g);
      assert forall i :: 0 <= i < |front| ==> front[i] == groups[i];
      if UsableName(g.name) && Trim(last.name) == g.name && last.members == g.members {
        assert groups[|groups| - 1] == last;
      }
    }
  }

  /** And they keep their order. */
  lemma {:induction false} NamedInOrder(groups: seq<StoredGroup>, more: seq<StoredGroup>)
    ensures Named(groups + more) == Named(groups) + Named(more)
  {
    hide Trim, UsableName;
    if more == [] {
      assert groups + more == groups;
    } else {
      var front := more[..|more| - 1];
      NamedInOrder(groups, front);
      assert (groups + more)[..|groups + more| - 1] == groups + front;
    }
  }

  /** Whether nothing needs to be dropped: what the client saves. */
  ghost predicate Clean(groups: seq<StoredGroup>) {
    && |groups| <= MAX_GROUPS
    && (forall i :: 0 <= i < |groups| ==> CleanGroup(groups[i]))
    && forall i, j, m :: 0 <= i < j < |groups| && m in groups[i].members ==> m !in groups[j].members
  }

  ghost predicate CleanGroup(g: StoredGroup) {
    && UsableName(g.name) && Trim(g.name) == g.name && |g.members| <= MAX_GROUP_MEMBERS
    && Distinct(g.members) && forall m :: m in g.members ==> Usable(m)
  }

  /** Clean groups are read back as they were saved. */
  lemma CleanStays(groups: seq<StoredGroup>)
    requires Clean(groups)
    ensures Bounded(Named(groups), MAX_GROUPS) == groups
    ensures forall i :: 0 <= i < |groups| ==> KeptOf(groups, i) == groups[i]
  {
    hide Named, Fresh, UsableIn, Usable, UsableName, Trim;
    NamesStay(groups);
    forall i | 0 <= i < |groups|
      ensures KeptOf(groups, i) == groups[i]
    {
      assert CleanGroup(groups[i]);
      assert forall k :: 0 <= k < i ==> groups[..i][k] == groups[k];
      FreshStays(UsableIn(groups[..i]), groups[i].members);
    }
  }

  lemma {:induction false} NamesStay(groups: seq<StoredGroup>)
    requires forall i :: 0 <= i < |groups| ==> CleanGroup(groups[i])
    ensures Named(groups) == groups
  {
    if groups != [] {
      hide UsableName, Trim, Distinct, Usable;
      NamesStay(groups[..|groups| - 1]);
      assert groups == groups[..|groups| - 1] + [groups[|groups| - 1]];
    }
  }

  lemma {:induction false} FreshStays(seen: set<StoredMember>, members: seq<StoredMember>)
    requires Distinct(members) && forall m :: m in members ==> Usable(m) && m !in seen
    ensures Fresh(seen, members) == members
  {
    if members != [] {
      hide Usable;
      var front, last := members[..|members| - 1], members[|members| - 1];
      FreshStays(seen, front);
      assert members == front + [last];
    }
  }

  /** What was read once is clean. */
  lemma ReadIsClean(saved: seq<StoredGroup>, r: seq<StoredGroup>)
    requires
      var groups := Bounded(Named(saved), MAX_GROUPS);
      |r| == |groups| && forall i :: 0 <= i < |r| ==> r[i] == KeptOf(groups, i)
    ensures Clean(r)
  {
    hide Usable, UsableName, Trim, Named;
    var groups := Bounded(Named(saved), MAX_GROUPS);
    KeptOnce(groups, r);
    forall i | 0 <= i < |r|
      ensures CleanGroup(r[i])
    {
      assert groups[i] in Named(saved);
      NamedUsable(saved, groups[i]);
      var all := Fresh(UsableIn(groups[..i]), groups[i].members);
      assert forall m :: m in r[i].members ==> m in all;
    }
  }

  lemma {:induction false} NamedUsable(saved: seq<StoredGroup>, g: StoredGroup)
    requires g in Named(saved)
    ensures UsableName(g.name) && Trim(g.name) == g.name
  {
    hide UsableName, Trim;
    var front, last := saved[..|saved| - 1], saved[|saved| - 1];
    if g in Named(front) {
      NamedUsable(front, g);
    } else {
      TrimTwice(last.name);
    }
  }

  // ---------- For the tree ----------

  /** The members on networks that `find` knows. */
  function Found(find: string -> Option<nat>, members: seq<StoredMember>): (r: seq<Member>) {
    if members == [] then []
    else
      var last := members[|members| - 1];
      Found(find, members[..|members| - 1]) +
      match find(last.server)
      case Some(network) => [Member(network, last.channel)]
      case None => []
  }

  function Specs(find: string -> Option<nat>, groups: seq<StoredGroup>): (r: seq<GroupSpec>)
    ensures |r| == |groups|
    ensures forall i :: 0 <= i < |r| ==> r[i] == GroupSpec(groups[i].name, Found(find, groups[i].members))
  {
    seq(|groups|, i requires 0 <= i < |groups| => GroupSpec(groups[i].name, Found(find, groups[i].members)))
  }

  /** Each server is one network. */
  ghost predicate OneToOne(find: string -> Option<nat>) {
    forall a, b :: find(a).Some? && find(a) == find(b) ==> a == b
  }

  lemma {:induction false} FoundIn(find: string -> Option<nat>, members: seq<StoredMember>, x: Member)
    ensures x in Found(find, members) <==>
              exists m :: m in members && find(m.server) == Some(x.network) && m.channel == x.key
  {
    if members != [] {
      var front, last := members[..|members| - 1], members[|members| - 1];
      assert members == front + [last];
      FoundIn(find, front, x);
    }
  }

  lemma {:induction false} FoundDistinct(find: string -> Option<nat>, members: seq<StoredMember>)
    requires OneToOne(find) && Distinct(members)
    ensures Distinct(Found(find, members))
  {
    if members != [] {
      var front, last := members[..|members| - 1], members[|members| - 1];
      FoundDistinct(find, front);
      assert last !in front;
      if find(last.server).Some? && Member(find(last.server).value, last.channel) in Found(find, front) {
        FoundIn(find, front, Member(find(last.server).value, last.channel));
      }
    }
  }

  /** So what is read back is what the tree may adopt. */
  lemma ReadBackOnce(find: string -> Option<nat>, groups: seq<StoredGroup>, r: seq<StoredGroup>)
    requires |r| == |groups| && (forall i :: 0 <= i < |r| ==> r[i] == KeptOf(groups, i)) && OneToOne(find)
    ensures SavedOnce(Specs(find, r))
  {
    hide Found, KeptOf;
    KeptOnce(groups, r);
    forall i | 0 <= i < |r| ensures Distinct(Found(find, r[i].members)) {
      FoundDistinct(find, r[i].members);
    }
    forall i, j, x | 0 <= i < j < |r| && x in Found(find, r[i].members)
      ensures x !in Found(find, r[j].members)
    {
      FoundIn(find, r[i].members, x);
      if x in Found(find, r[j].members) {
        FoundIn(find, r[j].members, x);
      }
    }
  }
}
