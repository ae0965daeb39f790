/** What the tree shows once a conversation went to another heading: it is
    gone from its old row, stands at its place in the new one, and nothing
    else changed. */
module Headings {
  import opened Text
  import opened Names
  import opened Lists
  import opened Layout
  import opened Groups
  import opened Moves

  function TakenRows(rows: seq<(nat, seq<nat>)>, id: nat): (r: seq<(nat, seq<nat>)>)
    ensures |r| == |rows| && forall i :: 0 <= i < |r| ==> r[i] == (rows[i].0, Except(rows[i].1, id))
  {
    seq(|rows|, i requires 0 <= i < |rows| => (rows[i].0, Except(rows[i].1, id)))
  }

  /** The row with `id` right before `other`, or at the end. */
  function GivenRow(row: (nat, seq<nat>), id: nat, other: Option<nat>): (nat, seq<nat>) {
    (row.0, InsertAt(row.1, if other.Some? then Position(row.1, other.value) else |row.1|, id))
  }

  ghost predicate RowGiven(rows: seq<(nat, seq<nat>)>, after: seq<(nat, seq<nat>)>, heading: nat, id: nat,
                           other: Option<nat>) {
    var at := First(rows, OfHeading(heading));
    at < |rows| && after == rows[at := GivenRow(rows[at], id, other)]
  }

  /** `id` left every row and stands under `parent`, right before `other` or,
      when that is not there, last; all other rows and conversations stay. */
  ghost predicate Rehung(before: Tree, after: Tree, id: nat, parent: Parent, other: Option<nat>) {
    var groups, servers := TakenRows(before.groups, id), TakenRows(before.servers, id);
    match parent
    case OfGroup(group) => RowGiven(groups, after.groups, group, id, other) && after.servers == servers
    case OfServer(network) => after.groups == groups && RowGiven(servers, after.servers, network, id, other)
  }

  // ---------- Leaving the old row ----------

  lemma GroupsTaken(cs: Conversations, groups: seq<Group>, m: Member, id: nat)
    requires Unique(cs) && ChannelFor(cs, m) == Some(id)
    ensures GroupRows(cs, WithoutMember(groups, m)) == TakenRows(GroupRows(cs, groups), id)
  {
    hide Unique, ChannelFor, Present, Filter;
    var left, rows := WithoutMember(groups, m), TakenRows(GroupRows(cs, groups), id);
    forall i | 0 <= i < |groups|
      ensures GroupRows(cs, left)[i] == rows[i]
    {
      RemoveShows(cs, groups[i].members, m, id);
    }
  }

  /** Which members the groups list once one was taken out. */
  lemma MembersWithout(groups: seq<Group>, m: Member)
    ensures forall n :: n in AllMembers(WithoutMember(groups, m)) <==> n in AllMembers(groups) && n != m
  {
    hide Filter, AllMembers;
    var left := WithoutMember(groups, m);
    forall n
      ensures n in AllMembers(left) <==> n in AllMembers(groups) && n != m
    {
      MemberOfSome(groups, n);
      MemberOfSome(left, n);
      forall i | 0 <= i < |groups| ensures n in left[i].members <==> n in groups[i].members && n != m {
        assert left[i].members == Filter(groups[i].members, OtherThan(m));
      }
    }
  }

  /** The rows of the servers when one conversation more is shown in a group. */
  lemma ServersTaken(networks: seq<nat>, cs: Conversations, before: seq<nat>, after: seq<nat>, id: nat)
    requires forall x :: x in after <==> x in before || x == id
    ensures ServerRows(networks, cs, after) == TakenRows(ServerRows(networks, cs, before), id)
  {
    hide Filter;
    forall i | 0 <= i < |networks|
      ensures ServerRows(networks, cs, after)[i] == TakenRows(ServerRows(networks, cs, before), id)[i]
    {
      IdsTaken(cs, Ungrouped(networks[i], before), Ungrouped(networks[i], after), id);
    }
  }

  lemma IdsNext(s: Conversations, c: Conversation)
    ensures Ids(s + [c]) == Ids(s) + [c.id]
  {
  }

  lemma {:induction false} IdsTaken(cs: Conversations, p: Conversation -> bool, q: Conversation -> bool, id: nat)
    requires forall c :: q(c) <==> p(c) && c.id != id
    ensures Ids(Filter(cs, q)) == Except(Ids(Filter(cs, p)), id)
  {
    if cs != [] {
      hide Filter, Ids;
      var front, last := cs[..|cs| - 1], cs[|cs| - 1];
      assert cs == front + [last];
      IdsTaken(front, p, q, id);
      FilterNext(front, last, p);
      FilterNext(front, last, q);
      IdsNext(Filter(front, p), last);
      IdsNext(Filter(front, q), last);
      FilterNext(Ids(Filter(front, p)), last.id, Unlike(id));
      Unchanged(Filter(front, p));
      Unchanged(Filter(front, q));
      Unchanged(Ids(Filter(front, q)));
    }
  }

  lemma Unchanged<T>(s: seq<T>)
    ensures s + [] == s
  {
  }

  // ---------- Into a group ----------

  /** The anchor's member and the anchor are at the same place. */
  lemma AnchorShows(cs: Conversations, members: seq<Member>, before: Option<nat>)
    requires Unique(cs) && DistinctKeys(cs) && Distinct(members)
    requires before.Some? && PlaceIn(cs, before.value) < |cs| ==> !cs[PlaceIn(cs, before.value)].IsPrivate()
    ensures
      |Present(cs, members[..AnchorIn(cs, members, before)])| ==
      if before.Some? then Position(Present(cs, members), before.value) else |Present(cs, members)|
  {
    hide Unique, DistinctKeys, ChannelFor, Present, MemberOf, Position, PlaceIn, Distinct;
    var k := AnchorIn(cs, members, before);
    if k == |members| {
      assert members[..k] == members;
      if before.Some? {
        NotPresent(cs, members, before.value);
      }
    } else {
      var d := cs[PlaceIn(cs, before.value)];
      KeyIsOwn(cs, d);
      InsertShows(cs, members, k, members[k]);
      PresentDistinct(cs, members);
      PositionIs(Present(cs, members), before.value, |Present(cs, members[..k])|);
    }
  }

  lemma PositionIs<T(!new)>(s: seq<T>, x: T, at: nat)
    requires Distinct(s) && at < |s| && s[at] == x
    ensures Position(s, x) == at
  {
    hide Position;
    var k := Position(s, x);
    assert x in s;
  }

  /** A conversation whose member is not listed is not shown. */
  lemma NotPresent(cs: Conversations, members: seq<Member>, id: nat)
    requires Unique(cs) && DistinctKeys(cs)
    requires PlaceIn(cs, id) < |cs| ==>
               !cs[PlaceIn(cs, id)].IsPrivate() && MemberOf(cs[PlaceIn(cs, id)]) !in members
    ensures Position(Present(cs, members), id) == |Present(cs, members)|
  {
    hide Unique, DistinctKeys, ChannelFor, Present, MemberOf, Position;
    PresentIn(cs, members, id);
    if id in Present(cs, members) {
      var m :| m in members && ChannelFor(cs, m) == Some(id);
      var c :| c in cs && IsChannel(m)(c) && c.id == id;
      var d := cs[PlaceIn(cs, id)];
      KeyIsOwn(cs, d);
      OneMember(cs, m, MemberOf(d));
    }
  }

  /** The groups with `m` before the anchor in group `g` and nowhere else. */
  function Joined(cs: Conversations, groups: seq<Group>, g: nat, m: Member, before: Option<nat>): (r: seq<Group>)
    requires g < |groups|
    ensures |r| == |groups|
  {
    var left := WithoutMember(groups, m);
    left[g := left[g].(members := InsertAt(left[g].members, AnchorIn(cs, left[g].members, before), m))]
  }

  lemma MembersJoined(cs: Conversations, groups: seq<Group>, g: nat, m: Member, before: Option<nat>)
    requires g < |groups|
    ensures forall n :: n in AllMembers(Joined(cs, groups, g, m, before)) <==> n in AllMembers(groups) || n == m
  {
    hide Filter, AllMembers, WithoutMember, AnchorIn;
    var left, after := WithoutMember(groups, m), Joined(cs, groups, g, m, before);
    var k := AnchorIn(cs, left[g].members, before);
    MembersWithout(groups, m);
    forall n
      ensures n in AllMembers(after) <==> n in AllMembers(left) || n == m
    {
      MemberOfSome(left, n);
      MemberOfSome(after, n);
      InsertedElements(left[g].members, k, m);
      assert forall i ::
          0 <= i < |groups| ==> (n in after[i].members <==> n in left[i].members || (i == g && n == m));
      assert m in after[g].members;
    }
  }

  lemma IntoGroup(networks: seq<nat>, cs: Conversations, groups: seq<Group>, at: nat, group: nat, before: Option<nat>)
    requires Unique(cs) && DistinctKeys(cs) && ListedOnce(groups) && at < |cs| && !cs[at].IsPrivate()
    requires First(groups, WithGroupId(group)) < |groups|
    requires before.Some? && PlaceIn(cs, before.value) < |cs| ==> !cs[PlaceIn(cs, before.value)].IsPrivate()
    ensures
      var g := First(groups, WithGroupId(group));
      Rehung(DisplayTree(networks, cs, groups),
             DisplayTree(networks, cs, Joined(cs, groups, g, MemberOf(cs[at]), before)), cs[at].id, OfGroup(group),
             before)
  {
    hide Unique, DistinctKeys, ListedOnce, ChannelFor, Present, MemberOf, AllMembers, Filter, First, GroupRows,
         ServerRows, Joined;
    var g, m, id := First(groups, WithGroupId(group)), MemberOf(cs[at]), cs[at].id;
    KeyIsOwn(cs, cs[at]);
    GroupsTaken(cs, groups, m, id);
    JoinedRows(cs, groups, g, m, id, before);
    SameHeadings(cs, groups, group, id);
    MembersJoined(cs, groups, g, m, before);
    GroupedJoined(cs, AllMembers(groups), AllMembers(Joined(cs, groups, g, m, before)), m, id);
    ServersTaken(networks, cs, Grouped(cs, groups), Grouped(cs, Joined(cs, groups, g, m, before)), id);
  }

  lemma GroupedJoined(cs: Conversations, before: seq<Member>, after: seq<Member>, m: Member, id: nat)
    requires ChannelFor(cs, m) == Some(id) && forall n :: n in after <==> n in before || n == m
    ensures forall x :: x in Present(cs, after) <==> x in Present(cs, before) || x == id
  {
    hide ChannelFor, Present;
    forall x
      ensures x in Present(cs, after) <==> x in Present(cs, before) || x == id
    {
      PresentIn(cs, before, x);
      PresentIn(cs, after, x);
    }
  }

  lemma SameHeadings(cs: Conversations, groups: seq<Group>, group: nat, id: nat)
    ensures First(TakenRows(GroupRows(cs, groups), id), OfHeading(group)) == First(groups, WithGroupId(group))
  {
    hide Present;
    FirstAlike(TakenRows(GroupRows(cs, groups), id), groups, OfHeading(group), WithGroupId(group));
  }

  lemma JoinedRows(cs: Conversations, groups: seq<Group>, g: nat, m: Member, id: nat, before: Option<nat>)
    requires Unique(cs) && DistinctKeys(cs) && ListedOnce(groups) && g < |groups| && ChannelFor(cs, m) == Some(id)
    requires before.Some? && PlaceIn(cs, before.value) < |cs| ==> !cs[PlaceIn(cs, before.value)].IsPrivate()
    ensures
      var rows := GroupRows(cs, WithoutMember(groups, m));
      GroupRows(cs, Joined(cs, groups, g, m, before)) == rows[g := GivenRow(rows[g], id, before)]
  {
    hide Unique, DistinctKeys, ListedOnce, ChannelFor, Present, Filter, WithoutMember, AnchorIn, Position, PlaceIn;
    var left := WithoutMember(groups, m);
    var k := AnchorIn(cs, left[g].members, before);
    ListedOnceWithoutMember(groups, m);
    ListedAt(left, g);
    AnchorShows(cs, left[g].members, before);
    InsertShows(cs, left[g].members, k, m);
    var rows, after := GroupRows(cs, left), GroupRows(cs, Joined(cs, groups, g, m, before));
    forall i | 0 <= i < |groups|
      ensures after[i] == rows[g := GivenRow(rows[g], id, before)][i]
    {
    }
  }

  lemma ListedAt(groups: seq<Group>, g: nat)
    requires ListedOnce(groups) && g < |groups|
    ensures Distinct(groups[g].members)
  {
  }

  // ---------- Back under the server ----------

  lemma NothingTaken(s: seq<nat>, id: nat)
    requires id !in s
    ensures Except(s, id) == s
  {
    FilterAll(s, Unlike(id));
  }

  lemma GroupedWithout(cs: Conversations, groups: seq<Group>, m: Member, id: nat)
    requires Unique(cs) && ChannelFor(cs, m) == Some(id)
    ensures forall x :: x in Grouped(cs, WithoutMember(groups, m)) <==> x in Grouped(cs, groups) && x != id
  {
    hide Unique, ChannelFor, Present, AllMembers, WithoutMember;
    var left := WithoutMember(groups, m);
    MembersWithout(groups, m);
    forall x
      ensures x in Grouped(cs, left) <==> x in Grouped(cs, groups) && x != id
    {
      PresentIn(cs, AllMembers(groups), x);
      PresentIn(cs, AllMembers(left), x);
      if x in Grouped(cs, left) {
        var n :| n in AllMembers(left) && ChannelFor(cs, n) == Some(x);
        if x == id {
          OneMember(cs, m, n);
        }
      }
    }
  }

  lemma IdsDistinct(cs: Conversations, p: Conversation -> bool)
    requires Unique(cs)
    ensures Distinct(Ids(Filter(cs, p)))
  {
    hide Filter;
    forall i, j | 0 <= i < j < |Filter(cs, p)|
      ensures Filter(cs, p)[i].id != Filter(cs, p)[j].id
    {
      FilterPositions(cs, p, i, j);
      var k, m :| 0 <= k < m < |cs| && cs[k] == Filter(cs, p)[i] && cs[m] == Filter(cs, p)[j];
      if cs[k].id == cs[m].id {
        UniqueAt(cs, k, m);
      }
    }
  }

  /** A conversation not counted so far is moved to where `other` is. */
  lemma RowWithMoved(cs: Conversations, at: nat, to: nat, p: Conversation -> bool, q: Conversation -> bool, other: nat)
    requires Unique(cs) && at < |cs| && to + 1 < |cs| && Moved(cs, at, to)[to + 1].id == other
    requires forall c :: c in cs ==> (q(c) <==> p(c) || c.id == cs[at].id)
    requires !p(cs[at]) && p(Moved(cs, at, to)[to + 1])
    ensures
      var row := Ids(Filter(cs, p));
      Ids(Filter(Moved(cs, at, to), q)) == InsertAt(row, Position(row, other), cs[at].id)
  {
    hide Unique, Filter, Position;
    var r, c, d := RemoveAt(cs, at), cs[at], Moved(cs, at, to)[to + 1];
    assert r[to] == d && d in cs;
    RestApart(cs, at);
    FilterRemoved(cs, at, p);
    FilterSame(r, p, q);
    FilterInserted(r, to, c, q);
    FilterAt(r, to, q);
    IdsDistinct(cs, p);
    var row, j := Ids(Filter(cs, p)), |Filter(r[..to], q)|;
    PositionIs(row, other, j);
    IdsInserted(Filter(r, q), j, c);
  }

  lemma RestApart(cs: Conversations, at: nat)
    requires Unique(cs) && at < |cs|
    ensures forall c :: c in RemoveAt(cs, at) ==> c in cs && c.id != cs[at].id
  {
    hide Unique;
    var r := RemoveAt(cs, at);
    forall i | 0 <= i < |r|
      ensures r[i] in cs && r[i].id != cs[at].id
    {
      var k := if i < at then i else i + 1;
      assert r[i] == cs[k];
      if cs[k].id == cs[at].id {
        UniqueAt(cs, k, at);
      }
    }
  }

  lemma IdsInserted(s: Conversations, at: nat, c: Conversation)
    requires at <= |s|
    ensures Ids(InsertAt(s, at, c)) == InsertAt(Ids(s), at, c.id)
  {
  }

  /** The rows of the other servers. */
  lemma OtherRow(cs: Conversations, at: nat, to: nat, p: Conversation -> bool, q: Conversation -> bool)
    requires at < |cs| && to < |cs| && !q(cs[at]) && forall c :: c in cs ==> q(c) == p(c)
    requires forall c :: c in cs && c.id == cs[at].id ==> !p(c)
    ensures Ids(Filter(Moved(cs, at, to), q)) == Except(Ids(Filter(cs, p)), cs[at].id)
  {
    hide Filter, Moved;
    MovedOthers(cs, at, to, q);
    FilterSame(cs, p, q);
    forall k | 0 <= k < |Filter(cs, p)|
      ensures Filter(cs, p)[k].id != cs[at].id
    {
      assert Filter(cs, p)[k] in Filter(cs, p);
    }
    NothingTaken(Ids(Filter(cs, p)), cs[at].id);
  }

  lemma ServersGiven(networks: seq<nat>, cs: Conversations, before: seq<nat>, after: seq<nat>, at: nat, to: nat,
                     other: nat)
    requires Unique(cs) && Distinct(networks) && at < |cs| && to + 1 < |cs|
    requires Moved(cs, at, to)[to + 1].id == other && Moved(cs, at, to)[to + 1].network == cs[at].network
    requires cs[at].network in networks && cs[at].id in before && other !in before
    requires forall x :: x in after <==> x in before && x != cs[at].id
    ensures RowGiven(TakenRows(ServerRows(networks, cs, before), cs[at].id),
                     ServerRows(networks, Moved(cs, at, to), after), cs[at].network, cs[at].id, Some(other))
  {
    hide Filter, Moved, Unique, First, Position;
    var c, d := cs[at], Moved(cs, at, to)[to + 1];
    var rows := TakenRows(ServerRows(networks, cs, before), c.id);
    var n := First(rows, OfHeading(c.network));
    HeadingAt(networks, rows, c.network);
    MovedElements(cs, at, to);
    forall i | 0 <= i < |networks|
      ensures ServerRows(networks, Moved(cs, at, to), after)[i] == rows[n := GivenRow(rows[n], c.id, Some(other))][i]
    {
      var p, q := Ungrouped(networks[i], before), Ungrouped(networks[i], after);
      SameId(cs, at);
      if i == n {
        RowWithMoved(cs, at, to, p, q, other);
        NotIn(cs, p, c.id);
      } else {
        OtherRow(cs, at, to, p, q);
      }
    }
  }

  lemma SameId(cs: Conversations, at: nat)
    requires Unique(cs) && at < |cs|
    ensures forall c :: c in cs && c.id == cs[at].id ==> c == cs[at]
  {
  }

  lemma NotIn(cs: Conversations, p: Conversation -> bool, id: nat)
    requires forall c :: c in cs && p(c) ==> c.id != id
    ensures Except(Ids(Filter(cs, p)), id) == Ids(Filter(cs, p))
  {
    hide Filter;
    forall k | 0 <= k < |Filter(cs, p)|
      ensures Filter(cs, p)[k].id != id
    {
      assert Filter(cs, p)[k] in Filter(cs, p);
    }
    NothingTaken(Ids(Filter(cs, p)), id);
  }

  lemma HeadingAt(networks: seq<nat>, rows: seq<(nat, seq<nat>)>, network: nat)
    requires |rows| == |networks| && Distinct(networks) && network in networks
    requires forall i :: 0 <= i < |rows| ==> rows[i].0 == networks[i]
    ensures
      var n := First(rows, OfHeading(network));
      n < |rows| && networks[n] == network && forall i :: 0 <= i < |networks| && i != n ==> networks[i] != network
  {
    hide First;
    var n := First(rows, OfHeading(network));
    var k :| 0 <= k < |networks| && networks[k] == network;
    assert OfHeading(network)(rows[k]);
  }

  /** A channel goes back under its server, before another one shown there. */
  lemma OntoServer(networks: seq<nat>, cs: Conversations, groups: seq<Group>, at: nat, to: nat, other: nat)
    requires Unique(cs) && DistinctKeys(cs) && Distinct(networks) && at < |cs| && to + 1 < |cs|
    requires !cs[at].IsPrivate() && MemberOf(cs[at]) in AllMembers(groups) && cs[at].network in networks
    requires Moved(cs, at, to)[to + 1].id == other && Moved(cs, at, to)[to + 1].network == cs[at].network
    requires other !in Grouped(cs, groups)
    ensures Rehung(DisplayTree(networks, cs, groups),
                   DisplayTree(networks, Moved(cs, at, to), WithoutMember(groups, MemberOf(cs[at]))), cs[at].id,
                   OfServer(cs[at].network), Some(other))
  {
    hide Unique, DistinctKeys, ChannelFor, Present, MemberOf, AllMembers, Filter, First, GroupRows, ServerRows, Moved,
         WithoutMember, RowGiven;
    var m, id, after := MemberOf(cs[at]), cs[at].id, Moved(cs, at, to);
    var left := WithoutMember(groups, m);
    KeyIsOwn(cs, cs[at]);
    GroupsTaken(cs, groups, m, id);
    MovedElements(cs, at, to);
    SameRows(cs, after, left);
    SamePresent(cs, after, AllMembers(left));
    GroupedWithout(cs, groups, m, id);
    PresentIn(cs, AllMembers(groups), id);
    ServersGiven(networks, cs, Grouped(cs, groups), Grouped(cs, left), at, to, other);
  }

  lemma SameRows(cs: Conversations, r: Conversations, groups: seq<Group>)
    requires DistinctKeys(cs) && multiset(r) == multiset(cs)
    ensures GroupRows(r, groups) == GroupRows(cs, groups)
  {
    hide DistinctKeys, Present;
    forall i | 0 <= i < |groups|
      ensures GroupRows(r, groups)[i] == GroupRows(cs, groups)[i]
    {
      SamePresent(cs, r, groups[i].members);
    }
  }

  // ---------- The moves ----------

  /** Under distinct keys the tree shows a channel under its server exactly
      when no group lists it. */
  lemma UngroupedIs(networks: seq<nat>, cs: Conversations, groups: seq<Group>, c: Conversation)
    requires Unique(cs) && DistinctKeys(cs) && c in cs && c.network in networks
    ensures ParentOf(DisplayTree(networks, cs, groups), c.id) == Some(OfServer(c.network)) <==>
              c.IsPrivate() || MemberOf(c) !in AllMembers(groups)
    ensures !c.IsPrivate() ==> (c.id in Grouped(cs, groups) <==> MemberOf(c) in AllMembers(groups))
  {
    hide Unique, DistinctKeys, ParentOf, DisplayTree, ChannelFor, MemberOf, AllMembers, Present;
    DistinctKeysAgree(networks, cs, groups, c);
    MemberOfSome(groups, MemberOf(c));
    if !c.IsPrivate() {
      KeyIsOwn(cs, c);
      PresentIn(cs, AllMembers(groups), c.id);
      if c.id in Grouped(cs, groups) {
        var n :| n in AllMembers(groups) && ChannelFor(cs, n) == Some(c.id);
        OneMember(cs, MemberOf(c), n);
      }
      if MemberOf(c) in AllMembers(groups) {
        var i :| 0 <= i < |groups| && MemberOf(c) in groups[i].members;
        assert HasMember(MemberOf(c))(groups[i]);
      }
    }
  }

  /** Moving before a conversation under another heading. */
  lemma RelocatedShows(networks: seq<nat>, cs: Conversations, groups: seq<Group>, at: nat, other: nat,
                       after: Conversations, groupsAfter: seq<Group>)
    requires Unique(cs) && DistinctKeys(cs) && ListedOnce(groups) && Distinct(networks) && LaidOut(networks, cs)
    requires at < |cs| && MayRelocate(DisplayTree(networks, cs, groups), cs, groups, at, other)
    requires Relocated(DisplayTree(networks, cs, groups), cs, groups, at, other, after, groupsAfter)
    ensures Rehung(DisplayTree(networks, cs, groups), DisplayTree(networks, after, groupsAfter), cs[at].id,
                   ParentOf(DisplayTree(networks, cs, groups), other).value, Some(other))
  {
    hide Unique, DistinctKeys, ListedOnce, ParentOf, DisplayTree, MemberOf, AllMembers, WithoutMember, Moved, Rehung,
         AnchorIn, PlaceIn, First, Grouped, Distinct;
    var tree, c := DisplayTree(networks, cs, groups), cs[at];
    match ParentOf(tree, other).value
    case OfGroup(group) =>
      IntoGroup(networks, cs, groups, at, group, Some(other));
    case OfServer(network) =>
      UngroupedIs(networks, cs, groups, c);
      ServerShowsUngrouped(networks, cs, groups, other, network);
      ServerShowsOwn(networks, cs, groups, PlaceIn(cs, other), network);
      var to :| 0 <= to < |cs| && after == Moved(cs, at, to) && to + 1 < |after| && after[to + 1].id == other;
      MovedElements(cs, at, to);
      SameElements(cs, after);
      SameId(cs, PlaceIn(cs, other));
      OntoServer(networks, cs, groups, at, to, other);
  }

  /** A network's row that ends with a channel shows channels only. */
  lemma ChannelsOnly(networks: seq<nat>, cs: Conversations, p: Conversation -> bool, last: nat)
    requires LaidOut(networks, cs) && Unique(cs) && last < |cs| && !cs[last].IsPrivate()
    requires forall c :: c in cs && c.network == cs[last].network && c.IsPrivate() ==> p(c)
    requires Filter(cs, p) != [] && Filter(cs, p)[|Filter(cs, p)| - 1] == cs[last]
    ensures forall c :: c in cs && c.network == cs[last].network ==> !c.IsPrivate()
  {
    hide Filter, Position, Unique;
    var row := Filter(cs, p);
    assert row[|row| - 1] in row;
    FilterAt(cs, last, p);
    IdsDistinct(cs, p);
    assert Ids(row)[|Filter(cs[..last], p)|] == Ids(row)[|row| - 1];
    assert |Filter(cs[..last], p)| == |row| - 1;
    forall i | 0 <= i < |cs| && cs[i].network == cs[last].network
      ensures !cs[i].IsPrivate()
    {
      assert i < last ==> Place(networks, cs[i]) <= Place(networks, cs[last]);
      if last < i && p(cs[i]) {
        FilterAt(cs, i, p);
        FilterEarlier(cs, last, i, p);
      }
    }
  }

  /** With no private conversation in its network, a channel's siblings are
      the whole row of its server. */
  lemma SiblingsAreRow(networks: seq<nat>, cs: Conversations, groups: seq<Group>, c: Conversation)
    requires Unique(cs) && DistinctKeys(cs) && c in cs && !c.IsPrivate() && c.network in networks
    requires forall d :: d in cs && d.network == c.network ==> !d.IsPrivate()
    ensures Filter(cs, SiblingOf(DisplayTree(networks, cs, groups), c)) ==
            Filter(cs, Ungrouped(c.network, Grouped(cs, groups)))
  {
    hide Unique, DistinctKeys, ParentOf, DisplayTree, Grouped, AllMembers, MemberOf, Filter;
    var p, q := SiblingOf(DisplayTree(networks, cs, groups), c), Ungrouped(c.network, Grouped(cs, groups));
    forall d | d in cs ensures p(d) == q(d) {
      if d.network == c.network {
        UngroupedIs(networks, cs, groups, d);
      }
    }
    FilterSame(cs, p, q);
  }

  lemma ToTheEnd(s: seq<nat>, id: nat)
    requires Distinct(s) && id in s
    ensures Moved(s, Position(s, id), |s| - 1) == InsertAt(Except(s, id), |Except(s, id)|, id)
    ensures Position(s, id) == |s| - 1 ==> Moved(s, Position(s, id), |s| - 1) == s
  {
    hide Position, Except, Distinct;
    var at := Position(s, id);
    ExceptAt(s, at);
    if at == |s| - 1 {
      assert RemoveAt(s, at) == s[..at];
    }
  }

  lemma ExceptAt(s: seq<nat>, at: nat)
    requires Distinct(s) && at < |s|
    ensures Except(s, s[at]) == RemoveAt(s, at)
  {
    hide Filter;
    var a, b := s[..at], s[at + 1..];
    assert s == a + [s[at]] + b;
    assert s[at] !in a && s[at] !in b;
    hide Distinct;
    FilterSplit(a + [s[at]], b, Unlike(s[at]));
    FilterNext(a, s[at], Unlike(s[at]));
    FilterAll(a, Unlike(s[at]));
    FilterAll(b, Unlike(s[at]));
    Unchanged(a);
  }

  /** The server's row once a channel left its group, at its own place. */
  lemma RowsWithout(networks: seq<nat>, cs: Conversations, groups: seq<Group>, at: nat)
    requires Unique(cs) && DistinctKeys(cs) && at < |cs| && !cs[at].IsPrivate()
    requires MemberOf(cs[at]) in AllMembers(groups)
    ensures
      var (tree, id) := (DisplayTree(networks, cs, groups), cs[at].id);
      var mid := DisplayTree(networks, cs, WithoutMember(groups, MemberOf(cs[at])));
      && mid.groups == TakenRows(tree.groups, id)
      && tree.servers == TakenRows(mid.servers, id)
      && TakenRows(tree.servers, id) == tree.servers
      && forall k :: 0 <= k < |networks| && networks[k] != cs[at].network ==> tree.servers[k] == mid.servers[k]
  {
    hide Unique, DistinctKeys, ChannelFor, Present, MemberOf, AllMembers, Filter, GroupRows, WithoutMember;
    var m, id := MemberOf(cs[at]), cs[at].id;
    var left := WithoutMember(groups, m);
    KeyIsOwn(cs, cs[at]);
    GroupsTaken(cs, groups, m, id);
    GroupedWithout(cs, groups, m, id);
    PresentIn(cs, AllMembers(groups), id);
    ServersTaken(networks, cs, Grouped(cs, left), Grouped(cs, groups), id);
    SameId(cs, at);
    var tree, mid := DisplayTree(networks, cs, groups), DisplayTree(networks, cs, left);
    forall k | 0 <= k < |networks|
      ensures TakenRows(tree.servers, id)[k] == tree.servers[k]
      ensures networks[k] != cs[at].network ==> tree.servers[k] == mid.servers[k]
    {
      NotIn(cs, Ungrouped(networks[k], Grouped(cs, groups)), id);
      if networks[k] != cs[at].network {
        NotIn(cs, Ungrouped(networks[k], Grouped(cs, left)), id);
      }
    }
  }

  /** A move to the last place of the server's row, if it is a move. */
  lemma LastPlace(networks: seq<nat>, cs: Conversations, groups: seq<Group>, at: nat, after: Conversations,
                  groupsAfter: seq<Group>, n: nat)
    requires Unique(cs) && DistinctKeys(cs) && Distinct(networks) && at < |cs| && !cs[at].IsPrivate()
    requires n < |networks| && networks[n] == cs[at].network && MemberOf(cs[at]) !in AllMembers(groups)
    requires forall d :: d in cs && d.network == cs[at].network ==> !d.IsPrivate()
    requires if MoveGoes(DisplayTree(networks, cs, groups), cs, groups, cs[at].id, ToLast)
             then MoveDone(networks, cs, groups, cs[at].id, ToLast, after, groupsAfter)
             else after == cs && groupsAfter == groups
    ensures
      var (mid, id) := (DisplayTree(networks, cs, groups), cs[at].id);
      var (tree, row) := (DisplayTree(networks, after, groupsAfter), Except(mid.servers[n].1, id));
      && tree.groups == mid.groups
      && tree.servers == mid.servers[n := (networks[n], InsertAt(row, |row|, id))]
  {
    hide Unique, DistinctKeys, ParentOf, DisplayTree, Grouped, AllMembers, MemberOf, Filter, Moved, SiblingOf, Position,
         PlaceIn, MovesTo, KeepsOthers, First, Except;
    var c, id, mid := cs[at], cs[at].id, DisplayTree(networks, cs, groups);
    UngroupedIs(networks, cs, groups, c);
    SiblingsAreRow(networks, cs, groups, c);
    OwnPlaceIn(cs, at);
    NoGroupLists(groups, MemberOf(c));
    var siblings := Ids(Filter(cs, Ungrouped(c.network, Grouped(cs, groups))));
    ServerRowIs(networks, cs, groups, n);
    IdsDistinct(cs, Ungrouped(c.network, Grouped(cs, groups)));
    IdIn(cs, at, Ungrouped(c.network, Grouped(cs, groups)));
    ToTheEnd(siblings, id);
    PositionIs(siblings, siblings[|siblings| - 1], |siblings| - 1);
    var tree, row := DisplayTree(networks, after, groupsAfter), Except(siblings, id);
    assert forall k :: 0 <= k < |networks| ==> mid.servers[k].0 == networks[k] by {
      HeadingsAre(networks, cs, groups);
    }
    assert tree.servers == mid.servers[n := (networks[n], InsertAt(row, |row|, id))];
  }

  lemma HeadingsAre(networks: seq<nat>, cs: Conversations, groups: seq<Group>)
    ensures forall k :: 0 <= k < |networks| ==> DisplayTree(networks, cs, groups).servers[k].0 == networks[k]
  {
    hide Grouped, Filter;
  }

  lemma ServerRowIs(networks: seq<nat>, cs: Conversations, groups: seq<Group>, n: nat)
    requires n < |networks|
    ensures DisplayTree(networks, cs, groups).servers[n] ==
            (networks[n], Ids(Filter(cs, Ungrouped(networks[n], Grouped(cs, groups)))))
  {
    hide Grouped, Filter;
  }

  lemma OwnPlaceIn(cs: Conversations, at: nat)
    requires Unique(cs) && at < |cs|
    ensures PlaceIn(cs, cs[at].id) == at
  {
    hide Unique;
    OwnPlace(cs, at);
  }

  lemma NoGroupLists(groups: seq<Group>, m: Member)
    requires m !in AllMembers(groups)
    ensures First(groups, HasMember(m)) == |groups|
  {
    hide AllMembers, First;
    MemberOfSome(groups, m);
    assert forall i :: 0 <= i < |groups| ==> !HasMember(m)(groups[i]);
  }

  lemma IdIn(cs: Conversations, at: nat, p: Conversation -> bool)
    requires at < |cs| && p(cs[at])
    ensures cs[at].id in Ids(Filter(cs, p))
  {
    hide Filter;
    FilterAt(cs, at, p);
    assert Ids(Filter(cs, p))[|Filter(cs[..at], p)|] == cs[at].id;
  }

  /** A channel goes back to the end of its server's row. */
  lemma OntoServerLast(networks: seq<nat>, cs: Conversations, groups: seq<Group>, at: nat, after: Conversations,
                       groupsAfter: seq<Group>)
    requires Unique(cs) && DistinctKeys(cs) && Distinct(networks) && at < |cs| && cs[at].network in networks
    requires !cs[at].IsPrivate() && MemberOf(cs[at]) in AllMembers(groups)
    requires forall d :: d in cs && d.network == cs[at].network ==> !d.IsPrivate()
    requires var left := WithoutMember(groups, MemberOf(cs[at]));
             if MoveGoes(DisplayTree(networks, cs, left), cs, left, cs[at].id, ToLast)
             then MoveDone(networks, cs, left, cs[at].id, ToLast, after, groupsAfter)
             else after == cs && groupsAfter == left
    ensures Rehung(DisplayTree(networks, cs, groups), DisplayTree(networks, after, groupsAfter), cs[at].id,
                   OfServer(cs[at].network), None)
  {
    hide Unique, DistinctKeys, DisplayTree, AllMembers, MemberOf, WithoutMember, First, MoveGoes, MoveDone, Except,
         Distinct;
    var m, network := MemberOf(cs[at]), cs[at].network;
    var left := WithoutMember(groups, m);
    var tree := DisplayTree(networks, cs, groups);
    RowsWithout(networks, cs, groups, at);
    MembersWithout(groups, m);
    HeadingsAre(networks, cs, groups);
    HeadingAt(networks, tree.servers, network);
    LastPlace(networks, cs, left, at, after, groupsAfter, First(tree.servers, OfHeading(network)));
  }

  /** Moving right after the last row of another heading. */
  lemma EndsRowShows(networks: seq<nat>, cs: Conversations, groups: seq<Group>, id: nat, other: nat,
                     after: Conversations, groupsAfter: seq<Group>)
    requires Unique(cs) && DistinctKeys(cs) && ListedOnce(groups) && Distinct(networks) && LaidOut(networks, cs)
    requires MayMoveAfter(DisplayTree(networks, cs, groups), cs, groups, id, other)
    requires RowAfter(DisplayTree(networks, cs, groups), other).None?
    requires EndsRow(networks, cs, groups, id, ParentOf(DisplayTree(networks, cs, groups), other).value, after,
                     groupsAfter)
    ensures Rehung(DisplayTree(networks, cs, groups), DisplayTree(networks, after, groupsAfter), id,
                   ParentOf(DisplayTree(networks, cs, groups), other).value, None)
  {
    hide Unique, DistinctKeys, ListedOnce, ParentOf, DisplayTree, MemberOf, AllMembers, WithoutMember, Rehung, MoveGoes,
         MoveDone, RowAfter, PlaceIn, First, Grouped, Distinct;
    var tree, at := DisplayTree(networks, cs, groups), PlaceIn(cs, id);
    match ParentOf(tree, other).value
    case OfGroup(group) =>
      IntoGroup(networks, cs, groups, at, group, None);
    case OfServer(network) =>
      UngroupedIs(networks, cs, groups, cs[at]);
      ServerShowsOwn(networks, cs, groups, PlaceIn(cs, other), network);
      LastIsChannel(networks, cs, groups, PlaceIn(cs, other));
      OntoServerLast(networks, cs, groups, at, after, groupsAfter);
  }

  /** A channel without a row after it is the last of its server. */
  lemma LastIsChannel(networks: seq<nat>, cs: Conversations, groups: seq<Group>, last: nat)
    requires Unique(cs) && Distinct(networks) && LaidOut(networks, cs) && last < |cs| && !cs[last].IsPrivate()
    requires RowAfter(DisplayTree(networks, cs, groups), cs[last].id).None?
    requires ParentOf(DisplayTree(networks, cs, groups), cs[last].id) == Some(OfServer(cs[last].network))
    ensures forall d :: d in cs && d.network == cs[last].network ==> !d.IsPrivate()
  {
    hide Unique, ParentOf, Grouped, Filter, First, Position, Distinct;
    var tree, id, network := DisplayTree(networks, cs, groups), cs[last].id, cs[last].network;
    var p := Ungrouped(network, Grouped(cs, groups));
    HeadingAt(networks, tree.servers, network);
    ServerShowsUngrouped(networks, cs, groups, id, network);
    IdIn(cs, last, p);
    IdsDistinct(cs, p);
    assert Children(tree, OfServer(network)) == Ids(Filter(cs, p));
    LastOf(cs, p, last);
    PrivateShown(cs, groups);
    ChannelsOnly(networks, cs, p, last);
  }

  lemma LastOf(cs: Conversations, p: Conversation -> bool, last: nat)
    requires Unique(cs) && last < |cs| && p(cs[last])
    requires Position(Ids(Filter(cs, p)), cs[last].id) + 1 >= |Ids(Filter(cs, p))|
    ensures Filter(cs, p) != [] && Filter(cs, p)[|Filter(cs, p)| - 1] == cs[last]
  {
    hide Filter, Position, Unique;
    IdIn(cs, last, p);
    var row := Filter(cs, p);
    assert row[|row| - 1] in row && row[|row| - 1].id == cs[last].id;
    SameId(cs, last);
  }

  lemma PrivateShown(cs: Conversations, groups: seq<Group>)
    requires Unique(cs)
    ensures forall c :: c in cs && c.IsPrivate() ==> c.id !in Grouped(cs, groups)
  {
    hide Unique, AllMembers, ChannelFor, Present;
    forall c | c in cs && c.IsPrivate() && c.id in Grouped(cs, groups)
      ensures false
    {
      PresentIn(cs, AllMembers(groups), c.id);
      var m :| m in AllMembers(groups) && ChannelFor(cs, m) == Some(c.id);
      var d :| d in cs && IsChannel(m)(d) && d.id == c.id;
      SameConversation(cs, c, d);
    }
  }

  /** A move before a conversation under another heading. */
  lemma AcrossShows(networks: seq<nat>, cs: Conversations, groups: seq<Group>, id: nat, other: nat,
                    after: Conversations, groupsAfter: seq<Group>)
    requires Unique(cs) && DistinctKeys(cs) && ListedOnce(groups) && Distinct(networks) && LaidOut(networks, cs)
    requires MoveGoes(DisplayTree(networks, cs, groups), cs, groups, id, ToPlace(other))
    requires MoveDone(networks, cs, groups, id, ToPlace(other), after, groupsAfter)
    requires ParentOf(DisplayTree(networks, cs, groups), id) != ParentOf(DisplayTree(networks, cs, groups), other)
    ensures ParentOf(DisplayTree(networks, cs, groups), other).Some?
    ensures Rehung(DisplayTree(networks, cs, groups), DisplayTree(networks, after, groupsAfter), id,
                   ParentOf(DisplayTree(networks, cs, groups), other).value, Some(other))
  {
    hide Unique, DistinctKeys, ListedOnce, ParentOf, DisplayTree, Rehung, MayRelocate, Relocated, LaidOut, PlaceIn,
         Distinct, MovesTo, KeepsOthers, ServerRowMoves, AllMembers, Filter, MemberOf;
    var tree, at := DisplayTree(networks, cs, groups), PlaceIn(cs, id);
    if groups == [] {
      BothSiblings(cs, SiblingOf(tree, cs[at]), id, other);
    } else {
      assert KindOf(tree, groups, cs[at], ToPlace(other)) == Across;
      MayRelocateThere(tree, cs, groups, at, other);
      RelocatedShows(networks, cs, groups, at, other, after, groupsAfter);
    }
  }

  lemma MayRelocateThere(tree: Tree, cs: Conversations, groups: seq<Group>, at: nat, other: nat)
    requires at < |cs| && MayRelocate(tree, cs, groups, at, other)
    ensures ParentOf(tree, other).Some?
  {
    hide ParentOf;
  }

  lemma BothSiblings(cs: Conversations, p: Conversation -> bool, id: nat, other: nat)
    requires Aim(Ids(Filter(cs, p)), id, ToPlace(other)).Some?
    ensures (exists c :: c in cs && p(c) && c.id == id) && exists c :: c in cs && p(c) && c.id == other
  {
    hide Filter, Position;
    var row := Filter(cs, p);
    var i :| 0 <= i < |row| && Ids(row)[i] == id;
    var j :| 0 <= j < |row| && Ids(row)[j] == other;
    assert row[i] in row && row[j] in row;
  }

  /** What a heading shows has that heading as its parent. */
  lemma ChildrenHere(networks: seq<nat>, cs: Conversations, groups: seq<Group>, parent: Parent, id: nat)
    requires Unique(cs) && DistinctKeys(cs) && ListedOnce(groups) && Distinct(networks) && LaidOut(networks, cs)
    requires id in Children(DisplayTree(networks, cs, groups), parent)
    ensures ParentOf(DisplayTree(networks, cs, groups), id) == Some(parent)
  {
    hide Unique, DistinctKeys, ListedOnce, LaidOut, ParentOf, Distinct, MemberOf, AllMembers, Present, Filter, First,
         Grouped;
    var tree := DisplayTree(networks, cs, groups);
    match parent
    case OfGroup(group) =>
      InGroupHere(networks, cs, groups, First(tree.groups, OfHeading(group)), id);
    case OfServer(network) =>
      var n := First(tree.servers, OfHeading(network));
      var row := Filter(cs, Ungrouped(networks[n], Grouped(cs, groups)));
      var k :| 0 <= k < |Ids(row)| && Ids(row)[k] == id;
      assert row[k] in row;
      LaidIn(networks, cs);
      UngroupedIs(networks, cs, groups, row[k]);
  }

  lemma LaidIn(networks: seq<nat>, cs: Conversations)
    requires LaidOut(networks, cs)
    ensures forall c :: c in cs ==> c.network in networks
  {
  }

  lemma InGroupHere(networks: seq<nat>, cs: Conversations, groups: seq<Group>, g: nat, id: nat)
    requires Unique(cs) && DistinctKeys(cs) && ListedOnce(groups) && LaidOut(networks, cs)
    requires g < |groups| && id in Present(cs, groups[g].members)
    ensures ParentOf(DisplayTree(networks, cs, groups), id) == Some(OfGroup(groups[g].id))
  {
    hide Unique, DistinctKeys, LaidOut, ParentOf, MemberOf, AllMembers, Present, ChannelFor, First, DisplayTree;
    PresentIn(cs, groups[g].members, id);
    var m :| m in groups[g].members && ChannelFor(cs, m) == Some(id);
    var c :| c in cs && IsChannel(m)(c) && c.id == id;
    LaidIn(networks, cs);
    DistinctKeysAgree(networks, cs, groups, c);
    assert HasMember(m)(groups[g]);
    var at := First(groups, HasMember(m));
    assert m in groups[at].members;
    assert at == g;
  }

  lemma NextIsThere(networks: seq<nat>, cs: Conversations, groups: seq<Group>, other: nat)
    requires Unique(cs) && DistinctKeys(cs) && ListedOnce(groups) && Distinct(networks) && LaidOut(networks, cs)
    requires RowAfter(DisplayTree(networks, cs, groups), other).Some?
    ensures
      var tree := DisplayTree(networks, cs, groups);
      ParentOf(tree, RowAfter(tree, other).value) == ParentOf(tree, other)
  {
    hide Unique, DistinctKeys, ListedOnce, LaidOut, ParentOf, DisplayTree, Children, Position, Distinct;
    var tree := DisplayTree(networks, cs, groups);
    ChildrenHere(networks, cs, groups, ParentOf(tree, other).value, RowAfter(tree, other).value);
  }

  /** Right after another conversation: before the next row, or at the end. */
  lemma AfterShows(networks: seq<nat>, cs: Conversations, groups: seq<Group>, id: nat, other: nat,
                   after: Conversations, groupsAfter: seq<Group>)
    requires Unique(cs) && DistinctKeys(cs) && ListedOnce(groups) && Distinct(networks) && LaidOut(networks, cs)
    requires MayMoveAfter(DisplayTree(networks, cs, groups), cs, groups, id, other)
    requires match RowAfter(DisplayTree(networks, cs, groups), other)
             case Some(next) => MoveDone(networks, cs, groups, id, ToPlace(next), after, groupsAfter)
             case None =>
               EndsRow(networks, cs, groups, id, ParentOf(DisplayTree(networks, cs, groups), other).value, after,
                       groupsAfter)
    ensures Rehung(DisplayTree(networks, cs, groups), DisplayTree(networks, after, groupsAfter), id,
                   ParentOf(DisplayTree(networks, cs, groups), other).value,
                   RowAfter(DisplayTree(networks, cs, groups), other))
  {
    hide Unique, DistinctKeys, ListedOnce, ParentOf, DisplayTree, Rehung, LaidOut, PlaceIn, Distinct, MoveGoes,
         MoveDone,
         EndsRow, RowAfter, AllMembers, MemberOf, MayJoin;
    var tree := DisplayTree(networks, cs, groups);
    match RowAfter(tree, other)
    case Some(next) =>
      NextIsThere(networks, cs, groups, other);
      AcrossShows(networks, cs, groups, id, next, after, groupsAfter);
    case None =>
      EndsRowShows(networks, cs, groups, id, other, after, groupsAfter);
  }

  // ---------- In the states the operations reach ----------

  lemma JoinMeans(networks: seq<nat>, cs: Conversations, ids: map<Key, nat>, mappings: map<nat, CaseMapping>,
                  orders: Orders, nextId: nat, groups: seq<Group>, at: nat, group: nat, before: Option<nat>)
    requires Sane(networks, cs, ids, mappings, orders, nextId) && ListedOnce(groups) && at < |cs|
    requires !cs[at].IsPrivate() && First(groups, WithGroupId(group)) < |groups|
    ensures DistinctKeys(cs) && !IsPrivateIn(cs, before) ==>
              Rehung(DisplayTree(networks, cs, groups),
                     DisplayTree(networks, cs,
                                 Joined(cs, groups, First(groups, WithGroupId(group)), MemberOf(cs[at]), before)),
                     cs[at].id, OfGroup(group), before)
  {
    hide DistinctKeys, ListedOnce, Sane, Rehung, Joined, DisplayTree, MemberOf, First, PlaceIn;
    SaneFits(networks, cs, ids, mappings, orders, nextId);
    if DistinctKeys(cs) && !IsPrivateIn(cs, before) {
      IntoGroup(networks, cs, groups, at, group, before);
    }
  }

  predicate IsPrivateIn(cs: Conversations, id: Option<nat>) {
    id.Some? && PlaceIn(cs, id.value) < |cs| && cs[PlaceIn(cs, id.value)].IsPrivate()
  }

  lemma RelocatedMeans(networks: seq<nat>, cs: Conversations, ids: map<Key, nat>, mappings: map<nat, CaseMapping>,
                       orders: Orders, nextId: nat, groups: seq<Group>, at: nat, other: nat, after: Conversations,
                       groupsAfter: seq<Group>)
    requires Sane(networks, cs, ids, mappings, orders, nextId) && ListedOnce(groups) && Distinct(networks)
    requires at < |cs| && MayRelocate(DisplayTree(networks, cs, groups), cs, groups, at, other)
    requires Relocated(DisplayTree(networks, cs, groups), cs, groups, at, other, after, groupsAfter)
    ensures ParentOf(DisplayTree(networks, cs, groups), other).Some?
    ensures DistinctKeys(cs) ==>
              Rehung(DisplayTree(networks, cs, groups), DisplayTree(networks, after, groupsAfter), cs[at].id,
                     ParentOf(DisplayTree(networks, cs, groups), other).value, Some(other))
  {
    hide DistinctKeys, ListedOnce, Sane, Rehung, DisplayTree, MayRelocate, Relocated, ParentOf, Distinct;
    SaneFits(networks, cs, ids, mappings, orders, nextId);
    MayRelocateThere(DisplayTree(networks, cs, groups), cs, groups, at, other);
    if DistinctKeys(cs) {
      RelocatedShows(networks, cs, groups, at, other, after, groupsAfter);
    }
  }

  lemma AfterMeans(networks: seq<nat>, cs: Conversations, ids: map<Key, nat>, mappings: map<nat, CaseMapping>,
                   orders: Orders, nextId: nat, groups: seq<Group>, id: nat, other: nat, after: Conversations,
                   groupsAfter: seq<Group>)
    requires Sane(networks, cs, ids, mappings, orders, nextId) && ListedOnce(groups) && Distinct(networks)
    requires MayMoveAfter(DisplayTree(networks, cs, groups), cs, groups, id, other)
    requires match RowAfter(DisplayTree(networks, cs, groups), other)
             case Some(next) => MoveDone(networks, cs, groups, id, ToPlace(next), after, groupsAfter)
             case None =>
               EndsRow(networks, cs, groups, id, ParentOf(DisplayTree(networks, cs, groups), other).value, after,
                       groupsAfter)
    ensures DistinctKeys(cs) ==>
              Rehung(DisplayTree(networks, cs, groups), DisplayTree(networks, after, groupsAfter), id,
                     ParentOf(DisplayTree(networks, cs, groups), other).value,
                     RowAfter(DisplayTree(networks, cs, groups), other))
  {
    hide DistinctKeys, ListedOnce, Sane, Rehung, DisplayTree, MoveGoes, MoveDone, EndsRow, RowAfter, ParentOf,
         Distinct, PlaceIn;
    SaneFits(networks, cs, ids, mappings, orders, nextId);
    if DistinctKeys(cs) {
      AfterShows(networks, cs, groups, id, other, after, groupsAfter);
    }
  }

  lemma AcrossMeans(networks: seq<nat>, cs: Conversations, ids: map<Key, nat>, mappings: map<nat, CaseMapping>,
                    orders: Orders, nextId: nat, groups: seq<Group>, id: nat, to: MoveTo, after: Conversations,
                    groupsAfter: seq<Group>)
    requires Sane(networks, cs, ids, mappings, orders, nextId) && ListedOnce(groups) && Distinct(networks)
    requires MoveGoes(DisplayTree(networks, cs, groups), cs, groups, id, to)
    requires MoveDone(networks, cs, groups, id, to, after, groupsAfter)
    ensures DistinctKeys(cs) && GoesAcross(DisplayTree(networks, cs, groups), id, to) ==>
              Rehung(DisplayTree(networks, cs, groups), DisplayTree(networks, after, groupsAfter), id,
                     ParentOf(DisplayTree(networks, cs, groups), to.other).value, Some(to.other))
  {
    hide DistinctKeys, ListedOnce, Sane, Rehung, DisplayTree, MoveGoes, MoveDone, ParentOf, Distinct;
    SaneFits(networks, cs, ids, mappings, orders, nextId);
    if DistinctKeys(cs) && GoesAcross(DisplayTree(networks, cs, groups), id, to) {
      AcrossShows(networks, cs, groups, id, to.other, after, groupsAfter);
    }
  }

  /** Whether the move is to a conversation under another heading. */
  predicate GoesAcross(tree: Tree, id: nat, to: MoveTo) {
    to.ToPlace? && ParentOf(tree, to.other).Some? && ParentOf(tree, id) != ParentOf(tree, to.other)
  }

  // ---------- Right after another one ----------

  /** `id` stands right after `other` under the heading. */
  ghost predicate StandsAfter(tree: Tree, parent: Parent, other: nat, id: nat) {
    var row := Children(tree, parent);
    exists k :: 0 < k < |row| && row[k - 1] == other && row[k] == id
  }

  /** No heading is shown twice. */
  ghost predicate HeadingsDiffer(tree: Tree) {
    && (forall i, j :: 0 <= i < j < |tree.groups| ==> tree.groups[i].0 != tree.groups[j].0)
    && forall i, j :: 0 <= i < j < |tree.servers| ==> tree.servers[i].0 != tree.servers[j].0
  }

  lemma ShownHeadingsDiffer(networks: seq<nat>, cs: Conversations, groups: seq<Group>)
    requires ListedOnce(groups) && Distinct(networks)
    ensures HeadingsDiffer(DisplayTree(networks, cs, groups))
  {
    hide Present, Filter, Grouped;
  }

  /** What hangs under a heading is shown by it. */
  lemma ShownByParent(tree: Tree, id: nat)
    requires HeadingsDiffer(tree) && ParentOf(tree, id).Some?
    ensures id in Children(tree, ParentOf(tree, id).value)
  {
    var group, server := First(tree.groups, Holds(id)), First(tree.servers, Holds(id));
    if group < |tree.groups| {
      HeadingIs(tree.groups, group);
    } else {
      HeadingIs(tree.servers, server);
    }
  }

  lemma HeadingIs(rows: seq<(nat, seq<nat>)>, at: nat)
    requires at < |rows| && forall i, j :: 0 <= i < j < |rows| ==> rows[i].0 != rows[j].0
    ensures First(rows, OfHeading(rows[at].0)) == at
  {
  }

  lemma ChildrenDistinct(networks: seq<nat>, cs: Conversations, groups: seq<Group>, parent: Parent)
    requires Unique(cs) && ListedOnce(groups)
    ensures Distinct(Children(DisplayTree(networks, cs, groups), parent))
  {
    hide Unique, Present, Filter, Grouped, First, Distinct;
    var tree := DisplayTree(networks, cs, groups);
    match parent
    case OfGroup(group) =>
      var g := First(tree.groups, OfHeading(group));
      if g < |groups| {
        assert Distinct(groups[g].members);
        PresentDistinct(cs, groups[g].members);
      } else {
        NoneDistinct();
      }
    case OfServer(network) =>
      var n := First(tree.servers, OfHeading(network));
      if n < |networks| {
        IdsDistinct(cs, Ungrouped(networks[n], Grouped(cs, groups)));
      } else {
        NoneDistinct();
      }
  }

  lemma NoneDistinct()
    ensures Distinct<nat>([])
  {
  }

  /** The row of the heading after a conversation came under it. */
  lemma RehungRow(before: Tree, after: Tree, id: nat, parent: Parent, other: Option<nat>)
    requires Rehung(before, after, id, parent, other) && id !in Children(before, parent)
    ensures
      var row := Children(before, parent);
      Children(after, parent) == InsertAt(row, if other.Some? then Position(row, other.value) else |row|, id)
  {
    hide Position, InsertAt;
    match parent
    case OfGroup(group) =>
      TakenStays(before.groups, id, group);
      GivenChildren(before.groups, TakenRows(before.groups, id), after.groups, group, id, other);
    case OfServer(network) =>
      TakenStays(before.servers, id, network);
      GivenChildren(before.servers, TakenRows(before.servers, id), after.servers, network, id, other);
  }

  lemma GivenChildren(rows: seq<(nat, seq<nat>)>, taken: seq<(nat, seq<nat>)>, after: seq<(nat, seq<nat>)>,
                      heading: nat, id: nat, other: Option<nat>)
    requires RowGiven(taken, after, heading, id, other) && |taken| == |rows|
    requires First(rows, OfHeading(heading)) == First(taken, OfHeading(heading))
    requires forall i :: 0 <= i < |rows| && id !in rows[i].1 ==> taken[i] == rows[i]
    ensures
      var (at, now) := (First(rows, OfHeading(heading)), First(after, OfHeading(heading)));
      at < |rows| && now < |after| &&
      (id !in rows[at].1 ==> after[now].1 == GivenRow(rows[at], id, other).1)
  {
    hide First, GivenRow, RowGiven;
    GivenAt(taken, after, heading, id, other);
  }

  lemma TakenStays(rows: seq<(nat, seq<nat>)>, id: nat, heading: nat)
    ensures First(rows, OfHeading(heading)) == First(TakenRows(rows, id), OfHeading(heading))
    ensures forall i :: 0 <= i < |rows| && id !in rows[i].1 ==> TakenRows(rows, id)[i] == rows[i]
  {
    hide First, Except;
    HeadingStays(rows, TakenRows(rows, id), heading);
    forall i | 0 <= i < |rows| && id !in rows[i].1
      ensures TakenRows(rows, id)[i] == rows[i]
    {
      TakenAt(rows, i, id);
    }
  }

  lemma TakenAt(rows: seq<(nat, seq<nat>)>, at: nat, id: nat)
    requires at < |rows| && id !in rows[at].1
    ensures TakenRows(rows, id)[at] == rows[at]
  {
    ExceptNone(rows[at].1, id);
  }

  lemma GivenAt(rows: seq<(nat, seq<nat>)>, after: seq<(nat, seq<nat>)>, heading: nat, id: nat, other: Option<nat>)
    requires RowGiven(rows, after, heading, id, other)
    ensures
      var at := First(rows, OfHeading(heading));
      at < |rows| == |after| && at == First(after, OfHeading(heading)) && after[at] == GivenRow(rows[at], id, other)
  {
    hide First, GivenRow;
    var at := First(rows, OfHeading(heading));
    GivenHeading(rows[at], id, other);
    HeadingStays(rows, after, heading);
  }

  lemma GivenHeading(row: (nat, seq<nat>), id: nat, other: Option<nat>)
    ensures GivenRow(row, id, other).0 == row.0
  {
  }

  lemma HeadingStays(a: seq<(nat, seq<nat>)>, b: seq<(nat, seq<nat>)>, heading: nat)
    requires |a| == |b| && forall i :: 0 <= i < |a| ==> a[i].0 == b[i].0
    ensures First(a, OfHeading(heading)) == First(b, OfHeading(heading))
  {
    hide First;
    var p := OfHeading(heading);
    var (at, now) := (First(a, p), First(b, p));
    assert forall i :: 0 <= i < |a| ==> p(a[i]) == p(b[i]);
  }

  lemma ExceptNone(s: seq<nat>, x: nat)
    requires x !in s
    ensures Except(s, x) == s
  {
    hide Filter;
    FilterAll(s, Unlike(x));
  }

  /** Before the row after `other`, or last, is right after `other`. */
  lemma AfterOther(before: Tree, after: Tree, id: nat, other: nat)
    requires HeadingsDiffer(before) && ParentOf(before, other).Some? &&
             Distinct(Children(before, ParentOf(before, other).value))
    requires id !in Children(before, ParentOf(before, other).value)
    requires Rehung(before, after, id, ParentOf(before, other).value, RowAfter(before, other))
    ensures StandsAfter(after, ParentOf(before, other).value, other, id)
  {
    hide Rehung, Children, ParentOf, Distinct, HeadingsDiffer;
    var parent := ParentOf(before, other).value;
    var row := Children(before, parent);
    var at := Position(row, other);
    ShownByParent(before, other);
    RehungRow(before, after, id, parent, RowAfter(before, other));
    if at + 1 < |row| {
      PositionIs(row, row[at + 1], at + 1);
    }
    assert Children(after, parent)[at] == other && Children(after, parent)[at + 1] == id;
  }

  lemma StandsAfterMeans(networks: seq<nat>, cs: Conversations, ids: map<Key, nat>, mappings: map<nat, CaseMapping>,
                         orders: Orders, nextId: nat, groups: seq<Group>, id: nat, other: nat, shown: Tree)
    requires Sane(networks, cs, ids, mappings, orders, nextId) && ListedOnce(groups) && Distinct(networks)
    requires MayMoveAfter(DisplayTree(networks, cs, groups), cs, groups, id, other)
    ensures var tree := DisplayTree(networks, cs, groups);
            DistinctKeys(cs) && Rehung(tree, shown, id, ParentOf(tree, other).value, RowAfter(tree, other)) ==>
              StandsAfter(shown, ParentOf(tree, other).value, other, id)
  {
    hide DistinctKeys, ListedOnce, Sane, Rehung, DisplayTree, MoveGoes, MoveDone, EndsRow, RowAfter, ParentOf, Children,
         Distinct, PlaceIn, HeadingsDiffer, StandsAfter, AllMembers;
    var tree := DisplayTree(networks, cs, groups);
    var parent := ParentOf(tree, other).value;
    SaneFits(networks, cs, ids, mappings, orders, nextId);
    ShownHeadingsDiffer(networks, cs, groups);
    ChildrenDistinct(networks, cs, groups, parent);
    if DistinctKeys(cs) && Rehung(tree, shown, id, parent, RowAfter(tree, other)) {
      if id in Children(tree, parent) {
        ChildrenHere(networks, cs, groups, parent, id);
      }
      AfterOther(tree, shown, id, other);
    }
  }

  // ---------- Moves within a heading ----------

  /** Whether a move changes the row of `id`, which shows no one twice. */
  ghost predicate RowGoes(row: seq<nat>, id: nat, to: MoveTo) {
    && id in row
    && match to
       case Up => row[0] != id
       case Down => row[|row| - 1] != id
       case ToFirst => row[0] != id
       case ToLast => row[|row| - 1] != id
       case ToPlace(other) => other in row && other != id
  }

  /** How it changes: all others keep their order, and `id` changed places
      with the one before or after it, is now first or last, or stands where
      `other` stood. */
  ghost predicate RowMoved(before: seq<nat>, after: seq<nat>, id: nat, to: MoveTo) {
    && |after| == |before| && id in after && Except(after, id) == Except(before, id)
    && match to
       case Up =>
         exists i :: 0 < i < |before| && before[i] == id && after == before[i - 1 := id][i := before[i - 1]]
       case Down =>
         exists i :: 0 < i < |before| && before[i - 1] == id && after == before[i - 1 := before[i]][i := id]
       case ToFirst => after[0] == id
       case ToLast => after[|after| - 1] == id
       case ToPlace(other) => exists i :: 0 <= i < |before| && before[i] == other && after[i] == id
  }

  lemma AimMeans(row: seq<nat>, id: nat, to: MoveTo)
    requires Distinct(row)
    ensures Aim(row, id, to).Some? <==> RowGoes(row, id, to)
    ensures Aim(row, id, to).Some? ==> RowMoved(row, Moved(row, Position(row, id), Aim(row, id, to).value), id, to)
  {
    hide Position, Except, Distinct, Moved;
    if id in row {
      var at := Position(row, id);
      PositionIs(row, row[0], 0);
      PositionIs(row, row[|row| - 1], |row| - 1);
      if Aim(row, id, to).Some? {
        var target := Aim(row, id, to).value;
        ExceptMoved(row, at, target);
        assert Moved(row, at, target)[target] == id;
        if to.Up? {
          Swapped(row, at);
        } else if to.Down? {
          Swapped(row, at + 1);
        }
      }
    }
  }

  lemma Swapped(s: seq<nat>, i: nat)
    requires 0 < i < |s|
    ensures Moved(s, i, i - 1) == s[i - 1 := s[i]][i := s[i - 1]]
    ensures Moved(s, i - 1, i) == s[i - 1 := s[i]][i := s[i - 1]]
  {
  }

  lemma ExceptMoved(s: seq<nat>, from: nat, to: nat)
    requires from < |s| && to < |s|
    ensures Except(Moved(s, from, to), s[from]) == Except(s, s[from])
  {
    hide Moved, Filter;
    MovedOthers(s, from, to, Unlike(s[from]));
  }

  /** Whether a move stays within the heading of `id`. */
  predicate StaysWithin(tree: Tree, groups: seq<Group>, id: nat, to: MoveTo) {
    groups == [] || !to.ToPlace? || ParentOf(tree, id) == ParentOf(tree, to.other)
  }

  /** The row a move within a heading is about, as `tree` and `shown` have it:
      that of the channel's group, or those of its kind under its server. */
  ghost function RowWith(tree: Tree, shown: Tree, cs: Conversations, groups: seq<Group>, c: Conversation): seq<nat> {
    var g := First(groups, HasMember(MemberOf(c)));
    if g < |groups| && g < |shown.groups| then shown.groups[g].1 else Ids(Filter(cs, SiblingOf(tree, c)))
  }

  lemma ServerRowMeans(cs: Conversations, p: Conversation -> bool, id: nat, to: MoveTo)
    requires Unique(cs)
    ensures
      var row := Ids(Filter(cs, p));
      && (Aim(row, id, to).Some? <==> RowGoes(row, id, to))
      && (Aim(row, id, to).Some? ==> RowMoved(row, Moved(row, Position(row, id), Aim(row, id, to).value), id, to))
  {
    hide Unique, Filter, Aim, RowGoes, RowMoved, Position;
    IdsDistinct(cs, p);
    AimMeans(Ids(Filter(cs, p)), id, to);
  }

  lemma PlaceMeans(cs: Conversations, p: Conversation -> bool, at: nat, to: MoveTo, after: Conversations)
    requires Unique(cs) && at < |cs| && Aim(Ids(Filter(cs, p)), cs[at].id, to).Some?
    requires MovesTo(cs, after, at, Ids(Filter(cs, p)), p, Aim(Ids(Filter(cs, p)), cs[at].id, to).value)
    ensures RowMoved(Ids(Filter(cs, p)), Ids(Filter(after, p)), cs[at].id, to)
  {
    hide Unique, Filter, Aim, RowGoes, RowMoved, Position, Moved;
    ServerRowMeans(cs, p, cs[at].id, to);
  }

  lemma GroupRowMeans(networks: seq<nat>, cs: Conversations, groups: seq<Group>, g: nat, id: nat, to: MoveTo)
    requires Unique(cs) && ListedOnce(groups) && g < |groups|
    ensures
      var row := DisplayTree(networks, cs, groups).groups[g].1;
      && (Aim(row, id, to).Some? <==> RowGoes(row, id, to))
      && (Aim(row, id, to).Some? ==> RowMoved(row, Moved(row, Position(row, id), Aim(row, id, to).value), id, to))
  {
    hide Unique, ListedOnce, Present, Aim, RowGoes, RowMoved, Position;
    ListedAt(groups, g);
    PresentDistinct(cs, groups[g].members);
    AimMeans(Present(cs, groups[g].members), id, to);
  }

  lemma GroupMoveMeans(networks: seq<nat>, cs: Conversations, groups: seq<Group>, g: nat, id: nat, to: MoveTo,
                       groupsAfter: seq<Group>)
    requires Unique(cs) && ListedOnce(groups) && g < |groups|
    requires var tree := DisplayTree(networks, cs, groups);
             var row := tree.groups[g].1;
             Aim(row, id, to).Some? &&
             RowMoves(tree, DisplayTree(networks, cs, groupsAfter), g, Position(row, id), Aim(row, id, to).value)
    ensures
      var (tree, after) := (DisplayTree(networks, cs, groups), DisplayTree(networks, cs, groupsAfter));
      g < |after.groups| && RowMoved(tree.groups[g].1, after.groups[g].1, id, to)
  {
    hide Unique, ListedOnce, Aim, RowGoes, RowMoved, Position, Moved, DisplayTree;
    GroupRowMeans(networks, cs, groups, g, id, to);
  }

  lemma WithinMeans(networks: seq<nat>, cs: Conversations, groups: seq<Group>, id: nat, to: MoveTo,
                    after: Conversations, groupsAfter: seq<Group>)
    requires Unique(cs) && ListedOnce(groups) && PlaceIn(cs, id) < |cs|
    requires StaysWithin(DisplayTree(networks, cs, groups), groups, id, to)
    ensures
      var (tree, c) := (DisplayTree(networks, cs, groups), cs[PlaceIn(cs, id)]);
      var row := RowWith(tree, tree, cs, groups, c);
      && (MoveGoes(tree, cs, groups, id, to) <==> RowGoes(row, id, to))
      && (MoveGoes(tree, cs, groups, id, to) && MoveDone(networks, cs, groups, id, to, after, groupsAfter) ==>
            RowMoved(row, RowWith(tree, DisplayTree(networks, after, groupsAfter), after, groups, c), id, to))
  {
    hide Unique, ListedOnce, Filter, Aim, RowGoes, RowMoved, Position, DisplayTree, ParentOf, SiblingOf, MemberOf,
         First,
         PlaceIn, Moved, KeepsOthers, ServerRowMoves;
    var tree, c := DisplayTree(networks, cs, groups), cs[PlaceIn(cs, id)];
    var g := First(groups, HasMember(MemberOf(c)));
    if g < |groups| {
      GroupRowMeans(networks, cs, groups, g, id, to);
    } else {
      ServerRowMeans(cs, SiblingOf(tree, c), id, to);
    }
  }

  lemma MoveMeans(networks: seq<nat>, cs: Conversations, ids: map<Key, nat>, mappings: map<nat, CaseMapping>,
                  orders: Orders, nextId: nat, groups: seq<Group>, id: nat, to: MoveTo, after: Conversations,
                  groupsAfter: seq<Group>)
    requires Sane(networks, cs, ids, mappings, orders, nextId) && ListedOnce(groups) && PlaceIn(cs, id) < |cs|
    ensures
      var (tree, c) := (DisplayTree(networks, cs, groups), cs[PlaceIn(cs, id)]);
      var row := RowWith(tree, tree, cs, groups, c);
      StaysWithin(tree, groups, id, to) ==>
        && (MoveGoes(tree, cs, groups, id, to) <==> RowGoes(row, id, to))
        && (MoveGoes(tree, cs, groups, id, to) && MoveDone(networks, cs, groups, id, to, after, groupsAfter) ==>
              RowMoved(row, RowWith(tree, DisplayTree(networks, after, groupsAfter), after, groups, c), id, to))
  {
    hide ListedOnce, Sane, RowGoes, RowMoved, RowWith, DisplayTree, MoveGoes, MoveDone, StaysWithin, PlaceIn;
    SaneFits(networks, cs, ids, mappings, orders, nextId);
    if StaysWithin(DisplayTree(networks, cs, groups), groups, id, to) {
      WithinMeans(networks, cs, groups, id, to, after, groupsAfter);
    }
  }
}
