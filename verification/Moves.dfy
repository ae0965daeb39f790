/** What the operations on the channel tree rest on: which moves are possible
    and what they change, and that each operation keeps the layout, the index,
    the ranks and the groups. */
module Moves {
  import opened Text
  import opened Names
  import opened Lists
  import opened Layout
  import opened Groups
  import ChannelOrder

  const MAX_GROUPS := 64
  const MAX_GROUP_MEMBERS := 2_000

  datatype Config = Config(network: nat, channels: seq<string>)

  datatype GroupSpec = GroupSpec(name: string, members: seq<Member>)

  /** Each channel is listed once over all groups, which differ in id and
      name. */
  ghost predicate ListedOnce(groups: seq<Group>) {
    && (forall i :: 0 <= i < |groups| ==> Distinct(groups[i].members))
    && (forall i, j, m :: 0 <= i < j < |groups| && m in groups[i].members ==> m !in groups[j].members)
    && forall i, j :: 0 <= i < j < |groups| ==> groups[i].id != groups[j].id && groups[i].name != groups[j].name
  }

  lemma {:induction false} ListedOnceIsDistinct(groups: seq<Group>)
    requires ListedOnce(groups)
    ensures Distinct(AllMembers(groups))
  {
    if groups != [] {
      var before, last := groups[..|groups| - 1], groups[|groups| - 1];
      ListedOnceIsDistinct(before);
      forall m | m in AllMembers(before) ensures m !in last.members {
        MemberOfSome(before, m);
        var i :| 0 <= i < |before| && m in before[i].members;
        assert groups[i] == before[i];
      }
      DistinctJoin(AllMembers(before), last.members);
    }
  }

  /** In every state the tree shows each conversation exactly once. */
  lemma TreeShowsOnce(networks: seq<nat>, cs: Conversations, ids: map<Key, nat>, mappings: map<nat, CaseMapping>,
                      orders: Orders, nextId: nat,
                      groups: seq<Group>, c: Conversation)
    requires Sane(networks, cs, ids, mappings, orders, nextId) && Distinct(networks) && ListedOnce(groups) && c in cs
    ensures multiset(Shown(DisplayTree(networks, cs, groups)))[c.id] == 1
  {
    hide ListedOnce, Unique, Indexed, OrdersFit, Shown, DisplayTree, AllMembers;
    ListedOnceIsDistinct(groups);
    InNetworks(networks, cs);
    ShownOnce(networks, cs, groups, c);
  }

  lemma DistinctJoin<T(!new)>(a: seq<T>, b: seq<T>)
    requires Distinct(a) && Distinct(b) && forall x :: x in a ==> x !in b
    ensures Distinct(a + b)
  {
    var s := a + b;
    forall i, j | 0 <= i < j < |s| ensures s[i] != s[j] {
      if i < |a| <= j {
        assert s[i] in a && s[j] == b[j - |a|] && s[j] in b;
      }
    }
  }

  // ---------- What a move is ----------

  /** A move goes to another heading, or stays within a group or a server. */
  datatype MoveKind = Across | WithinGroup | WithinServer

  function KindOf(tree: Tree, groups: seq<Group>, c: Conversation, to: MoveTo): MoveKind {
    if groups != [] && to.ToPlace? && ParentOf(tree, c.id) != ParentOf(tree, to.other) then Across
    else if groups != [] && First(groups, HasMember(MemberOf(c))) < |groups| then WithinGroup
    else WithinServer
  }

  /** When a move changes anything. */
  ghost predicate MoveGoes(tree: Tree, cs: Conversations, groups: seq<Group>, id: nat, to: MoveTo) {
    var at := PlaceIn(cs, id);
    && at < |cs|
    && match KindOf(tree, groups, cs[at], to)
       case Across => to.ToPlace? && MayRelocate(tree, cs, groups, at, to.other)
       case WithinGroup =>
         var g := First(groups, HasMember(MemberOf(cs[at])));
         g < |tree.groups| && Aim(tree.groups[g].1, id, to).Some?
       case WithinServer => Aim(Ids(Filter(cs, SiblingOf(tree, cs[at]))), id, to).Some?
  }

  lemma NothingGoes(tree: Tree, cs: Conversations, groups: seq<Group>, id: nat, to: MoveTo)
    requires PlaceIn(cs, id) == |cs|
    ensures !MoveGoes(tree, cs, groups, id, to)
  {
    hide PlaceIn, DisplayTree, Filter, Aim;
  }

  /** What it changes: the conversation goes where the move says among those
      shown, and everything else shown stays. */
  ghost predicate MoveDone(networks: seq<nat>, cs: Conversations, groups: seq<Group>, id: nat, to: MoveTo,
                           after: Conversations, groupsAfter: seq<Group>)
    requires MoveGoes(DisplayTree(networks, cs, groups), cs, groups, id, to)
  {
    var tree, at := DisplayTree(networks, cs, groups), PlaceIn(cs, id);
    match KindOf(tree, groups, cs[at], to)
    case Across => Relocated(tree, cs, groups, at, to.other, after, groupsAfter)
    case WithinGroup =>
      var row := tree.groups[First(groups, HasMember(MemberOf(cs[at])))].1;
      && after == cs
      && RowMoves(tree, DisplayTree(networks, after, groupsAfter), First(groups, HasMember(MemberOf(cs[at]))),
                  Position(row, id), Aim(row, id, to).value)
    case WithinServer =>
      var p := SiblingOf(tree, cs[at]);
      var siblings := Ids(Filter(cs, p));
      && groupsAfter == groups && MovesTo(cs, after, at, siblings, p, Aim(siblings, id, to).value)
      && KeepsOthers(cs, after, at)
      && (DistinctKeys(cs) ==>
            ServerRowMoves(tree, DisplayTree(networks, after, groups), cs[at].network, id,
                           siblings[Aim(siblings, id, to).value]))
  }

  /** The row after `other` under its heading, if there is one. */
  function RowAfter(tree: Tree, other: nat): (next: Option<nat>) {
    if ParentOf(tree, other).None? then None
    else
      var siblings := Children(tree, ParentOf(tree, other).value);
      var at := Position(siblings, other);
      if at + 1 < |siblings| then Some(siblings[at + 1]) else None
  }

  /** Whether a conversation may be moved right after `other`. */
  ghost predicate MayMoveAfter(tree: Tree, cs: Conversations, groups: seq<Group>, id: nat, other: nat) {
    var at, target, parent := PlaceIn(cs, id), PlaceIn(cs, other), ParentOf(tree, other);
    && at < |cs| && parent.Some? && ParentOf(tree, id).Some? && ParentOf(tree, id) != parent
    && match RowAfter(tree, other)
       case Some(next) => MoveGoes(tree, cs, groups, id, ToPlace(next))
       case None =>
         && target < |cs| && cs[target].IsPrivate() == cs[at].IsPrivate()
         && match parent.value
            case OfGroup(group) => MayJoin(cs, groups, at, group)
            case OfServer(network) => cs[at].network == network && MemberOf(cs[at]) in AllMembers(groups)
  }

  /** What moving right after `other` changes when that is the last row of its
      heading: the conversation goes to the end of the group, or back to the
      end of its server. */
  ghost predicate EndsRow(networks: seq<nat>, cs: Conversations, groups: seq<Group>, id: nat, parent: Parent,
                          after: Conversations, groupsAfter: seq<Group>)
    requires PlaceIn(cs, id) < |cs|
  {
    var m := MemberOf(cs[PlaceIn(cs, id)]);
    var left := WithoutMember(groups, m);
    match parent
    case OfGroup(group) =>
      var g := First(groups, WithGroupId(group));
      after == cs && g < |groups| &&
      groupsAfter == left[g := left[g].(members := InsertAt(left[g].members, |left[g].members|, m))]
    case OfServer(network) =>
      && cs[PlaceIn(cs, id)].network == network && m in AllMembers(groups)
      && if MoveGoes(DisplayTree(networks, cs, left), cs, left, id, ToLast)
         then MoveDone(networks, cs, left, id, ToLast, after, groupsAfter)
         else after == cs && groupsAfter == left
  }

  function PlaceIn(cs: Conversations, id: nat): (at: nat)
    ensures at <= |cs| && (at < |cs| ==> cs[at].id == id)
    ensures at == |cs| ==> forall c :: c in cs ==> c.id != id
  {
    First(cs, WithId(id))
  }

  /** Where a member goes: before the anchor's member, or at the end. */
  function AnchorIn(cs: Conversations, members: seq<Member>, before: Option<nat>): (at: nat)
    ensures at <= |members|
  {
    if before.None? || PlaceIn(cs, before.value) == |cs| then |members|
    else Position(members, MemberOf(cs[PlaceIn(cs, before.value)]))
  }

  /** Whether a conversation may be put before another under another heading:
      into a group with room, or back to its own server, and only beside its
      own kind. */
  ghost predicate MayRelocate(tree: Tree, cs: Conversations, groups: seq<Group>, at: nat, other: nat)
    requires at < |cs|
  {
    var from, to := ParentOf(tree, cs[at].id), ParentOf(tree, other);
    && from.Some? && to.Some? && from != to
    && PlaceIn(cs, other) < |cs| && cs[PlaceIn(cs, other)].IsPrivate() == cs[at].IsPrivate()
    && match to.value
       case OfServer(network) => cs[at].network == network
       case OfGroup(group) => MayJoin(cs, groups, at, group)
  }

  ghost predicate MayJoin(cs: Conversations, groups: seq<Group>, at: nat, group: nat)
    requires at < |cs|
  {
    var g := First(groups, WithGroupId(group));
    && !cs[at].IsPrivate() && g < |groups|
    && (|groups[g].members| < MAX_GROUP_MEMBERS || MemberOf(cs[at]) in groups[g].members)
  }

  /** The conversation left its group and stands right before `other`: in the
      group that shows `other`, or under its own server. */
  ghost predicate Relocated(tree: Tree, cs: Conversations, groups: seq<Group>, at: nat, other: nat,
                            after: Conversations, groupsAfter: seq<Group>)
    requires at < |cs| && MayRelocate(tree, cs, groups, at, other)
  {
    var m := MemberOf(cs[at]);
    var left := WithoutMember(groups, m);
    match ParentOf(tree, other).value
    case OfGroup(group) =>
      var g := First(groups, WithGroupId(group));
      after == cs &&
      groupsAfter ==
        left[g := left[g].(members := InsertAt(left[g].members, AnchorIn(cs, left[g].members, Some(other)), m))]
    case OfServer(network) => groupsAfter == left && MovedBefore(cs, after, at, other)
  }

  lemma SaneFits(networks: seq<nat>, cs: Conversations, ids: map<Key, nat>, mappings: map<nat, CaseMapping>,
                 orders: Orders, nextId: nat)
    requires Sane(networks, cs, ids, mappings, orders, nextId)
    ensures OrdersFit(orders) && Unique(cs) && LaidOut(networks, cs)
  {
  }

  lemma IndexFinds(networks: seq<nat>, cs: Conversations, ids: map<Key, nat>, mappings: map<nat, CaseMapping>,
                   orders: Orders, nextId: nat, key: Key)
    requires Sane(networks, cs, ids, mappings, orders, nextId)
    ensures key in ids <==> exists c :: c in cs && !c.IsPrivate() && KeyOf(mappings, c) == key
    ensures key in ids ==> exists c :: c in cs && !c.IsPrivate() && KeyOf(mappings, c) == key && c.id == ids[key]
  {
    hide KeyOf, LaidOut, Unique, OrdersFit;
    if key in ids {
      assert Reaches(cs, mappings, key, ids[key]);
    }
  }

  lemma OthersRemain(cs: Conversations, at: nat, c: Conversation)
    requires at < |cs|
    ensures forall d :: d in cs && d != cs[at] ==> d in cs[at := c]
  {
    forall d | d in cs && d != cs[at] ensures d in cs[at := c] {
      var i :| 0 <= i < |cs| && cs[i] == d;
      assert cs[at := c][i] == d;
    }
  }

  ghost predicate HasChannel(cs: Conversations, network: nat, name: string) {
    exists id :: Conversation(id, network, None, name) in cs
  }

  /** A channel configured for its network. */
  ghost predicate Listed(configs: seq<Config>, c: Conversation) {
    c.peer.None? && exists k :: 0 <= k < |configs| && configs[k].network == c.network && c.name in configs[k].channels
  }

  lemma StillHasChannels(before: Conversations, cs: Conversations, network: nat, names: seq<string>)
    requires forall c :: c in before ==> c in cs
    ensures forall k :: 0 <= k < |names| && HasChannel(before, network, names[k]) ==> HasChannel(cs, network, names[k])
  {
    forall k | 0 <= k < |names| && HasChannel(before, network, names[k]) ensures HasChannel(cs, network, names[k]) {
      var id :| Conversation(id, network, None, names[k]) in before;
      assert Conversation(id, network, None, names[k]) in cs;
    }
  }

  /** A new conversation leaves every other network's as they were. */
  lemma AddKeepsRows(cs: Conversations, at: nat, c: Conversation)
    requires at <= |cs|
    ensures forall n :: n != c.network ==> Filter(InsertAt(cs, at, c), OfNetwork(n)) == Filter(cs, OfNetwork(n))
    ensures |Filter(InsertAt(cs, at, c), OfNetwork(c.network))| == |Filter(cs, OfNetwork(c.network))| + 1
  {
    hide Filter, InsertAt;
    forall n ensures n != c.network ==> Filter(InsertAt(cs, at, c), OfNetwork(n)) == Filter(cs, OfNetwork(n)) {
      FilterInserted(cs, at, c, OfNetwork(n));
    }
    FilterInserted(cs, at, c, OfNetwork(c.network));
  }

  lemma DropKeepsRows(cs: Conversations, network: nat)
    ensures forall n :: n != network ==> Filter(Filter(cs, NotOf(network)), OfNetwork(n)) == Filter(cs, OfNetwork(n))
  {
    hide Filter;
    forall n | n != network ensures Filter(Filter(cs, NotOf(network)), OfNetwork(n)) == Filter(cs, OfNetwork(n)) {
      FilterTwice(cs, NotOf(network), OfNetwork(n));
    }
  }

  lemma SortKeepsRows(cs: Conversations, networks: seq<nat>)
    ensures forall n :: Filter(SortBy(cs, NetworkPlace(networks)), OfNetwork(n)) == Filter(cs, OfNetwork(n))
  {
    hide Filter, SortBy;
    forall n ensures Filter(SortBy(cs, NetworkPlace(networks)), OfNetwork(n)) == Filter(cs, OfNetwork(n)) {
      SortIsStable(cs, NetworkPlace(networks), OfNetwork(n));
    }
  }

  /** Groups that differ only in members of other networks than these. */
  ghost predicate AgreeOn(networks: seq<nat>, a: seq<Group>, b: seq<Group>) {
    |a| == |b| && forall i :: 0 <= i < |a| ==>
      a[i].id == b[i].id && a[i].name == b[i].name &&
      Filter(a[i].members, OfNetworks(networks)) == Filter(b[i].members, OfNetworks(networks))
  }

  lemma DropKeepsMembers(networks: seq<nat>, before: seq<Group>, groups: seq<Group>, network: nat)
    requires AgreeOn(networks, before, groups) && network !in networks
    ensures AgreeOn(networks, before, WithoutNetwork(groups, network))
  {
    hide Filter;
    forall i | 0 <= i < |groups|
      ensures Filter(Filter(groups[i].members, Elsewhere(network)), OfNetworks(networks)) ==
                Filter(groups[i].members, OfNetworks(networks))
    {
      FilterTwice(groups[i].members, Elsewhere(network), OfNetworks(networks));
    }
  }

  function NetworksOf(configs: seq<Config>): (r: seq<nat>)
    ensures |r| == |configs| && forall i :: 0 <= i < |r| ==> r[i] == configs[i].network
  {
    seq(|configs|, i requires 0 <= i < |configs| => configs[i].network)
  }

  lemma DistinctNetworks(configs: seq<Config>)
    requires forall i, j :: 0 <= i < j < |configs| ==> configs[i].network != configs[j].network
    ensures Distinct(NetworksOf(configs))
  {
  }

  lemma InNetworks(networks: seq<nat>, cs: Conversations)
    requires LaidOut(networks, cs)
    ensures forall c :: c in cs ==> c.network in networks
  {
  }

  // ---------- Groups without a network ----------

  function Elsewhere(network: nat): Member -> bool {
    (m: Member) => m.network != network
  }

  function WithoutNetwork(groups: seq<Group>, network: nat): (r: seq<Group>)
    ensures |r| == |groups|
    ensures forall i :: 0 <= i < |r| ==> r[i] == groups[i].(members := Filter(groups[i].members, Elsewhere(network)))
  {
    seq(|groups|, i requires 0 <= i < |groups| => groups[i].(members := Filter(groups[i].members, Elsewhere(network))))
  }

  lemma ListedOnceWithout(groups: seq<Group>, network: nat)
    requires ListedOnce(groups)
    ensures ListedOnce(WithoutNetwork(groups, network))
  {
    hide Filter;
    forall i | 0 <= i < |groups| ensures Distinct(WithoutNetwork(groups, network)[i].members) {
      FilterDistinct(groups[i].members, Elsewhere(network));
    }
  }

  // ---------- Orders ----------

  lemma OrderDropped(networks: seq<nat>, cs: Conversations, ids: map<Key, nat>, mappings: map<nat, CaseMapping>,
                     orders: Orders, nextId: nat, network: nat)
    requires Sane(networks, cs, ids, mappings, orders, nextId)
    ensures Sane(networks, cs, ids, mappings, orders - {network}, nextId)
    ensures forall n :: n != network ==> OrderOf(orders - {network}, n) == OrderOf(orders, n)
  {
    hide LaidOut, Unique, Indexed;
    assert forall n :: OrderOf(orders - {network}, n) == if n == network then [] else OrderOf(orders, n);
  }

  lemma OrderChanged(networks: seq<nat>, cs: Conversations, ids: map<Key, nat>, mappings: map<nat, CaseMapping>,
                     orders: Orders, nextId: nat, network: nat, order: seq<string>)
    requires Sane(networks, cs, ids, mappings, orders, nextId) && |order| <= ChannelOrder.MAX_ORDER_NAMES
    ensures
      var after := if order == [] then orders - {network} else orders[network := order];
      && Sane(networks, cs, ids, mappings, after, nextId)
      && OrderOf(after, network) == order && forall n :: n != network ==> OrderOf(after, n) == OrderOf(orders, n)
  {
    hide LaidOut, Unique, Indexed;
    var after := if order == [] then orders - {network} else orders[network := order];
    assert forall n :: OrderOf(after, n) == if n == network then order else OrderOf(orders, n);
  }

  lemma DistinctPrefix(s: seq<string>, r: seq<string>)
    requires Distinct(s) && r <= s
    ensures Distinct(r)
  {
    assert forall i :: 0 <= i < |r| ==> r[i] == s[i];
  }

  lemma RanksByFilter(cs: Conversations, r: Conversations, orders: Orders)
    requires OrdersFit(orders) && forall n :: Filter(r, ChannelOf(n)) == Filter(cs, ChannelOf(n))
    ensures forall n :: Ranked(cs, orders, n) ==> Ranked(r, orders, n)
  {
    hide Filter;
    forall n ensures ChannelNames(r, n) == ChannelNames(cs, n) {
      assert Filter(r, ChannelOf(n)) == Filter(cs, ChannelOf(n));
    }
  }

  /** No two channels of the network share a name in ASCII lowercase. */
  ghost predicate Apart(cs: Conversations, network: nat) {
    forall c, d ::
      c in cs && d in cs && ChannelOf(network)(c) && ChannelOf(network)(d) &&
      ToAsciiLower(c.name) == ToAsciiLower(d.name) ==>
        c == d
  }

  ghost predicate RankedIn(cs: Conversations, orders: Orders, network: nat) {
    OrdersFit(orders) && Ranked(cs, orders, network)
  }

  /** The channels of every network whose channel names are distinct are
      sorted by their ranks in its chosen order. */
  ghost predicate Arranged(cs: Conversations, orders: Orders) {
    forall n :: Apart(cs, n) ==> RankedIn(cs, orders, n)
  }

  lemma ApartIsDistinct(cs: Conversations, network: nat)
    requires Unique(cs) && Apart(cs, network)
    ensures Distinct(ChannelNames(cs, network))
  {
    hide Unique, Filter;
    var row := Filter(cs, ChannelOf(network));
    forall i, j | 0 <= i < j < |row| && ToAsciiLower(row[i].name) == ToAsciiLower(row[j].name) ensures false {
      FilterPositions(cs, ChannelOf(network), i, j);
      var k, m :| 0 <= k < m < |cs| && cs[k] == row[i] && cs[m] == row[j];
      assert row[i] in row && row[j] in row;
      UniqueAt(cs, k, m);
    }
  }

  /** With the channels of a network still there, names distinct now were
      distinct before. */
  lemma ApartBefore(cs: Conversations, r: Conversations, network: nat)
    requires Apart(r, network) && forall c :: c in cs && ChannelOf(network)(c) ==> c in r
    ensures Apart(cs, network)
  {
  }

  lemma ArrangedStays(cs: Conversations, orders: Orders, r: Conversations, orders': Orders)
    requires Arranged(cs, orders) && forall n :: RankedIn(cs, orders, n) ==> RankedIn(r, orders', n)
    requires forall c :: c in cs && !c.IsPrivate() ==> c in r
    ensures Arranged(r, orders')
  {
    hide RankedIn, Apart;
    forall n | Apart(r, n) ensures RankedIn(r, orders', n) {
      ApartBefore(cs, r, n);
    }
  }

  /** Only one network's channels, sorted now when they are distinct, were
      rearranged, added or removed. */
  lemma ArrangedBut(cs: Conversations, orders: Orders, r: Conversations, orders': Orders, network: nat)
    requires Arranged(cs, orders) && forall n :: n != network && RankedIn(cs, orders, n) ==> RankedIn(r, orders', n)
    requires forall c :: c in cs && !c.IsPrivate() && c.network != network ==> c in r
    requires Apart(r, network) ==> RankedIn(r, orders', network)
    ensures Arranged(r, orders')
  {
    hide RankedIn, Apart;
    forall n | Apart(r, n) ensures RankedIn(r, orders', n) {
      if n != network {
        ApartBefore(cs, r, n);
      }
    }
  }

  lemma RearrangedIsArranged(networks: seq<nat>, cs: Conversations, orders: Orders, r: Conversations,
                             ids: map<Key, nat>,
                             mappings: map<nat, CaseMapping>, orders': Orders, nextId: nat, network: nat)
    requires Arranged(cs, orders) && Sane(networks, r, ids, mappings, orders', nextId) && multiset(r) == multiset(cs)
    requires forall n :: n != network && RankedIn(cs, orders, n) ==> RankedIn(r, orders', n)
    requires Distinct(ChannelNames(r, network)) ==> RankedIn(r, orders', network)
    ensures Arranged(r, orders')
  {
    hide RankedIn, Apart, Arranged, Sane, ChannelNames, Distinct;
    SaneFits(networks, r, ids, mappings, orders', nextId);
    SameElements(r, cs);
    if Apart(r, network) {
      ApartIsDistinct(r, network);
    }
    ArrangedBut(cs, orders, r, orders', network);
  }

  lemma AbsentIsRanked(cs: Conversations, orders: Orders, networks: seq<nat>)
    requires OrdersFit(orders) && forall c :: c in cs ==> c.network in networks
    ensures forall n :: n !in networks ==> RankedIn(cs, orders, n)
  {
    forall n | n !in networks ensures RankedIn(cs, orders, n) {
      assert forall i :: 0 <= i < |cs| ==> cs[i] in cs;
      ChannellessIsRanked(cs, orders, n);
    }
  }

  lemma DropIsRanked(cs: Conversations, orders: Orders, network: nat)
    requires OrdersFit(orders)
    ensures RankedIn(Filter(cs, NotOf(network)), orders, network)
  {
    hide Filter;
    NamesDropped(cs, network, network);
  }

  lemma UnorderedIsRanked(cs: Conversations, orders: Orders, network: nat)
    requires OrdersFit(orders) && OrderOf(orders, network) == []
    ensures Ranked(cs, orders, network)
  {
    hide ChannelNames;
    UnlistedRanks(ChannelNames(cs, network), "");
  }

  lemma ChannellessIsRanked(cs: Conversations, orders: Orders, network: nat)
    requires OrdersFit(orders) && First(cs, ChannelOf(network)) == |cs|
    ensures Ranked(cs, orders, network)
  {
    NoChannels(cs, 0, ChannelOf(network));
  }

  function NotChannelOf(network: nat): Conversation -> bool {
    (c: Conversation) => c.network != network || c.IsPrivate()
  }

  function RankOf(order: seq<string>): Conversation -> int
    requires |order| <= ChannelOrder.MAX_ORDER_NAMES
  {
    (c: Conversation) => ChannelOrder.Rank(order, ToAsciiLower(c.name))
  }

  /** The first run of channels of a network holds all of them. */
  lemma ChannelRun(networks: seq<nat>, cs: Conversations, network: nat, start: nat, end: nat)
    requires LaidOut(networks, cs) && start == First(cs, ChannelOf(network)) < |cs|
    requires end == start + First(cs[start..], NotChannelOf(network))
    ensures start <= end <= |cs| && network in networks
    ensures forall i :: 0 <= i < |cs| ==> (ChannelOf(network)(cs[i]) <==> start <= i < end)
    ensures forall i :: start <= i < end ==> Place(networks, cs[i]) == 2 * Position(networks, network)
  {
    hide LaidOut, Place;
    assert ChannelOf(network)(cs[start]);
    InNetworks(networks, cs);
    var k := First(cs[start..], NotChannelOf(network));
    assert end < |cs| ==> cs[start..][k] == cs[end] && NotChannelOf(network)(cs[end]);
    forall i | start <= i < end
      ensures ChannelOf(network)(cs[i]) && Place(networks, cs[i]) == 2 * Position(networks, network) {
      assert cs[start..][i - start] == cs[i] && !NotChannelOf(network)(cs[start..][i - start]);
      ChannelPlace(networks, cs[i]);
    }
    forall i | end <= i < |cs| ensures !ChannelOf(network)(cs[i]) {
      if ChannelOf(network)(cs[i]) {
        PlaceBetween(networks, cs, Conversation(0, network, None, ""), start, end, i);
        assert false;
      }
    }
  }

  lemma ChannelPlace(networks: seq<nat>, c: Conversation)
    requires !c.IsPrivate()
    ensures Place(networks, c) == 2 * Position(networks, c.network)
  {
  }

  lemma ApplyIsSane(networks: seq<nat>, cs: Conversations, ids: map<Key, nat>, mappings: map<nat, CaseMapping>,
                    orders: Orders, nextId: nat,
                    network: nat, start: nat, end: nat)
    requires Sane(networks, cs, ids, mappings, orders, nextId) && start <= end <= |cs| &&
             |OrderOf(orders, network)| <= ChannelOrder.MAX_ORDER_NAMES
    requires forall i :: 0 <= i < |cs| ==> (ChannelOf(network)(cs[i]) <==> start <= i < end)
    requires forall i :: start <= i < end ==> Place(networks, cs[i]) == 2 * Position(networks, network)
    ensures
      var r := cs[..start] + SortBy(cs[start..end], RankOf(OrderOf(orders, network))) + cs[end..];
      && Sane(networks, r, ids, mappings, orders, nextId) && multiset(r) == multiset(cs)
      && OrdersFit(orders) && Ranked(r, orders, network) && forall n :: Ranked(cs, orders, n) ==> Ranked(r, orders, n)
  {
    hide Sane, SortBy, Place, Filter, LaidOut, Ranked, ChannelNames, OrdersFit;
    SaneFits(networks, cs, ids, mappings, orders, nextId);
    var part := SortBy(cs[start..end], RankOf(OrderOf(orders, network)));
    var r := cs[..start] + part + cs[end..];
    RearrangedKeepsLayout(networks, cs, start, end, part, 2 * Position(networks, network));
    RearrangedIsSane(networks, networks, cs, r, ids, mappings, orders, nextId);
    AppliedRanks(cs, orders, network, start, end, part, r);
  }

  lemma PartIsChannels(cs: Conversations, start: nat, end: nat, part: Conversations, network: nat)
    requires start <= end <= |cs| && multiset(part) == multiset(cs[start..end])
    requires forall i :: 0 <= i < |cs| ==> (ChannelOf(network)(cs[i]) <==> start <= i < end)
    ensures |part| == end - start && forall i :: 0 <= i < |part| ==> ChannelOf(network)(part[i])
  {
    SameElements(part, cs[start..end]);
    forall i | 0 <= i < |part| ensures ChannelOf(network)(part[i]) {
      assert part[i] in part;
      var k :| 0 <= k < end - start && cs[start..end][k] == part[i];
      assert cs[start + k] == part[i];
    }
  }

  /** Only the network's channels are arranged anew: stably, by rank. */
  lemma AppliedRow(cs: Conversations, order: seq<string>, network: nat, start: nat, end: nat)
    requires start <= end <= |cs| && |order| <= ChannelOrder.MAX_ORDER_NAMES
    requires forall i :: 0 <= i < |cs| ==> (ChannelOf(network)(cs[i]) <==> start <= i < end)
    ensures
      var r := cs[..start] + SortBy(cs[start..end], RankOf(order)) + cs[end..];
      && Filter(r, ChannelOf(network)) == SortBy(Filter(cs, ChannelOf(network)), RankOf(order))
      && Filter(r, NotChannelOf(network)) == Filter(cs, NotChannelOf(network))
  {
    hide SortBy, Filter;
    var part := SortBy(cs[start..end], RankOf(order));
    var r := cs[..start] + part + cs[end..];
    PartIsChannels(cs, start, end, part, network);
    PartIsFilter(cs, start, end, part, r, network);
    OnlyBetween(cs, start, end, ChannelOf(network));
    OthersFilter(cs, start, end, part, r, NotChannelOf(network));
  }

  lemma UnorderedStays(s: Conversations)
    ensures SortBy(s, RankOf([])) == s
  {
    hide SortBy, Filter;
    var all := (c: Conversation) => true;
    SortIsStable(s, RankOf([]), all);
    FilterAll(s, all);
    FilterAll(SortBy(s, RankOf([])), all);
  }

  lemma AppliedRanks(cs: Conversations, orders: Orders, network: nat, start: nat, end: nat, part: Conversations,
                     r: Conversations)
    requires OrdersFit(orders) && start <= end <= |cs| && |OrderOf(orders, network)| <= ChannelOrder.MAX_ORDER_NAMES
    requires part == SortBy(cs[start..end], RankOf(OrderOf(orders, network))) && r == cs[..start] + part + cs[end..]
    requires forall i :: 0 <= i < |cs| ==> (ChannelOf(network)(cs[i]) <==> start <= i < end)
    ensures Ranked(r, orders, network) && forall n :: Ranked(cs, orders, n) ==> Ranked(r, orders, n)
  {
    hide SortBy, Filter, OrdersFit;
    PartIsChannels(cs, start, end, part, network);
    PartIsFilter(cs, start, end, part, r, network);
    forall i, j | 0 <= i < j < |part|
      ensures ChannelOrder.Rank(OrderOf(orders, network),
                                ToAsciiLower(part[i].name)) <= ChannelOrder.Rank(OrderOf(orders, network),
                                                                                 ToAsciiLower(part[j].name))
    {
      assert RankOf(OrderOf(orders, network))(part[i]) <= RankOf(OrderOf(orders, network))(part[j]);
    }
    forall n | n != network && Ranked(cs, orders, n) ensures Ranked(r, orders, n) {
      OthersFilter(cs, start, end, part, r, ChannelOf(n));
      assert ChannelNames(r, n) == ChannelNames(cs, n);
    }
  }

  lemma PartIsFilter(cs: Conversations, start: nat, end: nat, part: Conversations, r: Conversations, network: nat)
    requires start <= end <= |cs| && r == cs[..start] + part + cs[end..] && |part| == end - start
    requires forall i :: 0 <= i < |cs| ==> (ChannelOf(network)(cs[i]) <==> start <= i < end)
    requires forall i :: 0 <= i < |part| ==> ChannelOf(network)(part[i])
    ensures Filter(r, ChannelOf(network)) == part
  {
    hide Filter;
    OnlyMiddle(r, cs[..start], part, cs[end..], ChannelOf(network));
  }

  lemma OthersFilter(cs: Conversations, start: nat, end: nat, part: Conversations, r: Conversations,
                     p: Conversation -> bool)
    requires start <= end <= |cs| && r == cs[..start] + part + cs[end..] && |part| == end - start
    requires forall i :: start <= i < end ==> !p(cs[i])
    requires forall i :: 0 <= i < |part| ==> !p(part[i])
    ensures Filter(r, p) == Filter(cs, p)
  {
    hide Filter, Joined;
    CutMiddle(cs, start, end);
    SkipMiddle(cs, cs[..start], cs[start..end], cs[end..], p);
    JoinedIs(r, cs[..start], part, cs[end..]);
    SkipMiddle(r, cs[..start], part, cs[end..], p);
  }

  lemma JoinedIs(r: Conversations, a: Conversations, b: Conversations, c: Conversations)
    requires r == a + b + c
    ensures Joined(r, a, b, c)
  {
  }

  lemma SkipMiddle(cs: Conversations, a: Conversations, b: Conversations, c: Conversations, p: Conversation -> bool)
    requires Joined(cs, a, b, c) && forall i :: 0 <= i < |b| ==> !p(b[i])
    ensures Filter(cs, p) == Filter(a, p) + Filter(c, p)
  {
    hide Filter;
    FilterSplit(a + b, c, p);
    FilterSplit(a, b, p);
    FilterAll(b, p);
    assert Filter(a, p) + [] == Filter(a, p);
  }

  // ---------- Indexing anew ----------

  /** Line `i` is the network's first channel with its key. */
  ghost predicate IsFirst(cs: Conversations, mappings: map<nat, CaseMapping>, network: nat, i: nat)
    requires i < |cs|
  {
    ChannelOf(network)(cs[i]) &&
    forall j :: 0 <= j < i && ChannelOf(network)(cs[j]) ==> KeyOf(mappings, cs[j]) != KeyOf(mappings, cs[i])
  }

  /** The first `n` conversations of the network are indexed, and everything
      outside it. */
  ghost predicate IndexedUpTo(cs: Conversations, ids: map<Key, nat>, mappings: map<nat, CaseMapping>, network: nat,
                              n: nat)
    requires n <= |cs|
  {
    && (forall c :: c in cs && !c.IsPrivate() && c.network != network ==> KeyOf(mappings, c) in ids)
    && (forall key :: key in ids ==> Reaches(cs, mappings, key, ids[key]))
    && (forall key :: key in ids && key.0 == network ==> HasKey(cs, mappings, network, n, key))
    && forall j :: 0 <= j < n && ChannelOf(network)(cs[j]) ==> FirstReached(cs, ids, mappings, network, j)
  }

  ghost predicate HasKey(cs: Conversations, mappings: map<nat, CaseMapping>, network: nat, n: nat, key: Key)
    requires n <= |cs|
  {
    exists j :: 0 <= j < n && ChannelOf(network)(cs[j]) && KeyOf(mappings, cs[j]) == key
  }

  /** The key of conversation `j` is indexed, and reaches `j` itself when it is
      the first with it. */
  ghost predicate FirstReached(cs: Conversations, ids: map<Key, nat>, mappings: map<nat, CaseMapping>, network: nat,
                               j: nat)
    requires j < |cs|
  {
    KeyOf(mappings, cs[j]) in ids && (IsFirst(cs, mappings, network, j) ==> ids[KeyOf(mappings, cs[j])] == cs[j].id)
  }

  lemma IndexCleared(networks: seq<nat>, cs: Conversations, ids: map<Key, nat>, mappings: map<nat, CaseMapping>,
                     orders: Orders, nextId: nat,
                     network: nat, after: map<nat, CaseMapping>)
    requires Sane(networks, cs, ids, mappings, orders, nextId)
    requires forall n :: n != network ==> MappingOf(after, n) == MappingOf(mappings, n)
    ensures IndexedUpTo(cs, map key | key in ids && key.0 != network :: ids[key], after, network, 0)
  {
    hide LaidOut, Unique, OrdersFit;
    assert forall c: Conversation :: c.network != network ==> KeyOf(after, c) == KeyOf(mappings, c);
    forall key | key in ids && key.0 != network ensures Reaches(cs, after, key, ids[key]) {
      assert Reaches(cs, mappings, key, ids[key]);
    }
  }

  lemma IndexNext(cs: Conversations, ids: map<Key, nat>, mappings: map<nat, CaseMapping>, network: nat, n: nat)
    requires n < |cs| && IndexedUpTo(cs, ids, mappings, network, n)
    ensures
      var key := KeyOf(mappings, cs[n]);
      IndexedUpTo(cs,
                  if ChannelOf(network)(cs[n]) && key !in ids then ids[key := cs[n].id]
                  else ids, mappings, network, n + 1)
  {
    hide KeyOf, Reaches, HasKey, FirstReached;
    var key := KeyOf(mappings, cs[n]);
    var after := if ChannelOf(network)(cs[n]) && key !in ids then ids[key := cs[n].id] else ids;
    NextReaches(cs, ids, mappings, network, n);
    forall k | k in after && k.0 == network ensures HasKey(cs, mappings, network, n + 1, k) {
      NextHasKey(cs, mappings, network, n, k);
    }
    forall j | 0 <= j <= n && ChannelOf(network)(cs[j]) ensures FirstReached(cs, after, mappings, network, j) {
      NextFirst(cs, ids, mappings, network, n, j);
    }
  }

  lemma NextReaches(cs: Conversations, ids: map<Key, nat>, mappings: map<nat, CaseMapping>, network: nat, n: nat)
    requires n < |cs|
    ensures ChannelOf(network)(cs[n]) ==>
              Reaches(cs, mappings, KeyOf(mappings, cs[n]), cs[n].id) && KeyOf(mappings, cs[n]).0 == network
  {
    hide Fold;
    assert cs[n] in cs;
  }

  lemma NextHasKey(cs: Conversations, mappings: map<nat, CaseMapping>, network: nat, n: nat, key: Key)
    requires n < |cs|
    ensures HasKey(cs, mappings, network, n + 1, key) <==>
            HasKey(cs, mappings, network, n, key) || (ChannelOf(network)(cs[n]) && KeyOf(mappings, cs[n]) == key)
  {
    hide KeyOf;
    if ChannelOf(network)(cs[n]) && KeyOf(mappings, cs[n]) == key {
      assert ChannelOf(network)(cs[n]) && KeyOf(mappings, cs[n]) == key;
    }
  }

  lemma NextFirst(cs: Conversations, ids: map<Key, nat>, mappings: map<nat, CaseMapping>, network: nat, n: nat, j: nat)
    requires j <= n < |cs| && ChannelOf(network)(cs[j])
    requires j < n ==> FirstReached(cs, ids, mappings, network, j)
    requires forall key :: key in ids && key.0 == network ==> HasKey(cs, mappings, network, n, key)
    ensures
      var key := KeyOf(mappings, cs[n]);
      FirstReached(cs,
                   if ChannelOf(network)(cs[n]) && key !in ids then ids[key := cs[n].id] else ids, mappings, network, j)
  {
    hide KeyOf;
    NextReaches(cs, ids, mappings, network, j);
    if j == n && KeyOf(mappings, cs[n]) in ids {
      var k :| 0 <= k < n && ChannelOf(network)(cs[k]) && KeyOf(mappings, cs[k]) == KeyOf(mappings, cs[n]);
    }
  }

  lemma IndexComplete(networks: seq<nat>, cs: Conversations, before: map<Key, nat>, mappings: map<nat, CaseMapping>,
                      orders: Orders, nextId: nat,
                      network: nat, ids: map<Key, nat>, after: map<nat, CaseMapping>)
    requires Sane(networks, cs, before, mappings, orders, nextId) && IndexedUpTo(cs, ids, after, network, |cs|)
    ensures Sane(networks, cs, ids, after, orders, nextId)
    ensures forall i ::
              0 <= i < |cs| && IsFirst(cs, after, network, i) ==>
                KeyOf(after, cs[i]) in ids && ids[KeyOf(after, cs[i])] == cs[i].id
  {
    hide LaidOut, Unique, OrdersFit, KeyOf;
  }

  // ---------- Building the tree ----------

  /** `index` holds what each member stands for. */
  ghost predicate Keyed(cs: Conversations, index: map<Member, nat>) {
    forall m :: ChannelFor(cs, m) == if m in index then Some(index[m]) else None
  }

  lemma NothingKeyed()
    ensures Keyed([], map[])
  {
  }

  lemma KeyedNext(cs: Conversations, n: nat, index: map<Member, nat>)
    requires n < |cs| && Keyed(cs[..n], index)
    ensures Keyed(cs[..n + 1], if cs[n].IsPrivate() then index else index[MemberOf(cs[n]) := cs[n].id])
  {
    hide MemberOf, ChannelFor;
    forall m
      ensures ChannelFor(cs[..n + 1], m) == if IsChannel(m)(cs[n]) then Some(cs[n].id) else ChannelFor(cs[..n], m) {
      ChannelForNext(cs, n, m);
    }
  }

  lemma ChannelForNext(cs: Conversations, n: nat, m: Member)
    requires n < |cs|
    ensures ChannelFor(cs[..n + 1], m) == if IsChannel(m)(cs[n]) then Some(cs[n].id) else ChannelFor(cs[..n], m)
  {
    hide MemberOf;
    assert cs[..n + 1][..n] == cs[..n];
  }

  lemma {:induction false} NoneGrouped(cs: Conversations, groups: seq<Group>)
    requires forall i :: 0 <= i < |groups| ==> groups[i].members == []
    ensures Grouped(cs, groups) == [] && forall i :: 0 <= i < |groups| ==> Present(cs, groups[i].members) == []
  {
    if groups != [] {
      var before := groups[..|groups| - 1];
      NoneGrouped(cs, before);
      assert AllMembers(before) + [] == AllMembers(before);
    }
  }

  lemma NothingGrouped(cs: Conversations, groups: seq<Group>)
    ensures Grouped(cs, groups[..0]) == []
  {
  }

  lemma GroupNext(cs: Conversations, groups: seq<Group>, i: nat)
    requires i < |groups|
    ensures Grouped(cs, groups[..i + 1]) == Grouped(cs, groups[..i]) + Present(cs, groups[i].members)
    ensures GroupRows(cs, groups[..i + 1]) == GroupRows(cs, groups[..i]) +
            [(groups[i].id, Present(cs, groups[i].members))]
  {
    hide Present;
    assert groups[..i + 1][..i] == groups[..i];
    PresentSplit(cs, AllMembers(groups[..i]), groups[i].members);
  }

  // ---------- Moves ----------

  function WithId(id: nat): Conversation -> bool {
    (c: Conversation) => c.id == id
  }

  function AlikeTo(c: Conversation): Conversation -> bool {
    (d: Conversation) => d.network == c.network && d.IsPrivate() == c.IsPrivate()
  }

  function NotAlikeTo(c: Conversation): Conversation -> bool {
    (d: Conversation) => !(d.network == c.network && d.IsPrivate() == c.IsPrivate())
  }

  /** Of the same network and kind, and shown under the server. */
  function SiblingOf(tree: Tree, c: Conversation): Conversation -> bool {
    (d: Conversation) => d.network == c.network && d.IsPrivate() == c.IsPrivate() &&
    ParentOf(tree, d.id) == Some(OfServer(c.network))
  }

  /** Where a move takes `id` among its siblings, when it moves at all. */
  function Aim(siblings: seq<nat>, id: nat, to: MoveTo): (at: Option<nat>)
    ensures at.Some? ==> id in siblings && at.value < |siblings|
  {
    if id !in siblings then None
    else
      var target := Target(siblings, Position(siblings, id), to);
      if target.None? || target.value == Position(siblings, id) then None else target
  }

  /** One conversation moved: among its siblings it goes to place `target`,
      and all others keep their order. */
  ghost predicate MovesTo(before: Conversations, after: Conversations, at: nat, siblings: seq<nat>,
                          p: Conversation -> bool, target: nat)
    requires at < |before| && target < |siblings|
  {
    && before[at].id in siblings
    && Ids(Filter(after, p)) == Moved(siblings, Position(siblings, before[at].id), target)
    && exists place ::
         0 <= place < |before| && before[place].id == siblings[target] && AlikeTo(before[at])(before[place]) &&
         after == Moved(before, at, place)
  }

  /** All conversations but the one at `at` keep their order. */
  ghost predicate KeepsOthers(before: Conversations, after: Conversations, at: nat)
    requires at < |before|
  {
    forall q: Conversation -> bool :: !q(before[at]) ==> Filter(after, q) == Filter(before, q)
  }

  lemma MoveKeepsOthers(before: Conversations, after: Conversations, at: nat, siblings: seq<nat>,
                        p: Conversation -> bool, target: nat)
    requires at < |before| && target < |siblings| && MovesTo(before, after, at, siblings, p, target)
    ensures KeepsOthers(before, after, at)
  {
    hide Filter, Moved;
    var place :| 0 <= place < |before| && before[place].id == siblings[target] && after == Moved(before, at, place);
    forall q: Conversation -> bool | !q(before[at]) ensures Filter(after, q) == Filter(before, q) {
      MovedOthers(before, at, place, q);
    }
  }

  /** The row of `network` has `id` moved to the place of `other`; every other
      row is as it was. */
  ghost predicate ServerRowMoves(before: Tree, after: Tree, network: nat, id: nat, other: nat) {
    && after.groups == before.groups && |after.servers| == |before.servers|
    && forall k :: 0 <= k < |before.servers| ==>
         if before.servers[k].0 != network then after.servers[k] == before.servers[k]
         else MovedRow(before.servers[k], after.servers[k], id, other)
  }

  ghost predicate MovedRow(before: (nat, seq<nat>), after: (nat, seq<nat>), id: nat, other: nat) {
    && id in before.1 && other in before.1
    && after == (before.0, Moved(before.1, Position(before.1, id), Position(before.1, other)))
  }

  /** With distinct keys, a move among the siblings shown under a server is
      the same move of that row of the tree. */
  lemma MovesToShows(networks: seq<nat>, cs: Conversations, groups: seq<Group>, at: nat, target: nat,
                     after: Conversations)
    requires Unique(cs) && DistinctKeys(cs) && at < |cs|
    requires
      var p := SiblingOf(DisplayTree(networks, cs, groups), cs[at]);
      target < |Ids(Filter(cs, p))| && MovesTo(cs, after, at, Ids(Filter(cs, p)), p, target)
    ensures
      var tree := DisplayTree(networks, cs, groups);
      ServerRowMoves(tree, DisplayTree(networks, after, groups), cs[at].network, cs[at].id,
                     Ids(Filter(cs, SiblingOf(tree, cs[at])))[target])
  {
    hide Unique, DistinctKeys, DisplayTree, ParentOf, Filter, Moved, Grouped, ServerRowMoves;
    var p := SiblingOf(DisplayTree(networks, cs, groups), cs[at]);
    var siblings := Ids(Filter(cs, p));
    var place :| 0 <= place < |cs| && cs[place].id == siblings[target] && AlikeTo(cs[at])(cs[place]) &&
                 after == Moved(cs, at, place);
    SiblingIs(cs, p, at);
    SiblingIs(cs, p, place);
    ServerShowsUngrouped(networks, cs, groups, cs[at].id, cs[at].network);
    ServerShowsUngrouped(networks, cs, groups, cs[place].id, cs[at].network);
    ServerRowsFollow(networks, cs, groups, at, place);
  }

  lemma ServerMoveMeans(networks: seq<nat>, cs: Conversations, groups: seq<Group>, at: nat, to: MoveTo,
                        after: Conversations)
    requires Unique(cs) && at < |cs|
    requires
      var p := SiblingOf(DisplayTree(networks, cs, groups), cs[at]);
      var siblings := Ids(Filter(cs, p));
      Aim(siblings, cs[at].id, to).Some? && MovesTo(cs, after, at, siblings, p, Aim(siblings, cs[at].id, to).value)
    ensures
      var tree := DisplayTree(networks, cs, groups);
      var siblings := Ids(Filter(cs, SiblingOf(tree, cs[at])));
      && KeepsOthers(cs, after, at)
      && (DistinctKeys(cs) ==>
            ServerRowMoves(tree, DisplayTree(networks, after, groups), cs[at].network, cs[at].id,
                           siblings[Aim(siblings, cs[at].id, to).value]))
  {
    hide Unique, DistinctKeys, DisplayTree, ParentOf, Filter, MovesTo, KeepsOthers, ServerRowMoves, Aim;
    var p := SiblingOf(DisplayTree(networks, cs, groups), cs[at]);
    var siblings := Ids(Filter(cs, p));
    MoveKeepsOthers(cs, after, at, siblings, p, Aim(siblings, cs[at].id, to).value);
    if DistinctKeys(cs) {
      MovesToShows(networks, cs, groups, at, Aim(siblings, cs[at].id, to).value, after);
    }
  }

  lemma SiblingIs(cs: Conversations, p: Conversation -> bool, at: nat)
    requires Unique(cs) && at < |cs| && cs[at].id in Ids(Filter(cs, p))
    ensures p(cs[at])
  {
    hide Filter;
    var k :| 0 <= k < |Ids(Filter(cs, p))| && Ids(Filter(cs, p))[k] == cs[at].id;
    assert Filter(cs, p)[k] in Filter(cs, p) && cs[at] in cs;
  }

  /** What the tree shows under a server it shows in no group. */
  lemma ServerShowsUngrouped(networks: seq<nat>, cs: Conversations, groups: seq<Group>, id: nat, network: nat)
    requires ParentOf(DisplayTree(networks, cs, groups), id) == Some(OfServer(network))
    ensures id !in Grouped(cs, groups)
  {
    hide Grouped, Filter;
    var tree := DisplayTree(networks, cs, groups);
    var s := First(tree.servers, Holds(id));
    assert Holds(id)(tree.servers[s]);
    var p := Ungrouped(networks[s], Grouped(cs, groups));
    var k :| 0 <= k < |Ids(Filter(cs, p))| && Ids(Filter(cs, p))[k] == id;
    assert Filter(cs, p)[k] in Filter(cs, p);
  }

  lemma ServerRowsFollow(networks: seq<nat>, cs: Conversations, groups: seq<Group>, at: nat, place: nat)
    requires Unique(cs) && DistinctKeys(cs) && at < |cs| && place < |cs| && cs[at].network == cs[place].network
    requires cs[at].id !in Grouped(cs, groups) && cs[place].id !in Grouped(cs, groups)
    ensures ServerRowMoves(DisplayTree(networks, cs, groups), DisplayTree(networks, Moved(cs, at, place), groups),
                           cs[at].network, cs[at].id, cs[place].id)
  {
    hide Unique, DistinctKeys, DisplayTree, Filter, Moved, Grouped, MovedRow, Present;
    var tree, after := DisplayTree(networks, cs, groups), DisplayTree(networks, Moved(cs, at, place), groups);
    ServerRowMovesWhen(networks, cs, groups, at, place);
    forall k | 0 <= k < |networks|
      ensures tree.servers[k].0 == networks[k]
      ensures if networks[k] != cs[at].network then after.servers[k] == tree.servers[k]
              else MovedRow(tree.servers[k], after.servers[k], cs[at].id, cs[place].id)
    {
      RowFollows(networks, cs, groups, at, place, k);
    }
  }

  lemma ServerRowMovesWhen(networks: seq<nat>, cs: Conversations, groups: seq<Group>, at: nat, place: nat)
    requires DistinctKeys(cs) && at < |cs| && place < |cs|
    ensures DisplayTree(networks, Moved(cs, at, place), groups).groups == DisplayTree(networks, cs, groups).groups
  {
    hide Filter, Moved, DistinctKeys, Present;
    MovedElements(cs, at, place);
    forall i | 0 <= i < |groups|
      ensures Present(Moved(cs, at, place), groups[i].members) == Present(cs, groups[i].members) {
      SamePresent(cs, Moved(cs, at, place), groups[i].members);
    }
  }

  lemma RowFollows(networks: seq<nat>, cs: Conversations, groups: seq<Group>, at: nat, place: nat, k: nat)
    requires Unique(cs) && DistinctKeys(cs) && at < |cs| && place < |cs| && cs[at].network == cs[place].network &&
             k < |networks|
    requires cs[at].id !in Grouped(cs, groups) && cs[place].id !in Grouped(cs, groups)
    ensures
      var row, after := DisplayTree(networks, cs, groups).servers[k],
                        DisplayTree(networks, Moved(cs, at, place), groups).servers[k];
      && row.0 == networks[k]
      && if networks[k] != cs[at].network then after == row else MovedRow(row, after, cs[at].id, cs[place].id)
  {
    hide Unique, DistinctKeys, Filter, Moved, Grouped, Present;
    ServerMoveShows(networks, cs, groups, at, place, k);
    if networks[k] == cs[at].network {
      var p := Ungrouped(networks[k], Grouped(cs, groups));
      IdPosition(cs, p, at);
      IdPosition(cs, p, place);
    }
  }

  lemma IdPosition(cs: Conversations, p: Conversation -> bool, at: nat)
    requires Unique(cs) && at < |cs| && p(cs[at])
    ensures cs[at].id in Ids(Filter(cs, p)) && Position(Ids(Filter(cs, p)), cs[at].id) == |Filter(cs[..at], p)|
  {
    hide Unique, Indexes, Filter;
    ShownAligned(cs, p, at);
    IndexesHold(cs, p, at);
    IndexesCount(cs, p, Position(Indexes(cs, p), at));
  }

  lemma NoIndexes(cs: Conversations, p: Conversation -> bool)
    ensures Indexes(cs[..0], p) == []
  {
  }

  lemma AlikePlaces(networks: seq<nat>, c: Conversation, d: Conversation)
    requires AlikeTo(c)(d)
    ensures Layout.Place(networks, c) == Layout.Place(networks, d)
  {
  }

  /** The run around `at` is the whole of its network and kind. */
  lemma RunIsWhole(networks: seq<nat>, cs: Conversations, at: nat, start: nat, end: nat)
    requires LaidOut(networks, cs) && at < |cs| && start == PastLast(cs[..at], NotAlikeTo(cs[at])) <= at &&
             end == at + First(cs[at..], NotAlikeTo(cs[at]))
    ensures end <= |cs| && forall i :: 0 <= i < |cs| ==> (AlikeTo(cs[at])(cs[i]) <==> start <= i < end)
  {
    hide LaidOut;
    var c := cs[at];
    assert start > 0 ==> NotAlikeTo(c)(cs[..at][start - 1]);
    assert end < |cs| ==> NotAlikeTo(c)(cs[at..][end - at]);
    forall i | 0 <= i < |cs| ensures AlikeTo(c)(cs[i]) <==> start <= i < end {
      if start <= i < at {
        assert !NotAlikeTo(c)(cs[..at][i]);
      } else if at <= i < end {
        assert !NotAlikeTo(c)(cs[at..][i - at]);
      } else if i < start {
        if AlikeTo(c)(cs[i]) {
          AlikeBetween(networks, cs, c, i, start - 1, at);
        }
      } else {
        if AlikeTo(c)(cs[i]) {
          AlikeBetween(networks, cs, c, at, end, i);
        }
      }
    }
  }

  lemma AlikeBetween(networks: seq<nat>, cs: Conversations, c: Conversation, i: nat, j: nat, k: nat)
    requires LaidOut(networks, cs) && i <= j <= k < |cs| && AlikeTo(c)(cs[i]) && AlikeTo(c)(cs[k])
    ensures AlikeTo(c)(cs[j])
  {
    assert Layout.Place(networks, cs[i]) <= Layout.Place(networks, cs[j]) <= Layout.Place(networks, cs[k]);
    PlacesApart(networks, cs[i], cs[j]);
  }

  lemma MoveKeepsRanks(cs: Conversations, orders: Orders, from: nat, to: nat)
    requires OrdersFit(orders) && from < |cs| && to < |cs|
    ensures forall n :: !ChannelOf(n)(cs[from]) && Ranked(cs, orders, n) ==> Ranked(Moved(cs, from, to), orders, n)
  {
    hide Filter, Moved;
    forall n | !ChannelOf(n)(cs[from]) && Ranked(cs, orders, n) ensures Ranked(Moved(cs, from, to), orders, n) {
      MovedOthers(cs, from, to, ChannelOf(n));
      assert ChannelNames(Moved(cs, from, to), n) == ChannelNames(cs, n);
    }
  }

  /** The places and the identifiers of the siblings line up. */
  lemma ShownAligned(cs: Conversations, p: Conversation -> bool, at: nat)
    requires Unique(cs) && at < |cs|
    ensures
      var shown, siblings := Indexes(cs, p), Ids(Filter(cs, p));
      && |shown| == |siblings| && (forall k :: 0 <= k < |shown| ==> shown[k] < |cs| && cs[shown[k]].id == siblings[k])
      && (at in shown <==> cs[at].id in siblings)
      && (at in shown ==> Position(shown, at) == Position(siblings, cs[at].id))
      && forall k :: 0 <= k < |shown| && shown[k] == at ==> k == Position(shown, at)
  {
    hide Indexes, Filter, Unique;
    var shown, siblings := Indexes(cs, p), Ids(Filter(cs, p));
    forall k | 0 <= k < |shown| && siblings[k] == cs[at].id ensures shown[k] == at {
      UniqueAt(cs, shown[k], at);
    }
    forall k | 0 <= k < |shown| && shown[k] == at ensures k == Position(shown, at) {
      IndexesCount(cs, p, k);
      IndexesCount(cs, p, Position(shown, at));
    }
    if cs[at].id in siblings {
      assert shown[Position(siblings, cs[at].id)] == at;
    }
  }

  /** Moving to the place of the sibling `target` is a move among siblings. */
  lemma ShownMoves(cs: Conversations, p: Conversation -> bool, at: nat, target: nat)
    requires Unique(cs) && at < |cs| && at in Indexes(cs, p) && target < |Indexes(cs, p)|
    requires forall d :: p(d) ==> AlikeTo(cs[at])(d)
    ensures Indexes(cs, p)[target] < |cs| && AlikeTo(cs[at])(cs[Indexes(cs, p)[target]])
    ensures MovesTo(cs, Moved(cs, at, Indexes(cs, p)[target]), at, Ids(Filter(cs, p)), p, target)
  {
    hide Indexes, Filter, Unique, Moved;
    var shown, siblings := Indexes(cs, p), Ids(Filter(cs, p));
    ShownAligned(cs, p, at);
    IndexesHold(cs, p, at);
    assert shown[target] in shown;
    IndexesHold(cs, p, shown[target]);
    IndexesCount(cs, p, Position(shown, at));
    IndexesCount(cs, p, target);
    MovedInServer(cs, at, shown[target], p);
    assert cs[shown[target]].id == siblings[target];
  }

  // ---------- Keeping each channel listed once ----------

  function GroupOtherThan(id: nat): Group -> bool {
    (g: Group) => g.id != id
  }

  function WithGroupId(id: nat): Group -> bool {
    (g: Group) => g.id == id
  }

  function OfNetworks(networks: seq<nat>): Member -> bool {
    (m: Member) => m.network in networks
  }

  function WithName(name: string): Group -> bool {
    (g: Group) => g.name == name
  }

  function Spec(name: string): GroupSpec -> bool {
    (s: GroupSpec) => s.name == name
  }

  /** One more saved group: a name already there is skipped, channels of
      unknown networks are dropped. */
  function AdoptOne(before: seq<Group>, spec: GroupSpec, networks: seq<nat>, first: nat): seq<Group> {
    if First(before, WithName(spec.name)) < |before| then before
    else before + [Group(first + |before| + 1, spec.name, Filter(spec.members, OfNetworks(networks)))]
  }

  /** What saved groups become. */
  function Adopted(specs: seq<GroupSpec>, networks: seq<nat>, first: nat): seq<Group> {
    if specs == [] then []
    else AdoptOne(Adopted(specs[..|specs| - 1], networks, first), specs[|specs| - 1], networks, first)
  }

  lemma AdoptedNext(specs: seq<GroupSpec>, i: nat, networks: seq<nat>, first: nat)
    requires i < |specs|
    ensures Adopted(specs[..i + 1], networks, first) ==
              AdoptOne(Adopted(specs[..i], networks, first), specs[i], networks, first)
  {
    hide AdoptOne;
    assert specs[..i + 1][..i] == specs[..i];
  }

  /** Each channel is listed once over all saved groups. */
  ghost predicate SavedOnce(specs: seq<GroupSpec>) {
    && (forall i :: 0 <= i < |specs| ==> Distinct(specs[i].members))
    && forall i, j, m :: 0 <= i < j < |specs| && m in specs[i].members ==> m !in specs[j].members
  }

  /** The group comes from the first of the saved ones with its name. */
  ghost predicate ComesFrom(specs: seq<GroupSpec>, networks: seq<nat>, g: Group) {
    var i := First(specs, Spec(g.name));
    i < |specs| && g.members == Filter(specs[i].members, OfNetworks(networks))
  }

  /** Every group comes from the first saved one with its name, under the next
      id, and every saved name is there. */
  ghost predicate AdoptedFrom(specs: seq<GroupSpec>, networks: seq<nat>, first: nat, r: seq<Group>) {
    && (forall k :: 0 <= k < |r| ==> ComesFrom(specs, networks, r[k]) && r[k].id == first + k + 1)
    && forall i :: 0 <= i < |specs| ==> First(r, WithName(specs[i].name)) < |r|
  }

  lemma {:induction false} AdoptedIs(specs: seq<GroupSpec>, networks: seq<nat>, first: nat)
    ensures AdoptedFrom(specs, networks, first, Adopted(specs, networks, first))
  {
    hide AdoptOne, AdoptedFrom;
    if specs == [] {
      AdoptedNone(networks, first);
    } else {
      AdoptedIs(specs[..|specs| - 1], networks, first);
      AdoptOneIs(specs, networks, first, Adopted(specs[..|specs| - 1], networks, first));
    }
  }

  lemma AdoptedIds(specs: seq<GroupSpec>, networks: seq<nat>, first: nat)
    ensures forall k ::
              0 <= k < |Adopted(specs, networks, first)| ==> Adopted(specs, networks, first)[k].id == first + k + 1
  {
    hide ComesFrom;
    AdoptedIs(specs, networks, first);
  }

  lemma AdoptedNothing(networks: seq<nat>, first: nat)
    ensures Adopted([], networks, first) == []
  {
  }

  lemma AdoptedNone(networks: seq<nat>, first: nat)
    ensures AdoptedFrom([], networks, first, [])
  {
  }

  lemma AdoptOneIs(specs: seq<GroupSpec>, networks: seq<nat>, first: nat, before: seq<Group>)
    requires specs != [] && AdoptedFrom(specs[..|specs| - 1], networks, first, before)
    ensures AdoptedFrom(specs, networks, first, AdoptOne(before, specs[|specs| - 1], networks, first))
  {
    hide Filter, ComesFrom, First;
    var n := |specs| - 1;
    var r := AdoptOne(before, specs[n], networks, first);
    forall k | 0 <= k < |r| ensures ComesFrom(specs, networks, r[k]) {
      if k < |before| {
        StillComesFrom(specs, networks, before[k]);
      } else {
        LastComesFrom(specs, networks, first, before);
      }
    }
    forall i | 0 <= i < |specs| ensures First(r, WithName(specs[i].name)) < |r| {
      var k := if i < n then First(before, WithName(specs[..n][i].name))
               else if |r| == |before| then First(before, WithName(specs[n].name)) else |before|;
      assert i < n ==> specs[..n][i] == specs[i];
      assert WithName(specs[i].name)(r[k]);
    }
  }

  lemma StillComesFrom(specs: seq<GroupSpec>, networks: seq<nat>, g: Group)
    requires specs != [] && ComesFrom(specs[..|specs| - 1], networks, g)
    ensures ComesFrom(specs, networks, g)
  {
    hide Filter;
  }

  lemma LastComesFrom(specs: seq<GroupSpec>, networks: seq<nat>, first: nat, before: seq<Group>)
    requires specs != [] && AdoptedFrom(specs[..|specs| - 1], networks, first, before)
    requires First(before, WithName(specs[|specs| - 1].name)) == |before|
    ensures ComesFrom(specs, networks,
                      Group(first + |before| + 1, specs[|specs| - 1].name,
                            Filter(specs[|specs| - 1].members, OfNetworks(networks))))
  {
    hide Filter, ComesFrom, AdoptedFrom, First;
    var n := |specs| - 1;
    forall i | 0 <= i < n ensures specs[i].name != specs[n].name {
      EarlierNamed(specs, networks, first, before, i);
    }
    OnlyLastNamed(specs);
    LastIsFirst(specs, networks, first + |before| + 1, n);
  }

  lemma EarlierNamed(specs: seq<GroupSpec>, networks: seq<nat>, first: nat, before: seq<Group>, i: nat)
    requires i < |specs| - 1 && AdoptedFrom(specs[..|specs| - 1], networks, first, before)
    ensures First(before, WithName(specs[i].name)) < |before|
  {
    hide ComesFrom, First;
    assert specs[..|specs| - 1][i] == specs[i];
  }

  lemma OnlyLastNamed(specs: seq<GroupSpec>)
    requires specs != [] && forall i :: 0 <= i < |specs| - 1 ==> specs[i].name != specs[|specs| - 1].name
    ensures First(specs, Spec(specs[|specs| - 1].name)) == |specs| - 1
  {
    hide First;
    assert Spec(specs[|specs| - 1].name)(specs[|specs| - 1]);
  }

  lemma LastIsFirst(specs: seq<GroupSpec>, networks: seq<nat>, id: nat, at: nat)
    requires specs != [] && at == First(specs, Spec(specs[|specs| - 1].name)) == |specs| - 1
    ensures ComesFrom(specs, networks,
                      Group(id, specs[|specs| - 1].name, Filter(specs[|specs| - 1].members, OfNetworks(networks))))
  {
    hide Filter, First;
  }

  lemma {:induction false} AdoptedListedOnce(specs: seq<GroupSpec>, networks: seq<nat>, first: nat)
    requires SavedOnce(specs)
    ensures ListedOnce(Adopted(specs, networks, first))
  {
    hide Filter, AdoptOne, ListedOnce, SavedOnce, AdoptedFrom;
    if specs == [] {
      NoGroups();
    } else {
      SavedBefore(specs);
      AdoptedListedOnce(specs[..|specs| - 1], networks, first);
      AdoptedIs(specs[..|specs| - 1], networks, first);
      AdoptOneListedOnce(specs, networks, first, Adopted(specs[..|specs| - 1], networks, first));
    }
  }

  lemma NoGroups()
    ensures ListedOnce([])
  {
  }

  lemma SavedBefore(specs: seq<GroupSpec>)
    requires specs != [] && SavedOnce(specs)
    ensures SavedOnce(specs[..|specs| - 1])
  {
  }

  lemma AdoptOneListedOnce(specs: seq<GroupSpec>, networks: seq<nat>, first: nat, before: seq<Group>)
    requires specs != [] && SavedOnce(specs) && ListedOnce(before) &&
             AdoptedFrom(specs[..|specs| - 1], networks, first, before)
    ensures ListedOnce(AdoptOne(before, specs[|specs| - 1], networks, first))
  {
    hide Filter, First, ListedOnce, ComesFrom;
    var n := |specs| - 1;
    FilterDistinct(specs[n].members, OfNetworks(networks));
    assert Distinct(specs[n].members);
    forall k | 0 <= k < |before|
      ensures before[k].id != first + |before| + 1 && forall m :: m in before[k].members ==> m !in specs[n].members
    {
      ListedEarlier(specs, networks, before[k]);
    }
    if First(before, WithName(specs[n].name)) == |before| {
      assert forall k :: 0 <= k < |before| ==> !WithName(specs[n].name)(before[k]);
      ListedOnceWith(before,
                     Group(first + |before| + 1, specs[n].name, Filter(specs[n].members, OfNetworks(networks))));
    }
  }

  lemma ListedEarlier(specs: seq<GroupSpec>, networks: seq<nat>, g: Group)
    requires specs != [] && SavedOnce(specs) && ComesFrom(specs[..|specs| - 1], networks, g)
    ensures forall m :: m in g.members ==> m !in specs[|specs| - 1].members
  {
    hide Filter, First;
    var i := First(specs[..|specs| - 1], Spec(g.name));
    assert specs[..|specs| - 1][i] == specs[i];
  }

  lemma ListedOnceWith(before: seq<Group>, g: Group)
    requires ListedOnce(before) && Distinct(g.members)
    requires forall k ::
               0 <= k < |before| ==>
                 before[k].id != g.id && before[k].name != g.name &&
                 forall m :: m in before[k].members ==> m !in g.members
    ensures ListedOnce(before + [g])
  {
  }

  lemma ListedOnceFiltered(groups: seq<Group>, p: Group -> bool)
    requires ListedOnce(groups)
    ensures ListedOnce(Filter(groups, p))
  {
    hide Filter;
    var r := Filter(groups, p);
    forall i | 0 <= i < |r| ensures Distinct(r[i].members) {
      assert r[i] in r;
      var k :| 0 <= k < |groups| && groups[k] == r[i];
    }
    forall i, j | 0 <= i < j < |r|
      ensures r[i].id != r[j].id && r[i].name != r[j].name && forall m :: m in r[i].members ==> m !in r[j].members
    {
      FilterPositions(groups, p, i, j);
    }
  }

  lemma FilteredIds(groups: seq<Group>, p: Group -> bool, bound: nat)
    requires forall i :: 0 <= i < |groups| ==> groups[i].id <= bound
    ensures forall i :: 0 <= i < |Filter(groups, p)| ==> Filter(groups, p)[i].id <= bound
  {
    hide Filter;
    forall i | 0 <= i < |Filter(groups, p)| ensures Filter(groups, p)[i].id <= bound {
      assert Filter(groups, p)[i] in Filter(groups, p);
      var k :| 0 <= k < |groups| && groups[k] == Filter(groups, p)[i];
    }
  }

  lemma NotListed(groups: seq<Group>, m: Member)
    requires forall i :: 0 <= i < |groups| ==> m !in groups[i].members
    ensures WithoutMember(groups, m) == groups
  {
    hide Filter;
    forall i | 0 <= i < |groups| ensures Filter(groups[i].members, OtherThan(m)) == groups[i].members {
      FilterAll(groups[i].members, OtherThan(m));
    }
  }

  lemma OnlyListed(groups: seq<Group>, at: nat, m: Member)
    requires ListedOnce(groups) && at < |groups| && m in groups[at].members
    ensures groups[at := groups[at].(members := Filter(groups[at].members, OtherThan(m)))] == WithoutMember(groups, m)
  {
    hide Filter;
    forall i | 0 <= i < |groups| && i != at ensures Filter(groups[i].members, OtherThan(m)) == groups[i].members {
      assert m !in groups[i].members;
      FilterAll(groups[i].members, OtherThan(m));
    }
  }

  lemma ListedOnceWithoutMember(groups: seq<Group>, m: Member)
    requires ListedOnce(groups)
    ensures ListedOnce(WithoutMember(groups, m)) &&
            forall i :: 0 <= i < |groups| ==> m !in WithoutMember(groups, m)[i].members
  {
    hide Filter;
    forall i | 0 <= i < |groups| ensures Distinct(WithoutMember(groups, m)[i].members) {
      FilterDistinct(groups[i].members, OtherThan(m));
    }
  }

  lemma ListedOnceInserted(groups: seq<Group>, g: nat, at: nat, m: Member)
    requires ListedOnce(groups) && g < |groups| && at <= |groups[g].members| &&
             forall i :: 0 <= i < |groups| ==> m !in groups[i].members
    ensures ListedOnce(groups[g := groups[g].(members := InsertAt(groups[g].members, at, m))])
  {
    var members := groups[g].members;
    var r := InsertAt(members, at, m);
    hide InsertAt;
    InsertedDistinct(members, at, m);
    var after := groups[g := groups[g].(members := r)];
    assert forall i :: 0 <= i < |groups| && i != g ==> after[i] == groups[i];
    assert after[g].members == r;
  }

  lemma ListedOnceMoved(groups: seq<Group>, g: nat, from: nat, to: nat)
    requires ListedOnce(groups) && g < |groups| && from < |groups[g].members| && to < |groups[g].members|
    ensures ListedOnce(groups[g := groups[g].(members := Moved(groups[g].members, from, to))])
  {
    var members := groups[g].members;
    var r := Moved(members, from, to);
    hide Moved;
    MovedDistinct(members, from, to);
    MovedElements(members, from, to);
    SameElements(r, members);
    var after := groups[g := groups[g].(members := r)];
    assert forall i :: 0 <= i < |groups| && i != g ==> after[i] == groups[i];
    assert after[g].members == r;
  }

  // ---------- Moves within a group, as shown ----------

  /** Row `g` of the groups has one channel moved; every other row is as it
      was. */
  ghost predicate RowMoves(before: Tree, after: Tree, g: nat, from: nat, to: nat) {
    && after.servers == before.servers && |after.groups| == |before.groups| && g < |before.groups|
    && (forall k :: 0 <= k < |before.groups| && k != g ==> after.groups[k] == before.groups[k])
    && from < |before.groups[g].1| && to < |before.groups[g].1|
    && after.groups[g] == (before.groups[g].0, Moved(before.groups[g].1, from, to))
  }

  lemma SiblingExists(cs: Conversations, members: seq<Member>, i: nat)
    requires i < |Present(cs, members)|
    ensures exists c :: c in cs && c.id == Present(cs, members)[i]
  {
    hide ChannelFor, Present;
    var id := Present(cs, members)[i];
    Groups.PresentIn(cs, members, id);
    var m :| m in members && ChannelFor(cs, m) == Some(id);
  }

  lemma GroupedMoves(networks: seq<nat>, cs: Conversations, groups: seq<Group>, g: nat, at: nat, place: nat,
                     target: nat)
    requires Unique(cs) && ListedOnce(groups) && g < |groups| && at < |cs| && place < |cs|
    requires cs[at].id in Present(cs, groups[g].members) && target < |Present(cs, groups[g].members)|
    requires cs[place].id == Present(cs, groups[g].members)[target]
    ensures
      var members := groups[g].members;
      var i, j := Position(members, MemberOf(cs[at])), Position(members, MemberOf(cs[place]));
      && i < |members| && j < |members|
      && RowMoves(DisplayTree(networks, cs, groups),
                  DisplayTree(networks, cs, groups[g := groups[g].(members := Moved(members, i, j))]),
                  g, Position(Present(cs, members), cs[at].id), target)
  {
    hide Unique, MemberOf, Moved, Present, ChannelFor, AllMembers, Filter, ListedOnce, DisplayTree;
    var members := groups[g].members;
    assert cs[at] in cs && cs[place] in cs;
    assert cs[place].id in Present(cs, members);
    GroupShows(cs, members, cs[at]);
    GroupShows(cs, members, cs[place]);
    var i, j := Position(members, MemberOf(cs[at])), Position(members, MemberOf(cs[place]));
    GroupMoveShows(networks, cs, groups, g, i, j);
    MovedInGroup(cs, members, i, j);
    GroupDistinct(cs, groups, g);
    OnePlace(Present(cs, members), |Present(cs, members[..i])|, Position(Present(cs, members), cs[at].id));
    OnePlace(Present(cs, members), |Present(cs, members[..j])|, target);
    RowOf(networks, cs, groups, g);
  }

  /** A move within a group keeps each channel listed once and moves its row. */
  lemma AimInGroup(networks: seq<nat>, cs: Conversations, groups: seq<Group>, g: nat, at: nat, target: nat)
    requires Unique(cs) && ListedOnce(groups) && g < |groups| && at < |cs|
    requires cs[at].id in Present(cs, groups[g].members) && target < |Present(cs, groups[g].members)|
    ensures PlaceIn(cs, Present(cs, groups[g].members)[target]) < |cs|
    ensures
      var members, place := groups[g].members, PlaceIn(cs, Present(cs, groups[g].members)[target]);
      var i, j := Position(members, MemberOf(cs[at])), Position(members, MemberOf(cs[place]));
      && i < |members| && j < |members|
      && ListedOnce(groups[g := groups[g].(members := Moved(members, i, j))])
      && RowMoves(DisplayTree(networks, cs, groups),
                  DisplayTree(networks, cs, groups[g := groups[g].(members := Moved(members, i, j))]),
                  g, Position(Present(cs, members), cs[at].id), target)
  {
    hide Unique, MemberOf, Moved, Present, ChannelFor, ListedOnce, DisplayTree, RowMoves;
    var members := groups[g].members;
    SiblingExists(cs, members, target);
    var place := PlaceIn(cs, Present(cs, members)[target]);
    GroupedMoves(networks, cs, groups, g, at, place, target);
    ListedOnceMoved(groups, g, Position(members, MemberOf(cs[at])), Position(members, MemberOf(cs[place])));
  }

  lemma GroupDistinct(cs: Conversations, groups: seq<Group>, g: nat)
    requires Unique(cs) && ListedOnce(groups) && g < |groups|
    ensures Distinct(Present(cs, groups[g].members))
  {
    PresentDistinct(cs, groups[g].members);
  }

  lemma OnePlace(s: seq<nat>, i: nat, j: nat)
    requires Distinct(s) && i < |s| && j < |s| && s[i] == s[j]
    ensures i == j
  {
  }

  lemma RowOf(networks: seq<nat>, cs: Conversations, groups: seq<Group>, g: nat)
    requires g < |groups|
    ensures |DisplayTree(networks, cs, groups).groups| == |groups|
    ensures DisplayTree(networks, cs, groups).groups[g] == (groups[g].id, Present(cs, groups[g].members))
  {
    hide Present;
  }

  // ---------- Moves to another heading ----------

  /** The conversation at `at` now stands right before `other`, and all others
      keep their order. */
  ghost predicate MovedBefore(before: Conversations, after: Conversations, at: nat, other: nat)
    requires at < |before|
  {
    exists to :: 0 <= to < |before| && after == Moved(before, at, to) && to + 1 < |after| && after[to + 1].id == other
  }

  lemma MovedIsBefore(cs: Conversations, at: nat, place: nat)
    requires at < |cs| && place < |cs| && at != place
    ensures
      var to := if at < place then place - 1 else place;
      && Moved(cs, at, to) == InsertAt(RemoveAt(cs, at), to, cs[at])
      && MovedBefore(cs, Moved(cs, at, to), at, cs[place].id)
  {
    var to := if at < place then place - 1 else place;
    assert Moved(cs, at, to)[to + 1] == cs[place];
  }

  lemma AlikeNear(networks: seq<nat>, cs: Conversations, at: nat, place: nat, to: nat)
    requires LaidOut(networks, cs) && at < |cs| && place < |cs| && at != place && AlikeTo(cs[at])(cs[place])
    requires to == if at < place then place - 1 else place
    ensures AlikeTo(cs[at])(cs[to])
  {
    if at < place {
      AlikeBetween(networks, cs, cs[at], at, to, place);
    }
  }

  lemma OwnPlace(cs: Conversations, at: nat)
    requires Unique(cs) && at < |cs|
    ensures First(cs, WithId(cs[at].id)) == at
  {
    hide Unique;
    assert WithId(cs[at].id)(cs[at]);
    UniqueAt(cs, First(cs, WithId(cs[at].id)), at);
  }

  /** What the tree shows under a server is of its network. */
  lemma ServerShowsOwn(networks: seq<nat>, cs: Conversations, groups: seq<Group>, at: nat, network: nat)
    requires Unique(cs) && at < |cs| &&
             ParentOf(DisplayTree(networks, cs, groups), cs[at].id) == Some(OfServer(network))
    ensures cs[at].network == network
  {
    hide Unique, AllMembers, Present, Filter;
    var tree := DisplayTree(networks, cs, groups);
    var s := First(tree.servers, Holds(cs[at].id));
    ServerHolds(networks, cs, Grouped(cs, groups), cs[at], s);
    assert Holds(cs[at].id)(tree.servers[s]);
  }
}
