/** Channel groups: display-only parents in the channel tree. A channel is
    known to its group by its network and its name in ASCII lowercase. */
module Groups {
  import opened Text
  import opened Names
  import opened Lists
  import opened Layout

  datatype Member = Member(network: nat, key: string)
  /** A group, with its name as names are compared. */
  datatype Group = Group(id: nat, name: string, members: seq<Member>)
  datatype Parent = OfServer(network: nat) | OfGroup(group: nat)

  /** The tree as shown: the groups, then the servers, each with the
      conversations under it. */
  datatype Tree = Tree(groups: seq<(nat, seq<nat>)>, servers: seq<(nat, seq<nat>)>)

  function MemberOf(c: Conversation): Member {
    Member(c.network, ToAsciiLower(c.name))
  }

  function IsChannel(m: Member): Conversation -> bool {
    (c: Conversation) => !c.IsPrivate() && MemberOf(c) == m
  }

  /** The channel a group member stands for: the last one with its key, as a
      table built in order keeps it. */
  function ChannelFor(cs: Conversations, m: Member): (id: Option<nat>)
    ensures id.Some? ==> exists c :: c in cs && IsChannel(m)(c) && c.id == id.value
    ensures id.None? ==> forall c :: c in cs ==> !IsChannel(m)(c)
  {
    var at := PastLast(cs, IsChannel(m));
    if at > 0 then Some(cs[at - 1].id) else None
  }

  /** The channels of a group that are present, in the group's order. */
  function Present(cs: Conversations, members: seq<Member>): (ids: seq<nat>) {
    if members == [] then []
    else
      var last := ChannelFor(cs, members[|members| - 1]);
      Present(cs, members[..|members| - 1]) + if last.Some? then [last.value] else []
  }

  /** The members of all groups. */
  function AllMembers(groups: seq<Group>): seq<Member> {
    if groups == [] then [] else AllMembers(groups[..|groups| - 1]) + groups[|groups| - 1].members
  }

  function Ungrouped(network: nat, grouped: seq<nat>): Conversation -> bool {
    (c: Conversation) => c.network == network && c.id !in grouped
  }

  function Ids(cs: Conversations): (ids: seq<nat>)
    ensures |ids| == |cs| && forall i :: 0 <= i < |ids| ==> ids[i] == cs[i].id
  {
    seq(|cs|, i requires 0 <= i < |cs| => cs[i].id)
  }

  function GroupRows(cs: Conversations, groups: seq<Group>): (rows: seq<(nat, seq<nat>)>)
    ensures |rows| == |groups| &&
            forall i :: 0 <= i < |rows| ==> rows[i] == (groups[i].id, Present(cs, groups[i].members))
  {
    seq(|groups|, i requires 0 <= i < |groups| => (groups[i].id, Present(cs, groups[i].members)))
  }

  function ServerRows(networks: seq<nat>, cs: Conversations, grouped: seq<nat>): (rows: seq<(nat, seq<nat>)>)
    ensures |rows| == |networks|
    ensures forall i :: 0 <= i < |rows| ==> rows[i] == (networks[i], Ids(Filter(cs, Ungrouped(networks[i], grouped))))
  {
    seq(|networks|, i requires 0 <= i < |networks| => (networks[i], Ids(Filter(cs, Ungrouped(networks[i], grouped)))))
  }

  /** Every channel shown in a group. */
  function Grouped(cs: Conversations, groups: seq<Group>): seq<nat> {
    Present(cs, AllMembers(groups))
  }

  function DisplayTree(networks: seq<nat>, cs: Conversations, groups: seq<Group>): (tree: Tree)
    ensures |tree.groups| == |groups| && |tree.servers| == |networks|
  {
    Tree(GroupRows(cs, groups), ServerRows(networks, cs, Grouped(cs, groups)))
  }

  /** All the conversations of some rows, in the order shown. */
  function Rows(rows: seq<(nat, seq<nat>)>): seq<nat> {
    if rows == [] then [] else Rows(rows[..|rows| - 1]) + rows[|rows| - 1].1
  }

  function Shown(tree: Tree): seq<nat> {
    Rows(tree.groups) + Rows(tree.servers)
  }

  // ---------- Every conversation is shown once ----------

  lemma {:induction false} PresentSplit(cs: Conversations, a: seq<Member>, b: seq<Member>)
    ensures Present(cs, a + b) == Present(cs, a) + Present(cs, b)
  {
    hide Present, ChannelFor;
    if b == [] {
      assert a + b == a;
      PresentNone(cs);
    } else {
      var c, last := b[..|b| - 1], b[|b| - 1];
      PresentSplit(cs, a, c);
      assert b == c + [last];
      assert a + b == (a + c) + [last];
      PresentNext(cs, a + c, last);
      PresentNext(cs, c, last);
      var shown := ChannelFor(cs, last);
      Associative(Present(cs, a), Present(cs, c), if shown.Some? then [shown.value] else []);
    }
  }

  lemma PresentNone(cs: Conversations)
    ensures Present(cs, []) == []
  {
  }

  lemma PresentNext(cs: Conversations, members: seq<Member>, last: Member)
    ensures
      var shown := ChannelFor(cs, last);
      Present(cs, members + [last]) == Present(cs, members) + if shown.Some? then [shown.value] else []
  {
    assert (members + [last])[..|members|] == members;
  }

  /** What the groups show is what their members stand for. */
  lemma {:induction false} GroupsShow(cs: Conversations, groups: seq<Group>)
    ensures Rows(GroupRows(cs, groups)) == Grouped(cs, groups)
  {
    if groups != [] {
      hide Present;
      var before, last := groups[..|groups| - 1], groups[|groups| - 1];
      GroupsShow(cs, before);
      assert GroupRows(cs, groups)[..|groups| - 1] == GroupRows(cs, before);
      PresentSplit(cs, AllMembers(before), last.members);
    }
  }

  lemma {:induction false} PresentIn(cs: Conversations, members: seq<Member>, id: nat)
    ensures id in Present(cs, members) <==> exists m :: m in members && ChannelFor(cs, m) == Some(id)
  {
    hide ChannelFor;
    if members != [] {
      var before, last := members[..|members| - 1], members[|members| - 1];
      assert members == before + [last];
      PresentIn(cs, before, id);
    }
  }

  lemma OneMember(cs: Conversations, m: Member, n: Member)
    requires Unique(cs) && ChannelFor(cs, m).Some? && ChannelFor(cs, m) == ChannelFor(cs, n)
    ensures m == n
  {
    hide PastLast;
    var c :| c in cs && IsChannel(m)(c) && c.id == ChannelFor(cs, m).value;
    var d :| d in cs && IsChannel(n)(d) && d.id == ChannelFor(cs, m).value;
    assert c == d;
  }

  /** Distinct members stand for distinct channels. */
  lemma {:induction false} PresentDistinct(cs: Conversations, members: seq<Member>)
    requires Unique(cs) && Distinct(members)
    ensures Distinct(Present(cs, members))
  {
    if members != [] {
      hide Unique, ChannelFor;
      var before, last := members[..|members| - 1], members[|members| - 1];
      PresentDistinct(cs, before);
      assert last !in before;
      forall id | id in Present(cs, before) ensures ChannelFor(cs, last) != Some(id) {
        PresentIn(cs, before, id);
        var m :| m in before && ChannelFor(cs, m) == Some(id);
        if ChannelFor(cs, last) == Some(id) {
          OneMember(cs, m, last);
        }
      }
    }
  }

  lemma {:induction false} DistinctCount(s: seq<nat>, x: nat)
    requires Distinct(s)
    ensures multiset(s)[x] == if x in s then 1 else 0
  {
    if s != [] {
      var before, last := s[..|s| - 1], s[|s| - 1];
      assert s == before + [last];
      assert last !in before;
      DistinctCount(before, x);
    }
  }

  /** How often the servers show a conversation: once when its network is
      among them and no group shows it. */
  lemma {:induction false} ServersShow(networks: seq<nat>, cs: Conversations, grouped: seq<nat>, c: Conversation)
    requires Unique(cs) && c in cs && Distinct(networks)
    ensures multiset(Rows(ServerRows(networks, cs, grouped)))[c.id] ==
              if c.network in networks && c.id !in grouped then 1 else 0
  {
    if networks != [] {
      hide Unique, Filter, ServerRows;
      var before, last := networks[..|networks| - 1], networks[|networks| - 1];
      assert networks == before + [last];
      ServersShow(before, cs, grouped, c);
      assert ServerRows(networks, cs, grouped)[..|networks| - 1] == ServerRows(before, cs, grouped);
      ServerShows(cs, last, grouped, c);
    }
  }

  lemma ServerShows(cs: Conversations, network: nat, grouped: seq<nat>, c: Conversation)
    requires Unique(cs) && c in cs
    ensures multiset(Ids(Filter(cs, Ungrouped(network, grouped))))[c.id] ==
              if c.network == network && c.id !in grouped then 1 else 0
  {
    hide Filter, Unique;
    var r := Filter(cs, Ungrouped(network, grouped));
    UniqueFilter(cs, Ungrouped(network, grouped));
    forall i, j | 0 <= i < j < |r| ensures Ids(r)[i] != Ids(r)[j] {
      if r[i].id == r[j].id {
        UniqueAt(r, i, j);
      }
    }
    DistinctCount(Ids(r), c.id);
    if c.id in Ids(r) {
      var i :| 0 <= i < |r| && r[i].id == c.id;
      assert r[i] in r;
      SameConversation(cs, r[i], c);
    }
    if c in r {
      var i :| 0 <= i < |r| && r[i] == c;
      assert Ids(r)[i] == c.id;
    }
  }

  lemma SameConversation(cs: Conversations, c: Conversation, d: Conversation)
    requires Unique(cs) && c in cs && d in cs && c.id == d.id
    ensures c == d
  {
  }

  /** With each channel listed once over all groups, the tree shows every
      conversation exactly once. */
  lemma ShownOnce(networks: seq<nat>, cs: Conversations, groups: seq<Group>, c: Conversation)
    requires Unique(cs) && c in cs && Distinct(networks) && c.network in networks && Distinct(AllMembers(groups))
    ensures multiset(Shown(DisplayTree(networks, cs, groups)))[c.id] == 1
  {
    hide Unique, Rows;
    var grouped := Grouped(cs, groups);
    GroupsShow(cs, groups);
    PresentDistinct(cs, AllMembers(groups));
    DistinctCount(grouped, c.id);
    ServersShow(networks, cs, grouped, c);
  }

  /** And it shows nothing else. */
  lemma ShownExists(networks: seq<nat>, cs: Conversations, groups: seq<Group>, id: nat)
    requires id in Shown(DisplayTree(networks, cs, groups))
    ensures exists c :: c in cs && c.id == id
  {
    hide Rows;
    GroupsShow(cs, groups);
    if id in Grouped(cs, groups) {
      PresentIn(cs, AllMembers(groups), id);
    } else {
      ServersShowIds(networks, cs, Grouped(cs, groups), id);
    }
  }

  lemma {:induction false} ServersShowIds(networks: seq<nat>, cs: Conversations, grouped: seq<nat>, id: nat)
    requires id in Rows(ServerRows(networks, cs, grouped))
    ensures exists c :: c in cs && c.id == id
  {
    hide Filter, ServerRows;
    var before, last := networks[..|networks| - 1], networks[|networks| - 1];
    assert ServerRows(networks, cs, grouped)[..|networks| - 1] == ServerRows(before, cs, grouped);
    if id in Rows(ServerRows(before, cs, grouped)) {
      ServersShowIds(before, cs, grouped, id);
    } else {
      var r := Filter(cs, Ungrouped(last, grouped));
      assert id in Ids(r);
      var i :| 0 <= i < |r| && r[i].id == id;
      assert r[i] in r;
    }
  }

  // ---------- Where a conversation is shown ----------

  function Holds(id: nat): ((nat, seq<nat>)) -> bool {
    (row: (nat, seq<nat>)) => id in row.1
  }

  /** The heading the tree shows `id` under. */
  function ParentOf(tree: Tree, id: nat): Option<Parent> {
    var group := First(tree.groups, Holds(id));
    var server := First(tree.servers, Holds(id));
    if group < |tree.groups| then Some(OfGroup(tree.groups[group].0))
    else if server < |tree.servers| then Some(OfServer(tree.servers[server].0))
    else None
  }

  function OfHeading(id: nat): ((nat, seq<nat>)) -> bool {
    (row: (nat, seq<nat>)) => row.0 == id
  }

  /** The conversations the tree shows under a heading, in order. */
  function Children(tree: Tree, parent: Parent): seq<nat> {
    var rows := if parent.OfGroup? then tree.groups else tree.servers;
    var at := First(rows, OfHeading(if parent.OfGroup? then parent.group else parent.network));
    if at < |rows| then rows[at].1 else []
  }

  function HasMember(m: Member): Group -> bool {
    (g: Group) => m in g.members
  }

  /** The same answer without building the tree. */
  function DisplayParent(networks: seq<nat>, groups: seq<Group>, c: Conversation): Option<Parent> {
    var group := if c.IsPrivate() then |groups| else First(groups, HasMember(MemberOf(c)));
    if group < |groups| then Some(OfGroup(groups[group].id))
    else if c.network in networks then Some(OfServer(c.network))
    else None
  }

  /** A group's row shows `c` exactly when it holds its member and `c` is the
      channel that member stands for. */
  lemma GroupShows(cs: Conversations, members: seq<Member>, c: Conversation)
    requires Unique(cs) && c in cs
    ensures c.id in Present(cs, members) <==> ChannelFor(cs, MemberOf(c)) == Some(c.id) && MemberOf(c) in members
  {
    hide Present, Unique, MemberOf, PastLast, ChannelFor;
    PresentIn(cs, members, c.id);
    forall m | m in members && ChannelFor(cs, m) == Some(c.id) ensures m == MemberOf(c) {
      var d :| d in cs && IsChannel(m)(d) && d.id == c.id;
      SameConversation(cs, c, d);
    }
  }

  lemma ServerHolds(networks: seq<nat>, cs: Conversations, grouped: seq<nat>, c: Conversation, i: nat)
    requires Unique(cs) && c in cs && i < |networks|
    ensures c.id in ServerRows(networks, cs, grouped)[i].1 <==> c.network == networks[i] && c.id !in grouped
  {
    hide Filter, Unique;
    var r := Filter(cs, Ungrouped(networks[i], grouped));
    if c.id in Ids(r) {
      var k :| 0 <= k < |r| && r[k].id == c.id;
      assert r[k] in r;
      SameConversation(cs, r[k], c);
    }
    if c in r {
      var k :| 0 <= k < |r| && r[k] == c;
      assert Ids(r)[k] == c.id;
    }
  }

  lemma {:induction false} MemberOfSome(groups: seq<Group>, m: Member)
    ensures m in AllMembers(groups) <==> exists i :: 0 <= i < |groups| && m in groups[i].members
  {
    if groups != [] {
      var before, last := groups[..|groups| - 1], groups[|groups| - 1];
      MemberOfSome(before, m);
      if m in AllMembers(before) {
        var i :| 0 <= i < |before| && m in before[i].members;
        assert groups[i] == before[i];
      }
      if i :| 0 <= i < |groups| && m in groups[i].members {
        assert i < |before| ==> before[i] == groups[i];
      }
    }
  }

  /** The two answers agree exactly when the conversation is private, or no
      group lists its key, or it is the channel that key stands for: they
      part when two channels of a network share a grouped key. */
  lemma ParentsAgree(networks: seq<nat>, cs: Conversations, groups: seq<Group>, c: Conversation)
    requires Unique(cs) && c in cs && c.network in networks
    ensures ParentOf(DisplayTree(networks, cs, groups), c.id) == DisplayParent(networks, groups, c) <==>
            c.IsPrivate() || MemberOf(c) !in AllMembers(groups) || ChannelFor(cs, MemberOf(c)) == Some(c.id)
  {
    hide Unique, Present, ChannelFor, Filter, MemberOf, AllMembers;
    var grouped := Grouped(cs, groups);
    var tree := DisplayTree(networks, cs, groups);
    GroupShows(cs, AllMembers(groups), c);
    MemberOfSome(groups, MemberOf(c));
    forall i | 0 <= i < |groups|
      ensures c.id in tree.groups[i].1 <==>
                ChannelFor(cs, MemberOf(c)) == Some(c.id) && MemberOf(c) in groups[i].members
    {
      GroupShows(cs, groups[i].members, c);
    }
    forall i | 0 <= i < |networks| ensures c.id in tree.servers[i].1 <==> c.network == networks[i] && c.id !in grouped {
      ServerHolds(networks, cs, grouped, c, i);
    }
    if c.IsPrivate() {
      PrivateUngrouped(cs, c);
    }
    SameHeading(networks, groups, tree, c, ChannelFor(cs, MemberOf(c)) == Some(c.id), grouped);
  }

  lemma PrivateUngrouped(cs: Conversations, c: Conversation)
    requires Unique(cs) && c in cs && c.IsPrivate()
    ensures ChannelFor(cs, MemberOf(c)) != Some(c.id)
  {
    hide ChannelFor, PastLast, MemberOf;
    forall d | d in cs && IsChannel(MemberOf(c))(d) ensures d.id != c.id {
      if d.id == c.id {
        SameConversation(cs, c, d);
      }
    }
  }

  lemma {:induction false} SameHeading(networks: seq<nat>, groups: seq<Group>, tree: Tree, c: Conversation,
                                       stands: bool, grouped: seq<nat>)
    requires |tree.groups| == |groups| && |tree.servers| == |networks| && c.network in networks
    requires forall i :: 0 <= i < |groups| ==> tree.groups[i].0 == groups[i].id
    requires forall i :: 0 <= i < |networks| ==> tree.servers[i].0 == networks[i]
    requires forall i ::
               0 <= i < |groups| ==> (c.id in tree.groups[i].1 <==> stands && MemberOf(c) in groups[i].members)
    requires forall i ::
               0 <= i < |networks| ==> (c.id in tree.servers[i].1 <==> c.network == networks[i] && c.id !in grouped)
    requires MemberOf(c) in AllMembers(groups) <==> exists i :: 0 <= i < |groups| && MemberOf(c) in groups[i].members
    requires c.id in grouped <==> stands && MemberOf(c) in AllMembers(groups)
    requires c.IsPrivate() ==> !stands
    ensures ParentOf(tree, c.id) == DisplayParent(networks, groups, c) <==>
            c.IsPrivate() || MemberOf(c) !in AllMembers(groups) || stands
  {
    hide MemberOf, AllMembers;
    var h, m := Holds(c.id), HasMember(MemberOf(c));
    forall i | 0 <= i < |groups| ensures h(tree.groups[i]) == (stands && m(groups[i])) {
    }
    forall i | 0 <= i < |networks| ensures h(tree.servers[i]) == (c.network == networks[i] && c.id !in grouped) {
    }
    assert h(tree.servers[Position(networks, c.network)]) == (c.id !in grouped);
    if stands {
      FirstAlike(tree.groups, groups, h, m);
    }
  }

  lemma {:induction false} FirstAlike<T, U>(a: seq<T>, b: seq<U>, p: T -> bool, q: U -> bool)
    requires |a| == |b| && forall i :: 0 <= i < |a| ==> p(a[i]) == q(b[i])
    ensures First(a, p) == First(b, q)
  {
    if a != [] {
      FirstAlike(a[..|a| - 1], b[..|b| - 1], p, q);
    }
  }

  /** No two channels of a network share a name in ASCII lowercase. */
  ghost predicate DistinctKeys(cs: Conversations) {
    forall c, d :: c in cs && d in cs && !c.IsPrivate() && !d.IsPrivate() && MemberOf(c) == MemberOf(d) ==> c == d
  }

  lemma KeyIsOwn(cs: Conversations, c: Conversation)
    requires DistinctKeys(cs) && c in cs && !c.IsPrivate()
    ensures ChannelFor(cs, MemberOf(c)) == Some(c.id)
  {
    hide MemberOf, PastLast, ChannelFor;
    assert IsChannel(MemberOf(c))(c);
    var d :| d in cs && IsChannel(MemberOf(c))(d) && d.id == ChannelFor(cs, MemberOf(c)).value;
    assert d == c;
  }

  /** Under distinct keys the two answers always agree. */
  lemma DistinctKeysAgree(networks: seq<nat>, cs: Conversations, groups: seq<Group>, c: Conversation)
    requires Unique(cs) && DistinctKeys(cs) && c in cs && c.network in networks
    ensures ParentOf(DisplayTree(networks, cs, groups), c.id) == DisplayParent(networks, groups, c)
  {
    hide Unique, DistinctKeys, ParentOf, DisplayParent, DisplayTree, ChannelFor, MemberOf, AllMembers;
    ParentsAgree(networks, cs, groups, c);
    if !c.IsPrivate() {
      KeyIsOwn(cs, c);
    }
  }

  /** Two channels a server keeps apart may share the key: then the answers
      part for the first of them, which the tree shows under its server. */
  lemma ParentsDisagree()
    ensures
      var upper, lower := Conversation(1, 7, None, "#A"), Conversation(2, 7, None, "#a");
      var groups := [Group(1, "g", [Member(7, "#a")])];
      ParentOf(DisplayTree([7], [upper, lower], groups), 1) != DisplayParent([7], groups, upper)
  {
    hide ParentOf, DisplayTree, DisplayParent, PastLast;
    var upper, lower := Conversation(1, 7, None, "#A"), Conversation(2, 7, None, "#a");
    var cs, m := [upper, lower], Member(7, "#a");
    var groups := [Group(1, "g", [m])];
    assert ToAsciiLower("#A") == "#a" == ToAsciiLower("#a");
    LastOneStands(upper, lower, m);
    assert m in groups[0].members;
    MemberOfSome(groups, m);
    ParentsAgree([7], cs, groups, upper);
  }

  lemma LastOneStands(a: Conversation, b: Conversation, m: Member)
    requires IsChannel(m)(b)
    ensures ChannelFor([a, b], m) == Some(b.id)
  {
    assert [a, b][1] == b;
  }

  // ---------- Moving among shown siblings ----------

  datatype MoveTo = Up | Down | ToFirst | ToLast | ToPlace(other: nat)

  /** Where a move leads among `siblings` from place `from`; nowhere when the
      other conversation is not among them. */
  function Target(siblings: seq<nat>, from: nat, to: MoveTo): (at: Option<nat>)
    requires from < |siblings|
    ensures at.Some? ==> at.value < |siblings|
  {
    match to
    case Up => Some(if from == 0 then 0 else from - 1)
    case Down => Some(if from + 1 < |siblings| then from + 1 else from)
    case ToFirst => Some(0)
    case ToLast => Some(|siblings| - 1)
    case ToPlace(other) => if other in siblings then Some(Position(siblings, other)) else None
  }

  function IsPresent(cs: Conversations): Member -> bool {
    (m: Member) => ChannelFor(cs, m).Some?
  }

  lemma {:induction false} PresentIsFiltered(cs: Conversations, members: seq<Member>)
    ensures |Present(cs, members)| == |Filter(members, IsPresent(cs))|
    ensures forall i ::
              0 <= i < |Present(cs, members)| ==>
                ChannelFor(cs, Filter(members, IsPresent(cs))[i]) == Some(Present(cs, members)[i])
  {
    hide ChannelFor;
    if members != [] {
      PresentIsFiltered(cs, members[..|members| - 1]);
    }
  }

  lemma MovedElementwise<T, U>(a: seq<T>, b: seq<U>, from: nat, to: nat, f: T -> Option<U>)
    requires |a| == |b| && from < |a| && to < |a| && forall i :: 0 <= i < |a| ==> f(a[i]) == Some(b[i])
    ensures forall i :: 0 <= i < |a| ==> f(Moved(a, from, to)[i]) == Some(Moved(b, from, to)[i])
  {
  }

  /** Moving a group's member past others, present and absent, moves its
      channel the same way among those shown. */
  lemma MovedInGroup(cs: Conversations, members: seq<Member>, from: nat, to: nat)
    requires from < |members| && to < |members| && ChannelFor(cs, members[from]).Some? &&
             ChannelFor(cs, members[to]).Some?
    ensures |Present(cs, members[..from])| < |Present(cs, members)| &&
            |Present(cs, members[..to])| < |Present(cs, members)|
    ensures Present(cs, members)[|Present(cs, members[..from])|] == ChannelFor(cs, members[from]).value
    ensures Present(cs, members)[|Present(cs, members[..to])|] == ChannelFor(cs, members[to]).value
    ensures Present(cs, Moved(members, from, to)) ==
              Moved(Present(cs, members), |Present(cs, members[..from])|, |Present(cs, members[..to])|)
  {
    hide Present, ChannelFor, Filter, Moved;
    var p := IsPresent(cs);
    var i, j := |Filter(members[..from], p)|, |Filter(members[..to], p)|;
    MovedShown(members, from, to, p);
    PresentIsFiltered(cs, members);
    PresentIsFiltered(cs, members[..from]);
    PresentIsFiltered(cs, members[..to]);
    PresentIsFiltered(cs, Moved(members, from, to));
    MovedElementwise(Filter(members, p), Present(cs, members), i, j, m => ChannelFor(cs, m));
    var a, b := Present(cs, Moved(members, from, to)), Moved(Present(cs, members), i, j);
    assert |a| == |b|;
    forall k | 0 <= k < |a| ensures a[k] == b[k] {
      assert ChannelFor(cs, Moved(Filter(members, p), i, j)[k]) == Some(b[k]);
    }
  }

  /** Moving a conversation past others, shown and hidden, moves it the same
      way in the list shown. */
  lemma MovedInServer(cs: Conversations, from: nat, to: nat, p: Conversation -> bool)
    requires from < |cs| && to < |cs| && p(cs[from]) && p(cs[to])
    ensures |Filter(cs[..from], p)| < |Filter(cs, p)| && |Filter(cs[..to], p)| < |Filter(cs, p)|
    ensures Ids(Filter(Moved(cs, from, to), p)) ==
              Moved(Ids(Filter(cs, p)), |Filter(cs[..from], p)|, |Filter(cs[..to], p)|)
  {
    hide Filter, Moved;
    MovedShown(cs, from, to, p);
    var a, i, j := Filter(cs, p), |Filter(cs[..from], p)|, |Filter(cs[..to], p)|;
    MovedElementwise(a, Ids(a), i, j, (c: Conversation) => Some(c.id));
    assert Ids(Moved(a, i, j)) == Moved(Ids(a), i, j);
  }

  /** The same conversations in another order stand for the same members. */
  lemma SameChannelFor(cs: Conversations, r: Conversations, m: Member)
    requires DistinctKeys(cs) && multiset(r) == multiset(cs)
    ensures ChannelFor(r, m) == ChannelFor(cs, m)
  {
    hide ChannelFor, PastLast, MemberOf;
    SameElements(r, cs);
    if ChannelFor(cs, m).Some? && ChannelFor(r, m).Some? {
      var c :| c in cs && IsChannel(m)(c) && c.id == ChannelFor(cs, m).value;
      var d :| d in r && IsChannel(m)(d) && d.id == ChannelFor(r, m).value;
      assert c == d;
    }
  }

  lemma {:induction false} SamePresent(cs: Conversations, r: Conversations, members: seq<Member>)
    requires DistinctKeys(cs) && multiset(r) == multiset(cs)
    ensures Present(r, members) == Present(cs, members)
  {
    if members != [] {
      hide ChannelFor, DistinctKeys;
      SamePresent(cs, r, members[..|members| - 1]);
      SameChannelFor(cs, r, members[|members| - 1]);
    }
  }

  /** The places of the elements that satisfy `p`. */
  function Indexes(cs: Conversations, p: Conversation -> bool): (r: seq<nat>)
    ensures |r| == |Filter(cs, p)|
    ensures forall k :: 0 <= k < |r| ==> r[k] < |cs| && cs[r[k]] == Filter(cs, p)[k]
  {
    if cs == [] then []
    else Indexes(cs[..|cs| - 1], p) + if p(cs[|cs| - 1]) then [|cs| - 1] else []
  }

  lemma IndexesNext(cs: Conversations, n: nat, p: Conversation -> bool)
    requires n < |cs|
    ensures Indexes(cs[..n + 1], p) == Indexes(cs[..n], p) + if p(cs[n]) then [n] else []
  {
    assert cs[..n + 1][..n] == cs[..n];
  }

  lemma {:induction false} IndexesOutside(cs: Conversations, start: nat, end: nat, p: Conversation -> bool)
    requires start <= end <= |cs| && forall i :: start <= i < end ==> !p(cs[i])
    ensures Indexes(cs[..end], p) == Indexes(cs[..start], p)
  {
    if start < end {
      hide Indexes;
      IndexesOutside(cs, start, end - 1, p);
      IndexesNext(cs, end - 1, p);
    }
  }

  /** Before the `k`-th of them are `k` of them. */
  lemma {:induction false} IndexesCount(cs: Conversations, p: Conversation -> bool, k: nat)
    requires k < |Indexes(cs, p)|
    ensures |Filter(cs[..Indexes(cs, p)[k]], p)| == k
  {
    hide Filter;
    var n := |cs| - 1;
    assert cs == cs[..n] + [cs[n]];
    FilterNext(cs[..n], cs[n], p);
    if k < |Indexes(cs[..n], p)| {
      IndexesCount(cs[..n], p, k);
      assert cs[..n][..Indexes(cs, p)[k]] == cs[..Indexes(cs, p)[k]];
    } else {
      assert Indexes(cs, p)[k] == n;
    }
  }

  lemma {:induction false} IndexesHold(cs: Conversations, p: Conversation -> bool, at: nat)
    requires at < |cs|
    ensures at in Indexes(cs, p) <==> p(cs[at])
  {
    if at < |cs| - 1 {
      IndexesHold(cs[..|cs| - 1], p, at);
    }
  }

  /** A move among a server's shown conversations moves the row the same way
      and leaves every other row of the tree as it was. */
  lemma ServerMoveShows(networks: seq<nat>, cs: Conversations, groups: seq<Group>, from: nat, to: nat, row: nat)
    requires DistinctKeys(cs) && from < |cs| && to < |cs| && row < |networks|
    requires cs[from].network == cs[to].network && cs[from].id !in Grouped(cs, groups) &&
             cs[to].id !in Grouped(cs, groups)
    ensures DisplayTree(networks, Moved(cs, from, to), groups).groups == DisplayTree(networks, cs, groups).groups
    ensures
      var p := Ungrouped(networks[row], Grouped(cs, groups));
      var before, after := DisplayTree(networks, cs, groups).servers[row],
                           DisplayTree(networks, Moved(cs, from, to), groups).servers[row];
      && after.0 == before.0
      && |Filter(cs, p)| == |before.1|
      && if networks[row] != cs[from].network then after.1 == before.1
         else |Filter(cs[..from], p)| < |before.1| && |Filter(cs[..to], p)| < |before.1|
              && after.1 == Moved(before.1, |Filter(cs[..from], p)|, |Filter(cs[..to], p)|)
  {
    hide Filter, Moved, DistinctKeys, Present, AllMembers;
    var r := Moved(cs, from, to);
    MovedElements(cs, from, to);
    SamePresent(cs, r, AllMembers(groups));
    forall i | 0 <= i < |groups| ensures Present(r, groups[i].members) == Present(cs, groups[i].members) {
      SamePresent(cs, r, groups[i].members);
    }
    var p := Ungrouped(networks[row], Grouped(cs, groups));
    if networks[row] == cs[from].network {
      MovedInServer(cs, from, to, p);
    } else {
      MovedOthers(cs, from, to, p);
    }
  }

  /** A move within a group moves its row the same way and leaves every other
      row as it was. */
  lemma GroupMoveShows(networks: seq<nat>, cs: Conversations, groups: seq<Group>, group: nat, from: nat, to: nat)
    requires group < |groups| && from < |groups[group].members| && to < |groups[group].members|
    requires ChannelFor(cs, groups[group].members[from]).Some? && ChannelFor(cs, groups[group].members[to]).Some?
    ensures
      var members := groups[group].members;
      var moved := groups[group := groups[group].(members := Moved(members, from, to))];
      var i, j := |Present(cs, members[..from])|, |Present(cs, members[..to])|;
      var before, after := DisplayTree(networks, cs, groups), DisplayTree(networks, cs, moved);
      && after.servers == before.servers && |after.groups| == |before.groups| == |groups|
      && (forall k :: 0 <= k < |groups| && k != group ==> after.groups[k] == before.groups[k])
      && i < |before.groups[group].1| && j < |before.groups[group].1|
      && after.groups[group] == (before.groups[group].0, Moved(before.groups[group].1, i, j))
  {
    hide Filter, Moved, Present, AllMembers, ChannelFor;
    var members := groups[group].members;
    var moved := groups[group := groups[group].(members := Moved(members, from, to))];
    MovedInGroup(cs, members, from, to);
    forall id ensures id in Grouped(cs, moved) <==> id in Grouped(cs, groups) {
      SameGrouped(cs, groups, group, from, to, id);
    }
    forall k | 0 <= k < |networks|
      ensures Filter(cs, Ungrouped(networks[k], Grouped(cs, moved))) ==
                Filter(cs, Ungrouped(networks[k], Grouped(cs, groups)))
    {
      FilterSame(cs, Ungrouped(networks[k], Grouped(cs, moved)), Ungrouped(networks[k], Grouped(cs, groups)));
    }
    assert ServerRows(networks, cs, Grouped(cs, moved)) == ServerRows(networks, cs, Grouped(cs, groups));
  }

  lemma SameGrouped(cs: Conversations, groups: seq<Group>, group: nat, from: nat, to: nat, id: nat)
    requires group < |groups| && from < |groups[group].members| && to < |groups[group].members|
    ensures id in Grouped(cs, groups[group := groups[group].(members := Moved(groups[group].members, from, to))]) <==>
              id in Grouped(cs, groups)
  {
    hide Moved, Present, AllMembers, ChannelFor;
    var members := groups[group].members;
    var moved := groups[group := groups[group].(members := Moved(members, from, to))];
    MovedElements(members, from, to);
    SameElements(Moved(members, from, to), members);
    PresentIn(cs, AllMembers(groups), id);
    PresentIn(cs, AllMembers(moved), id);
    forall m ensures m in AllMembers(moved) <==> m in AllMembers(groups) {
      MemberOfSome(groups, m);
      MemberOfSome(moved, m);
      assert forall i :: 0 <= i < |groups| ==> (m in moved[i].members <==> m in groups[i].members);
    }
  }

  // ---------- Joining and leaving a group ----------

  function OtherThan(m: Member): Member -> bool {
    (x: Member) => x != m
  }

  /** The groups without `m`. */
  function WithoutMember(groups: seq<Group>, m: Member): (r: seq<Group>)
    ensures |r| == |groups|
    ensures forall i :: 0 <= i < |r| ==> r[i] == groups[i].(members := Filter(groups[i].members, OtherThan(m)))
  {
    seq(|groups|, i requires 0 <= i < |groups| => groups[i].(members := Filter(groups[i].members, OtherThan(m))))
  }

  /** A member put into a group shows its channel at the same place among
      those shown: right before the channel it was put before. */
  lemma InsertShows(cs: Conversations, members: seq<Member>, at: nat, m: Member)
    requires at <= |members|
    ensures |Present(cs, members[..at])| <= |Present(cs, members)|
    ensures ChannelFor(cs, m).Some? ==>
              Present(cs, InsertAt(members, at, m)) ==
                InsertAt(Present(cs, members), |Present(cs, members[..at])|, ChannelFor(cs, m).value)
    ensures ChannelFor(cs, m).None? ==> Present(cs, InsertAt(members, at, m)) == Present(cs, members)
    ensures at < |members| && ChannelFor(cs, members[at]).Some? ==>
              |Present(cs, members[..at])| < |Present(cs, members)| &&
              Present(cs, members)[|Present(cs, members[..at])|] == ChannelFor(cs, members[at]).value
  {
    hide Present, ChannelFor;
    var a, b := members[..at], members[at..];
    assert members == a + b;
    PresentSplit(cs, a, b);
    PresentSplit(cs, a + [m], b);
    PresentNext(cs, a, m);
    if ChannelFor(cs, m).None? {
      assert Present(cs, a) + [] == Present(cs, a);
    }
    if at < |members| {
      PresentFirst(cs, b);
    }
  }

  lemma PresentFirst(cs: Conversations, members: seq<Member>)
    requires members != []
    ensures ChannelFor(cs, members[0]).Some? ==>
              Present(cs, members) != [] && Present(cs, members)[0] == ChannelFor(cs, members[0]).value
  {
    hide Present, ChannelFor;
    assert members == [members[0]] + members[1..];
    PresentSplit(cs, [members[0]], members[1..]);
    PresentNone(cs);
    PresentNext(cs, [], members[0]);
    assert [] + [members[0]] == [members[0]];
  }

  /** A member taken out takes its channel out of those shown, and only it. */
  lemma {:induction false} RemoveShows(cs: Conversations, members: seq<Member>, m: Member, id: nat)
    requires Unique(cs) && ChannelFor(cs, m) == Some(id)
    ensures Present(cs, Filter(members, OtherThan(m))) == Except(Present(cs, members), id)
  {
    if members != [] {
      hide Unique, ChannelFor, Present, Filter;
      var before, last := members[..|members| - 1], members[|members| - 1];
      var p := Unlike(id);
      assert members == before + [last];
      RemoveShows(cs, before, m, id);
      FilterNext(before, last, OtherThan(m));
      PresentNext(cs, before, last);
      var shown := ChannelFor(cs, last);
      if shown.Some? {
        FilterNext(Present(cs, before), shown.value, p);
        if shown.value == id {
          OneMember(cs, last, m);
        }
        PresentNext(cs, Filter(before, OtherThan(m)), last);
      } else {
        PresentNext(cs, Filter(before, OtherThan(m)), last);
        assert Present(cs, before) + [] == Present(cs, before);
        assert Filter(Present(cs, before), p) + [] == Filter(Present(cs, before), p);
      }
      assert Filter(before, OtherThan(m)) + [] == Filter(before, OtherThan(m));
      assert Filter(Present(cs, before), p) + [] == Filter(Present(cs, before), p);
    }
  }
}
