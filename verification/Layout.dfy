/** The conversation vector: each network's conversations together, in network
    order, channels before private ones; and the index of channels by folded
    name. */
module Layout {
  import opened Text
  import opened Names
  import opened Slices
  import opened Lists
  import ChannelOrder

  const MAX_CONVERSATIONS_PER_NETWORK := 1_000
  const MAX_PRIVATE_CONVERSATIONS_PER_NETWORK := 100

  /** A channel, or with a `peer` a private conversation. */
  datatype Conversation = Conversation(id: nat, network: nat, peer: Option<string>, name: string) {
    predicate IsPrivate() { peer.Some? }
  }

  type Conversations = seq<Conversation>

  // ---------- The nested layout ----------

  /** Where a conversation belongs: by its network, its channels first. */
  function Place(networks: seq<nat>, c: Conversation): nat {
    2 * Position(networks, c.network) + if c.IsPrivate() then 1 else 0
  }

  ghost predicate LaidOut(networks: seq<nat>, cs: Conversations) {
    && (forall i :: 0 <= i < |cs| ==> cs[i].network in networks)
    && forall i, j :: 0 <= i < j < |cs| ==> Place(networks, cs[i]) <= Place(networks, cs[j])
  }

  /** What the layout means: networks in order and each contiguous, channels
      before private conversations. */
  lemma LayoutIsNested(networks: seq<nat>, cs: Conversations, i: nat, j: nat, k: nat)
    requires LaidOut(networks, cs) && i < j < k < |cs|
    ensures Position(networks, cs[i].network) <= Position(networks, cs[j].network)
    ensures cs[i].network == cs[k].network ==> cs[j].network == cs[i].network
    ensures cs[i].network == cs[j].network && !cs[j].IsPrivate() ==> !cs[i].IsPrivate()
  {
    PlacesApart(networks, cs[i], cs[j]);
    PlacesApart(networks, cs[i], cs[k]);
  }

  lemma InsertKeepsLayout(networks: seq<nat>, cs: Conversations, at: nat, c: Conversation)
    requires LaidOut(networks, cs) && c.network in networks && at <= |cs|
    requires forall i :: 0 <= i < at ==> Place(networks, cs[i]) <= Place(networks, c)
    requires forall i :: at <= i < |cs| ==> Place(networks, c) <= Place(networks, cs[i])
    ensures LaidOut(networks, InsertAt(cs, at, c))
  {
    hide Place;
    var r := InsertAt(cs, at, c);
    assert forall i :: 0 <= i < |r| ==> r[i] == if i < at then cs[i] else if i == at then c else cs[i - 1];
  }

  lemma RemoveKeepsLayout(networks: seq<nat>, cs: Conversations, at: nat)
    requires LaidOut(networks, cs) && at < |cs|
    ensures LaidOut(networks, RemoveAt(cs, at))
  {
    hide Place;
    var r := RemoveAt(cs, at);
    assert forall i :: 0 <= i < |r| ==> r[i] == if i < at then cs[i] else cs[i + 1];
  }

  /** Moving within one place's run keeps the layout. */
  lemma MoveKeepsLayout(networks: seq<nat>, cs: Conversations, from: nat, to: nat)
    requires LaidOut(networks, cs) && from < |cs| && to < |cs| && Place(networks, cs[from]) == Place(networks, cs[to])
    ensures LaidOut(networks, Moved(cs, from, to))
  {
    hide Place;
    var r := RemoveAt(cs, from);
    RemoveKeepsLayout(networks, cs, from);
    assert forall i :: 0 <= i < |r| ==> r[i] == if i < from then cs[i] else cs[i + 1];
    InsertKeepsLayout(networks, r, to, cs[from]);
  }

  lemma FilterKeepsLayout(networks: seq<nat>, cs: Conversations, p: Conversation -> bool)
    requires LaidOut(networks, cs)
    ensures LaidOut(networks, Filter(cs, p))
  {
    hide Place, Filter;
    var r := Filter(cs, p);
    forall i | 0 <= i < |r| ensures r[i].network in networks {
      assert r[i] in r;
    }
    forall i, j | 0 <= i < j < |r| ensures Place(networks, r[i]) <= Place(networks, r[j]) {
      FilterPositions(cs, p, i, j);
    }
  }

  // ---------- Where a new conversation goes ----------

  function OfNetwork(network: nat): Conversation -> bool {
    (c: Conversation) => c.network == network
  }

  function ChannelOf(network: nat): Conversation -> bool {
    (c: Conversation) => c.network == network && !c.IsPrivate()
  }

  /** Those of the network that a new conversation goes after. */
  function GoesAfter(network: nat, isPrivate: bool): Conversation -> bool {
    (c: Conversation) => c.network == network && (isPrivate || !c.IsPrivate())
  }

  function OfLaterNetwork(networks: seq<nat>, network: nat): Conversation -> bool {
    (c: Conversation) => Position(networks, c.network) > Position(networks, network)
  }

  /** After the network's last conversation of the kind, else before its first
      one, else before the first one of a later network. */
  function EndSlot(networks: seq<nat>, cs: Conversations, network: nat, isPrivate: bool): (at: nat)
    ensures at <= |cs|
  {
    var last := PastLast(cs, GoesAfter(network, isPrivate));
    if last > 0 then last
    else
      var first := First(cs, OfNetwork(network));
      if first < |cs| then first else First(cs, OfLaterNetwork(networks, network))
  }

  /** Among a network's channels in `start..end`, the place after those ranked
      before the new one. */
  function ChannelSlot(order: seq<string>, cs: Conversations, start: nat, end: nat, name: string): (at: nat)
    requires start <= end <= |cs| && |order| <= ChannelOrder.MAX_ORDER_NAMES
    ensures start <= at <= end
  {
    start + Narrow(cs[start..end], RankedUpTo(order, name), 0, end - start)
  }

  function RankedUpTo(order: seq<string>, name: string): Conversation -> bool
    requires |order| <= ChannelOrder.MAX_ORDER_NAMES
  {
    (c: Conversation) => ChannelOrder.Rank(order, ToAsciiLower(c.name)) <= ChannelOrder.Rank(order, ToAsciiLower(name))
  }

  function Slot(networks: seq<nat>, order: seq<string>, cs: Conversations, c: Conversation): (at: nat)
    requires |order| <= ChannelOrder.MAX_ORDER_NAMES
    ensures at <= |cs|
  {
    var end := EndSlot(networks, cs, c.network, c.IsPrivate());
    var start := First(cs, ChannelOf(c.network));
    if start < |cs| && !c.IsPrivate() then
      StartBeforeEnd(networks, cs, c.network);
      if order == [] then end else ChannelSlot(order, cs, start, end, c.name)
    else end
  }

  lemma StartBeforeEnd(networks: seq<nat>, cs: Conversations, network: nat)
    requires First(cs, ChannelOf(network)) < |cs|
    ensures First(cs, ChannelOf(network)) < PastLast(cs, GoesAfter(network, false)) ==
              EndSlot(networks, cs, network, false)
  {
    var start := First(cs, ChannelOf(network));
    assert GoesAfter(network, false)(cs[start]);
  }

  lemma EndSlotFits(networks: seq<nat>, cs: Conversations, c: Conversation)
    requires LaidOut(networks, cs) && c.network in networks
    ensures forall i ::
              0 <= i < EndSlot(networks, cs, c.network, c.IsPrivate()) ==> Place(networks, cs[i]) <= Place(networks, c)
    ensures forall i ::
              EndSlot(networks, cs, c.network, c.IsPrivate()) <= i < |cs| ==>
                Place(networks, c) <= Place(networks, cs[i])
  {
    var last := PastLast(cs, GoesAfter(c.network, c.IsPrivate()));
    if last > 0 {
      assert GoesAfter(c.network, c.IsPrivate())(cs[last - 1]);
      LastSlotFits(networks, cs, c, last);
    } else {
      var first := First(cs, OfNetwork(c.network));
      if first < |cs| {
        FirstSlotFits(networks, cs, c, first);
      } else {
        NewNetworkFits(networks, cs, c);
      }
    }
  }

  lemma LastSlotFits(networks: seq<nat>, cs: Conversations, c: Conversation, last: nat)
    requires LaidOut(networks, cs) && c.network in networks
    requires 0 < last <= |cs| && GoesAfter(c.network, c.IsPrivate())(cs[last - 1])
    requires forall i :: last <= i < |cs| ==> !GoesAfter(c.network, c.IsPrivate())(cs[i])
    ensures forall i :: 0 <= i < last ==> Place(networks, cs[i]) <= Place(networks, c)
    ensures forall i :: last <= i < |cs| ==> Place(networks, c) <= Place(networks, cs[i])
  {
    forall i | last <= i < |cs| ensures Place(networks, c) <= Place(networks, cs[i]) {
      assert Place(networks, cs[last - 1]) <= Place(networks, cs[i]);
      assert !GoesAfter(c.network, c.IsPrivate())(cs[i]);
      PlacesApart(networks, cs[i], c);
    }
  }

  lemma PlacesApart(networks: seq<nat>, a: Conversation, c: Conversation)
    requires a.network in networks && c.network in networks
    ensures a.network == c.network <==> Position(networks, a.network) == Position(networks, c.network)
  {
    assert networks[Position(networks, a.network)] == a.network;
    assert networks[Position(networks, c.network)] == c.network;
  }

  lemma FirstSlotFits(networks: seq<nat>, cs: Conversations, c: Conversation, first: nat)
    requires LaidOut(networks, cs) && c.network in networks
    requires first < |cs| && cs[first].network == c.network
    requires forall i :: 0 <= i < |cs| ==> !GoesAfter(c.network, c.IsPrivate())(cs[i])
    requires forall i :: 0 <= i < first ==> cs[i].network != c.network
    ensures forall i :: 0 <= i < first ==> Place(networks, cs[i]) <= Place(networks, c)
    ensures forall i :: first <= i < |cs| ==> Place(networks, c) <= Place(networks, cs[i])
  {
    assert !GoesAfter(c.network, c.IsPrivate())(cs[first]);
    assert Place(networks, cs[first]) == Place(networks, c) + 1;
    forall i | 0 <= i < first ensures Place(networks, cs[i]) <= Place(networks, c) {
      PlacesApart(networks, cs[i], c);
      assert Place(networks, cs[i]) <= Place(networks, cs[first]);
    }
  }

  lemma NewNetworkFits(networks: seq<nat>, cs: Conversations, c: Conversation)
    requires LaidOut(networks, cs) && c.network in networks
    requires forall i :: 0 <= i < |cs| ==> cs[i].network != c.network
    ensures forall i ::
              0 <= i < First(cs, OfLaterNetwork(networks, c.network)) ==> Place(networks, cs[i]) <= Place(networks, c)
    ensures forall i ::
              First(cs, OfLaterNetwork(networks, c.network)) <= i < |cs| ==>
                Place(networks, c) <= Place(networks, cs[i])
  {
    hide LaidOut, Place;
    var at := First(cs, OfLaterNetwork(networks, c.network));
    forall i | 0 <= i < |cs|
      ensures i < at ==> Place(networks, cs[i]) <= Place(networks, c)
      ensures i >= at ==> Place(networks, c) <= Place(networks, cs[i])
    {
      assert i < at ==> !OfLaterNetwork(networks, c.network)(cs[i]);
      OtherNetworkPlace(networks, cs, c, i);
      if i >= at {
        assert OfLaterNetwork(networks, c.network)(cs[at]);
        OtherNetworkPlace(networks, cs, c, at);
        PlacesAscend(networks, cs, at, i);
      }
    }
  }

  lemma OtherNetworkPlace(networks: seq<nat>, cs: Conversations, c: Conversation, i: nat)
    requires LaidOut(networks, cs) && c.network in networks && i < |cs| && cs[i].network != c.network
    ensures Place(networks, cs[i]) <= Place(networks, c) <==> !OfLaterNetwork(networks, c.network)(cs[i])
  {
    PlacesApart(networks, cs[i], c);
  }

  lemma PlacesAscend(networks: seq<nat>, cs: Conversations, i: nat, j: nat)
    requires LaidOut(networks, cs) && i <= j < |cs|
    ensures Place(networks, cs[i]) <= Place(networks, cs[j])
  {
  }

  /** Every new conversation keeps the layout. */
  lemma SlotKeepsLayout(networks: seq<nat>, order: seq<string>, cs: Conversations, c: Conversation)
    requires LaidOut(networks, cs) && c.network in networks && |order| <= ChannelOrder.MAX_ORDER_NAMES
    ensures LaidOut(networks, InsertAt(cs, Slot(networks, order, cs, c), c))
  {
    hide Place, LaidOut, EndSlot, ChannelSlot, GoesAfter, ChannelOf, InsertAt;
    EndSlotFits(networks, cs, c);
    var start, end := First(cs, ChannelOf(c.network)), EndSlot(networks, cs, c.network, c.IsPrivate());
    if start < |cs| && !c.IsPrivate() {
      StartBeforeEnd(networks, cs, c.network);
      ChannelsBetween(networks, cs, c, start, end);
    }
    InsertKeepsLayout(networks, cs, Slot(networks, order, cs, c), c);
  }

  /** The channels of a network fill the part between its first and its last
      one. */
  lemma ChannelsBetween(networks: seq<nat>, cs: Conversations, c: Conversation, start: nat, end: nat)
    requires LaidOut(networks, cs) && c.network in networks && !c.IsPrivate()
    requires start == First(cs, ChannelOf(c.network)) < |cs| && end == PastLast(cs, GoesAfter(c.network, false)) &&
             start < end
    ensures forall i :: start <= i < end ==> Place(networks, cs[i]) == Place(networks, c) && ChannelOf(c.network)(cs[i])
    ensures forall i :: 0 <= i < |cs| && ChannelOf(c.network)(cs[i]) ==> start <= i < end
  {
    hide LaidOut, Place;
    assert ChannelOf(c.network)(cs[start]) && GoesAfter(c.network, false)(cs[end - 1]);
    forall i | start <= i < end ensures Place(networks, cs[i]) == Place(networks, c) && ChannelOf(c.network)(cs[i]) {
      PlaceBetween(networks, cs, c, start, i, end - 1);
    }
    forall i | 0 <= i < |cs| && ChannelOf(c.network)(cs[i]) ensures start <= i < end {
      assert GoesAfter(c.network, false)(cs[i]);
    }
  }

  lemma PlaceBetween(networks: seq<nat>, cs: Conversations, c: Conversation, i: nat, j: nat, k: nat)
    requires LaidOut(networks, cs) && c.network in networks && !c.IsPrivate() && i <= j <= k < |cs|
    requires ChannelOf(c.network)(cs[i]) && ChannelOf(c.network)(cs[k])
    ensures Place(networks, cs[j]) == Place(networks, c) && ChannelOf(c.network)(cs[j])
  {
    assert Place(networks, cs[i]) <= Place(networks, cs[j]) <= Place(networks, cs[k]);
    PlacesApart(networks, cs[j], c);
  }

  // ---------- Sorting ----------

  function NetworkPlace(networks: seq<nat>): Conversation -> int {
    (c: Conversation) => Position(networks, c.network)
  }

  /** The networks were rearranged: sorting by network, which keeps the order
      within each, restores the layout. */
  lemma SortRestoresLayout(before: seq<nat>, networks: seq<nat>, cs: Conversations)
    requires LaidOut(before, cs) && forall c :: c in cs ==> c.network in networks
    ensures LaidOut(networks, SortBy(cs, NetworkPlace(networks)))
    ensures forall n :: Filter(SortBy(cs, NetworkPlace(networks)), ChannelOf(n)) == Filter(cs, ChannelOf(n))
  {
    hide SortBy, Filter, LaidOut;
    var r := SortBy(cs, NetworkPlace(networks));
    SameElements(r, cs);
    forall i, j | 0 <= i < j < |r| ensures Place(networks, r[i]) <= Place(networks, r[j]) {
      assert NetworkPlace(networks)(r[i]) <= NetworkPlace(networks)(r[j]);
      assert r[i] in r && r[j] in r;
      PlacesApart(networks, r[i], r[j]);
      if r[i].network == r[j].network {
        SortedWithin(before, networks, cs, i, j);
      }
    }
    forall i | 0 <= i < |r| ensures r[i].network in networks {
      assert r[i] in r;
    }
    LaidOutIs(networks, r);
    forall n ensures Filter(r, ChannelOf(n)) == Filter(cs, ChannelOf(n)) {
      SortIsStable(cs, NetworkPlace(networks), ChannelOf(n));
    }
  }

  lemma LaidOutIs(networks: seq<nat>, cs: Conversations)
    requires forall i :: 0 <= i < |cs| ==> cs[i].network in networks
    requires forall i, j :: 0 <= i < j < |cs| ==> Place(networks, cs[i]) <= Place(networks, cs[j])
    ensures LaidOut(networks, cs)
  {
  }

  lemma SortedWithin(before: seq<nat>, networks: seq<nat>, cs: Conversations, i: nat, j: nat)
    requires LaidOut(before, cs) && i < j < |SortBy(cs, NetworkPlace(networks))|
    requires SortBy(cs, NetworkPlace(networks))[i].network == SortBy(cs, NetworkPlace(networks))[j].network
    ensures SortBy(cs, NetworkPlace(networks))[j].peer.None? ==> SortBy(cs, NetworkPlace(networks))[i].peer.None?
  {
    hide SortBy, Filter;
    var r := SortBy(cs, NetworkPlace(networks));
    var p := OfNetwork(r[i].network);
    SortIsStable(cs, NetworkPlace(networks), p);
    FilterAt(r, i, p);
    FilterAt(r, j, p);
    FilterEarlier(r, i, j, p);
    FilterPositions(cs, p, |Filter(r[..i], p)|, |Filter(r[..j], p)|);
    var k, m :| 0 <= k < m < |cs| && cs[k] == r[i] && cs[m] == r[j];
    assert Place(before, cs[k]) <= Place(before, cs[m]);
  }

  /** Rearranging conversations of one place keeps the layout. */
  lemma RearrangedKeepsLayout(networks: seq<nat>, cs: Conversations, start: nat, end: nat, part: Conversations,
                              place: nat)
    requires LaidOut(networks, cs) && start <= end <= |cs| && multiset(part) == multiset(cs[start..end])
    requires forall i :: start <= i < end ==> Place(networks, cs[i]) == place
    ensures LaidOut(networks, cs[..start] + part + cs[end..]) && |part| == end - start
    ensures multiset(cs[..start] + part + cs[end..]) == multiset(cs)
  {
    hide Place;
    SameElements(part, cs[start..end]);
    var r := cs[..start] + part + cs[end..];
    assert cs == cs[..start] + cs[start..end] + cs[end..];
    forall i | start <= i < end ensures r[i].network in networks && Place(networks, r[i]) == place {
      assert r[i] == part[i - start] && part[i - start] in part;
      var k :| 0 <= k < end - start && cs[start..end][k] == r[i];
      assert cs[start + k] == r[i];
    }
    assert forall i :: 0 <= i < |r| && !(start <= i < end) ==> r[i] == cs[i];
    assert forall i :: 0 <= i < |r| ==> Place(networks, r[i]) == Place(networks, cs[i]);
  }

  // ---------- The channel index ----------

  type Key = (nat, string)

  function MappingOf(mappings: map<nat, CaseMapping>, network: nat): CaseMapping {
    if network in mappings then mappings[network] else Rfc1459
  }

  function KeyOf(mappings: map<nat, CaseMapping>, c: Conversation): Key {
    (c.network, Fold(MappingOf(mappings, c.network), c.name))
  }

  /** The conversation `id` is a channel with this key. */
  ghost predicate Reaches(cs: Conversations, mappings: map<nat, CaseMapping>, key: Key, id: nat) {
    exists c :: c in cs && !c.IsPrivate() && c.id == id && KeyOf(mappings, c) == key
  }

  /** Every channel's key is indexed, and every entry leads to a channel of
      that key. */
  ghost predicate Indexed(cs: Conversations, ids: map<Key, nat>, mappings: map<nat, CaseMapping>) {
    && (forall c :: c in cs && !c.IsPrivate() ==> KeyOf(mappings, c) in ids)
    && forall key :: key in ids ==> Reaches(cs, mappings, key, ids[key])
  }

  lemma IndexedSame(cs: Conversations, other: Conversations, ids: map<Key, nat>, mappings: map<nat, CaseMapping>)
    requires Indexed(cs, ids, mappings) && forall c :: c in other && !c.IsPrivate() <==> c in cs && !c.IsPrivate()
    ensures Indexed(other, ids, mappings)
  {
    hide KeyOf;
    forall key | key in ids ensures Reaches(other, mappings, key, ids[key]) {
      assert Reaches(cs, mappings, key, ids[key]);
    }
  }

  lemma IndexedInsert(cs: Conversations, ids: map<Key, nat>, mappings: map<nat, CaseMapping>, at: nat, c: Conversation)
    requires Indexed(cs, ids, mappings) && at <= |cs|
    ensures c.IsPrivate() ==> Indexed(InsertAt(cs, at, c), ids, mappings)
    ensures !c.IsPrivate() ==>
              Indexed(InsertAt(cs, at, c),
                      if KeyOf(mappings, c) in ids then ids else ids[KeyOf(mappings, c) := c.id], mappings)
  {
    hide KeyOf, InsertAt;
    var r := InsertAt(cs, at, c);
    InsertedElements(cs, at, c);
    forall x ensures x in r <==> x in cs || x == c {
      assert x in r <==> x in multiset(r);
      assert x in cs <==> x in multiset(cs);
    }
    forall key | key in ids ensures Reaches(r, mappings, key, ids[key]) {
      assert Reaches(cs, mappings, key, ids[key]);
    }
    if !c.IsPrivate() {
      assert Reaches(r, mappings, KeyOf(mappings, c), c.id);
    }
  }

  lemma IndexedNetworkDropped(cs: Conversations, ids: map<Key, nat>, mappings: map<nat, CaseMapping>, network: nat)
    requires Indexed(cs, ids, mappings)
    ensures Indexed(Filter(cs, NotOf(network)), map key | key in ids &&
                    key.0 != network :: ids[key], mappings - {network})
  {
    hide Filter;
    var r := Filter(cs, NotOf(network));
    assert forall c :: c in r ==> KeyOf(mappings, c) == KeyOf(mappings - {network}, c);
    forall key | key in ids && key.0 != network ensures Reaches(r, mappings - {network}, key, ids[key]) {
      assert Reaches(cs, mappings, key, ids[key]);
    }
  }

  function NotOf(network: nat): Conversation -> bool {
    (c: Conversation) => c.network != network
  }

  // ---------- Ranks along the layout ----------

  /** The folded names of a network's channels, in layout order. */
  function ChannelNames(cs: Conversations, network: nat): (names: seq<string>)
    ensures |names| == |Filter(cs, ChannelOf(network))|
    ensures forall i :: 0 <= i < |names| ==> names[i] == ToAsciiLower(Filter(cs, ChannelOf(network))[i].name)
  {
    seq(|Filter(cs, ChannelOf(network))|, i requires 0 <= i < |Filter(cs, ChannelOf(network))| =>
          ToAsciiLower(Filter(cs, ChannelOf(network))[i].name))
  }

  /** A new channel takes the slot its rank gives it among its network's
      channels, and no other network's channels change. */
  lemma SlotKeepsRanks(networks: seq<nat>, order: seq<string>, cs: Conversations, c: Conversation)
    requires LaidOut(networks, cs) && c.network in networks && |order| <= ChannelOrder.MAX_ORDER_NAMES
    requires ChannelOrder.Sorted(order, ChannelNames(cs, c.network))
    ensures ChannelOrder.Sorted(order, ChannelNames(InsertAt(cs, Slot(networks, order, cs, c), c), c.network))
  {
    hide Filter, ChannelNames, LaidOut, Slot, InsertAt, Place;
    var at := Slot(networks, order, cs, c);
    var p := ChannelOf(c.network);
    FilterInserted(cs, at, c, p);
    if c.IsPrivate() {
      assert ChannelNames(InsertAt(cs, at, c), c.network) == ChannelNames(cs, c.network);
    } else {
      var names := ChannelNames(cs, c.network);
      var k := |Filter(cs[..at], p)|;
      NamesInserted(cs, at, c);
      SlotSplitsRanks(networks, order, cs, c);
      ChannelOrder.SlotKeepsSorted(order, names, k, ToAsciiLower(c.name));
    }
  }

  lemma NamesInserted(cs: Conversations, at: nat, c: Conversation)
    requires at <= |cs| && !c.IsPrivate()
    ensures |Filter(cs[..at], ChannelOf(c.network))| <= |ChannelNames(cs, c.network)|
    ensures ChannelNames(InsertAt(cs, at, c), c.network) ==
            InsertAt(ChannelNames(cs, c.network), |Filter(cs[..at], ChannelOf(c.network))|, ToAsciiLower(c.name))
  {
    hide Filter;
    FilterInserted(cs, at, c, ChannelOf(c.network));
  }

  lemma NamesUnchanged(cs: Conversations, at: nat, c: Conversation, network: nat)
    requires at <= |cs| && (c.IsPrivate() || c.network != network)
    ensures ChannelNames(InsertAt(cs, at, c), network) == ChannelNames(cs, network)
  {
    hide Filter, InsertAt;
    FilterInserted(cs, at, c, ChannelOf(network));
  }

  lemma SlotSplitsRanks(networks: seq<nat>, order: seq<string>, cs: Conversations, c: Conversation)
    requires LaidOut(networks, cs) && c.network in networks && |order| <= ChannelOrder.MAX_ORDER_NAMES && !c.IsPrivate()
    requires ChannelOrder.Sorted(order, ChannelNames(cs, c.network))
    ensures
      var k := |Filter(cs[..Slot(networks, order, cs, c)], ChannelOf(c.network))|;
      var names, rank := ChannelNames(cs, c.network), ChannelOrder.Rank(order, ToAsciiLower(c.name));
      && k <= |names|
      && (forall i :: 0 <= i < k ==> ChannelOrder.Rank(order, names[i]) <= rank)
      && forall i :: k <= i < |names| ==> ChannelOrder.Rank(order, names[i]) > rank
  {
    hide Filter, LaidOut, Place, EndSlot, ChannelSlot, ChannelNames;
    var p := ChannelOf(c.network);
    var start, end := First(cs, p), EndSlot(networks, cs, c.network, false);
    if start < |cs| {
      StartBeforeEnd(networks, cs, c.network);
      ChannelsBetween(networks, cs, c, start, end);
      OnlyBetween(cs, start, end, p);
      NamesBetween(cs, c.network, start, end);
      if order == [] {
        PrefixFilter(cs, start, end, end, p);
        UnlistedRanks(ChannelNames(cs, c.network), ToAsciiLower(c.name));
      } else {
        SlotRanks(order, cs, c, start, end);
        PrefixFilter(cs, start, end, ChannelSlot(order, cs, start, end, c.name), p);
      }
    } else {
      NoChannels(cs, Slot(networks, order, cs, c), p);
    }
  }

  lemma UnlistedRanks(names: seq<string>, name: string)
    ensures ChannelOrder.Rank([], name) == ChannelOrder.UNLISTED
    ensures forall i :: 0 <= i < |names| ==> ChannelOrder.Rank([], names[i]) == ChannelOrder.UNLISTED
  {
  }

  lemma NoChannels(cs: Conversations, at: nat, p: Conversation -> bool)
    requires at <= |cs| && First(cs, p) == |cs|
    ensures Filter(cs, p) == [] && Filter(cs[..at], p) == []
  {
    assert forall c :: c in cs[..at] ==> c in cs;
    FilterAll(cs, p);
    FilterAll(cs[..at], p);
  }

  /** When `p` holds exactly in `start..end`, filtering by it is slicing. */
  lemma OnlyBetween(cs: Conversations, start: nat, end: nat, p: Conversation -> bool)
    requires start <= end <= |cs| && forall i :: 0 <= i < |cs| ==> (p(cs[i]) <==> start <= i < end)
    ensures Filter(cs, p) == cs[start..end]
  {
    hide Joined, Filter;
    CutMiddle(cs, start, end);
    OnlyMiddle(cs, cs[..start], cs[start..end], cs[end..], p);
  }

  ghost predicate Joined(cs: Conversations, a: Conversations, b: Conversations, c: Conversations) {
    cs == a + b + c
  }

  lemma CutMiddle(cs: Conversations, start: nat, end: nat)
    requires start <= end <= |cs|
    ensures Joined(cs, cs[..start], cs[start..end], cs[end..])
  {
  }

  lemma OnlyMiddle(cs: Conversations, a: Conversations, b: Conversations, c: Conversations, p: Conversation -> bool)
    requires Joined(cs, a, b, c)
    requires (forall i :: 0 <= i < |a| ==> !p(a[i])) && (forall i :: 0 <= i < |b| ==> p(b[i])) &&
             forall i :: 0 <= i < |c| ==> !p(c[i])
    ensures Filter(cs, p) == b
  {
    hide Filter;
    FilterSplit(a + b, c, p);
    FilterSplit(a, b, p);
    FilterAll(a, p);
    FilterAll(b, p);
    FilterAll(c, p);
    NothingAround(b);
  }

  lemma NothingAround(s: Conversations)
    ensures [] + s + [] == s
  {
  }

  lemma PrefixFilter(cs: Conversations, start: nat, end: nat, at: nat, p: Conversation -> bool)
    requires start <= at <= end <= |cs| && forall i :: 0 <= i < |cs| ==> (p(cs[i]) <==> start <= i < end)
    ensures |Filter(cs[..at], p)| == at - start
  {
    OnlyBetween(cs[..at], start, at, p);
  }

  lemma NamesBetween(cs: Conversations, network: nat, start: nat, end: nat)
    requires start <= end <= |cs| && Filter(cs, ChannelOf(network)) == cs[start..end]
    ensures |ChannelNames(cs, network)| == end - start
    ensures forall i :: 0 <= i < end - start ==> ChannelNames(cs, network)[i] == ToAsciiLower(cs[start + i].name)
  {
  }

  /** Over channels sorted by rank the binary search finds the one place that
      comes after those ranked no later and before the others. */
  lemma SlotRanks(order: seq<string>, cs: Conversations, c: Conversation, start: nat, end: nat)
    requires start <= end <= |cs| && |order| <= ChannelOrder.MAX_ORDER_NAMES
    requires |ChannelNames(cs, c.network)| == end - start
    requires forall i :: 0 <= i < end - start ==> ChannelNames(cs, c.network)[i] == ToAsciiLower(cs[start + i].name)
    requires ChannelOrder.Sorted(order, ChannelNames(cs, c.network))
    ensures
      var at, rank := ChannelSlot(order, cs, start, end, c.name) - start,
                      ChannelOrder.Rank(order, ToAsciiLower(c.name));
      && (forall i :: 0 <= i < at ==> ChannelOrder.Rank(order, ChannelNames(cs, c.network)[i]) <= rank)
      && forall i :: at <= i < end - start ==> ChannelOrder.Rank(order, ChannelNames(cs, c.network)[i]) > rank
  {
    hide ChannelNames, Filter;
    var p, names := RankedUpTo(order, c.name), ChannelNames(cs, c.network);
    var part := cs[start..end];
    assert forall i ::
             0 <= i < |part| ==>
               (p(part[i]) <==> ChannelOrder.Rank(order, names[i]) <= ChannelOrder.Rank(order, ToAsciiLower(c.name)));
    assert Partitioned(part, p);
    var at := Narrow(part, p, 0, end - start);
    assert ChannelSlot(order, cs, start, end, c.name) == start + at;
  }

  // ---------- Identities ----------

  /** Every conversation is there once, under its own identifier. */
  ghost predicate Unique(cs: Conversations) {
    (forall c, d :: c in cs && d in cs && c.id == d.id ==> c == d) && forall c :: multiset(cs)[c] <= 1
  }

  lemma UniqueAt(cs: Conversations, i: nat, j: nat)
    requires Unique(cs) && i < |cs| && j < |cs| && cs[i].id == cs[j].id
    ensures i == j
  {
    assert cs[i] in cs && cs[j] in cs;
    if i < j {
      HeldTwice(cs, i, j);
    } else if j < i {
      HeldTwice(cs, j, i);
    }
  }

  lemma UniqueSame(cs: Conversations, r: Conversations)
    requires Unique(cs) && multiset(r) == multiset(cs)
    ensures Unique(r)
  {
    SameElements(r, cs);
  }

  lemma UniqueInsert(cs: Conversations, at: nat, c: Conversation)
    requires Unique(cs) && at <= |cs| && forall d :: d in cs ==> d.id != c.id
    ensures Unique(InsertAt(cs, at, c))
  {
    hide InsertAt;
    InsertedElements(cs, at, c);
    assert forall x :: x in InsertAt(cs, at, c) <==> x in multiset(InsertAt(cs, at, c));
    assert forall x :: x in cs <==> x in multiset(cs);
  }

  lemma {:induction false} FilterElements(cs: Conversations, p: Conversation -> bool, c: Conversation)
    ensures multiset(Filter(cs, p))[c] <= multiset(cs)[c]
  {
    if cs != [] {
      hide Filter;
      var before, last := cs[..|cs| - 1], cs[|cs| - 1];
      FilterElements(before, p, c);
      assert cs == before + [last];
      FilterNext(before, last, p);
    } else {
      assert Filter(cs, p) == [];
    }
  }

  lemma UniqueFilter(cs: Conversations, p: Conversation -> bool)
    requires Unique(cs)
    ensures Unique(Filter(cs, p))
  {
    hide Filter;
    forall c ensures multiset(Filter(cs, p))[c] <= 1 {
      FilterElements(cs, p, c);
    }
  }

  /** A private conversation gets another name or peer. */
  lemma PrivateReplaced(networks: seq<nat>, cs: Conversations, ids: map<Key, nat>, mappings: map<nat, CaseMapping>,
                        at: nat, c: Conversation)
    requires LaidOut(networks, cs) && Unique(cs) && Indexed(cs, ids, mappings) && at < |cs|
    requires cs[at].IsPrivate() && c.IsPrivate() && c.network == cs[at].network && c.id == cs[at].id
    ensures LaidOut(networks, cs[at := c]) && Unique(cs[at := c]) && Indexed(cs[at := c], ids, mappings)
    ensures forall n :: Filter(cs[at := c], ChannelOf(n)) == Filter(cs, ChannelOf(n))
  {
    hide Filter, LaidOut, Unique, Indexed, Place, InsertAt, RemoveAt;
    var r := RemoveAt(cs, at);
    RemovedUnique(cs, at);
    assert cs[at := c] == InsertAt(r, at, c) by { ReplaceIsInsert(cs, at, c); }
    UniqueInsert(r, at, c);
    ReplacedLaidOut(networks, cs, at, c);
    forall x ensures x in cs[at := c] && !x.IsPrivate() <==> x in cs && !x.IsPrivate() {
      OthersStay(cs, at, c, x);
    }
    IndexedSame(cs, cs[at := c], ids, mappings);
    forall n ensures Filter(cs[at := c], ChannelOf(n)) == Filter(cs, ChannelOf(n)) {
      FilterRemoved(cs, at, ChannelOf(n));
      FilterInserted(r, at, c, ChannelOf(n));
    }
  }

  lemma ReplaceIsInsert(cs: Conversations, at: nat, c: Conversation)
    requires at < |cs|
    ensures cs[at := c] == InsertAt(RemoveAt(cs, at), at, c)
  {
  }

  lemma OthersStay(cs: Conversations, at: nat, c: Conversation, x: Conversation)
    requires at < |cs| && cs[at].IsPrivate() && c.IsPrivate()
    ensures x in cs[at := c] && !x.IsPrivate() <==> x in cs && !x.IsPrivate()
  {
    var r := cs[at := c];
    if x in r && !x.IsPrivate() {
      var i :| 0 <= i < |r| && r[i] == x;
      assert cs[i] == x;
    }
    if x in cs && !x.IsPrivate() {
      var i :| 0 <= i < |cs| && cs[i] == x;
      assert r[i] == x;
    }
  }

  lemma ReplacedLaidOut(networks: seq<nat>, cs: Conversations, at: nat, c: Conversation)
    requires LaidOut(networks, cs) && at < |cs| && c.network == cs[at].network && c.IsPrivate() == cs[at].IsPrivate()
    ensures LaidOut(networks, cs[at := c])
  {
    var r := cs[at := c];
    assert Place(networks, c) == Place(networks, cs[at]);
    assert forall i ::
             0 <= i < |cs| ==> Place(networks, r[i]) == Place(networks, cs[i]) && r[i].network == cs[i].network;
  }

  lemma RemovedUnique(cs: Conversations, at: nat)
    requires Unique(cs) && at < |cs|
    ensures Unique(RemoveAt(cs, at)) && forall d :: d in RemoveAt(cs, at) ==> d in cs && d.id != cs[at].id
    ensures forall d :: d in cs && d != cs[at] ==> d in RemoveAt(cs, at)
  {
    hide RemoveAt;
    var r := RemoveAt(cs, at);
    RemovedElements(cs, at);
    forall d ensures multiset(r)[d] <= multiset(cs)[d] && (d in r <==> d in multiset(r)) {
    }
    forall d | d in r ensures d in cs && d.id != cs[at].id {
      assert d in multiset(r) && multiset(cs)[d] <= 1 && cs[at] in cs;
    }
    forall d | d in cs && d != cs[at] ensures d in r {
      assert d in multiset(cs);
      assert d in multiset(r);
    }
  }

  // ---------- The state ----------

  type Orders = map<nat, seq<string>>

  function OrderOf(orders: Orders, network: nat): seq<string> {
    if network in orders then orders[network] else []
  }

  ghost predicate OrdersFit(orders: Orders) {
    forall n :: |OrderOf(orders, n)| <= ChannelOrder.MAX_ORDER_NAMES
  }

  /** The network's channels are sorted by their ranks in its chosen order. */
  ghost predicate Ranked(cs: Conversations, orders: Orders, network: nat)
    requires OrdersFit(orders)
  {
    ChannelOrder.Sorted(OrderOf(orders, network), ChannelNames(cs, network))
  }

  ghost predicate Sane(networks: seq<nat>, cs: Conversations, ids: map<Key, nat>, mappings: map<nat, CaseMapping>,
                       orders: Orders, nextId: nat) {
    && LaidOut(networks, cs) && Unique(cs) && Indexed(cs, ids, mappings) && OrdersFit(orders)
    && forall c :: c in cs ==> c.id < nextId
  }

  lemma AddKeepsSane(networks: seq<nat>, cs: Conversations, ids: map<Key, nat>, mappings: map<nat, CaseMapping>,
                     orders: Orders, c: Conversation)
    requires Sane(networks, cs, ids, mappings, orders, c.id) && c.network in networks
    ensures
      var at := Slot(networks, OrderOf(orders, c.network), cs, c);
      var key := KeyOf(mappings, c);
      && Sane(networks, InsertAt(cs, at, c),
              if c.IsPrivate() || key in ids then ids else ids[key := c.id], mappings, orders, c.id + 1)
      && forall n :: Ranked(cs, orders, n) ==> Ranked(InsertAt(cs, at, c), orders, n)
  {
    hide LaidOut, Unique, Indexed, KeyOf, Slot, InsertAt, ChannelNames;
    var at := Slot(networks, OrderOf(orders, c.network), cs, c);
    SlotKeepsLayout(networks, OrderOf(orders, c.network), cs, c);
    UniqueInsert(cs, at, c);
    IndexedInsert(cs, ids, mappings, at, c);
    InsertedIn(cs, at, c);
    forall n | Ranked(cs, orders, n) ensures Ranked(InsertAt(cs, at, c), orders, n) {
      if n == c.network {
        SlotKeepsRanks(networks, OrderOf(orders, n), cs, c);
      } else {
        NamesUnchanged(cs, at, c, n);
      }
    }
  }

  lemma InsertedIn(cs: Conversations, at: nat, c: Conversation)
    requires at <= |cs|
    ensures forall x :: x in InsertAt(cs, at, c) <==> x in cs || x == c
  {
    hide InsertAt;
    InsertedElements(cs, at, c);
    forall x ensures x in InsertAt(cs, at, c) <==> x in cs || x == c {
      assert x in InsertAt(cs, at, c) <==> x in multiset(InsertAt(cs, at, c));
      assert x in cs <==> x in multiset(cs);
    }
  }

  /** Rearranged conversations: the same ones, laid out. */
  lemma RearrangedIsSane(before: seq<nat>, networks: seq<nat>, cs: Conversations, r: Conversations, ids: map<Key, nat>,
                         mappings: map<nat, CaseMapping>, orders: Orders, nextId: nat)
    requires Sane(before, cs, ids, mappings, orders, nextId)
    requires multiset(r) == multiset(cs) && LaidOut(networks, r)
    ensures Sane(networks, r, ids, mappings, orders, nextId)
  {
    hide LaidOut, Unique, Indexed;
    SameElements(r, cs);
    UniqueSame(cs, r);
    IndexedSame(cs, r, ids, mappings);
  }

  /** A network's conversations go, with its part of the index. */
  lemma DropIsSane(networks: seq<nat>, cs: Conversations, ids: map<Key, nat>, mappings: map<nat, CaseMapping>,
                   orders: Orders, nextId: nat, network: nat)
    requires Sane(networks, cs, ids, mappings, orders, nextId)
    ensures Sane(networks, Filter(cs, NotOf(network)), map key | key in ids &&
                 key.0 != network :: ids[key], mappings - {network}, orders, nextId)
    ensures forall n :: Ranked(cs, orders, n) ==> Ranked(Filter(cs, NotOf(network)), orders, n)
    ensures forall c :: c in Filter(cs, NotOf(network)) ==> c.network != network
  {
    hide LaidOut, Unique, Indexed, Filter, ChannelNames;
    FilterKeepsLayout(networks, cs, NotOf(network));
    UniqueFilter(cs, NotOf(network));
    IndexedNetworkDropped(cs, ids, mappings, network);
    forall n | Ranked(cs, orders, n) ensures Ranked(Filter(cs, NotOf(network)), orders, n) {
      NamesDropped(cs, network, n);
    }
  }

  lemma NamesDropped(cs: Conversations, network: nat, n: nat)
    ensures ChannelNames(Filter(cs, NotOf(network)), n) == if n == network then [] else ChannelNames(cs, n)
  {
    hide Filter;
    FilterTwice(cs, NotOf(network), ChannelOf(n));
    if n == network {
      FilterAll(Filter(cs, NotOf(network)), ChannelOf(n));
    }
  }

  lemma CloseIsSane(networks: seq<nat>, cs: Conversations, ids: map<Key, nat>, mappings: map<nat, CaseMapping>,
                    orders: Orders, nextId: nat, at: nat)
    requires Sane(networks, cs, ids, mappings, orders, nextId) && at < |cs| && cs[at].IsPrivate()
    ensures Sane(networks, RemoveAt(cs, at), ids, mappings, orders, nextId)
    ensures forall n :: Ranked(cs, orders, n) ==> Ranked(RemoveAt(cs, at), orders, n)
  {
    hide LaidOut, Unique, Indexed, RemoveAt, Filter, KeyOf;
    RemoveKeepsLayout(networks, cs, at);
    RemovedUnique(cs, at);
    IndexedSame(cs, RemoveAt(cs, at), ids, mappings);
    forall n | Ranked(cs, orders, n) ensures Ranked(RemoveAt(cs, at), orders, n) {
      FilterRemoved(cs, at, ChannelOf(n));
      assert ChannelNames(RemoveAt(cs, at), n) == ChannelNames(cs, n);
    }
  }

  lemma ReplaceIsSane(networks: seq<nat>, cs: Conversations, ids: map<Key, nat>, mappings: map<nat, CaseMapping>,
                      orders: Orders, nextId: nat, at: nat, c: Conversation)
    requires Sane(networks, cs, ids, mappings, orders, nextId) && at < |cs|
    requires cs[at].IsPrivate() && c.IsPrivate() && c.network == cs[at].network && c.id == cs[at].id
    ensures Sane(networks, cs[at := c], ids, mappings, orders, nextId)
    ensures forall n :: Ranked(cs, orders, n) ==> Ranked(cs[at := c], orders, n)
  {
    hide LaidOut, Unique, Indexed, Filter;
    PrivateReplaced(networks, cs, ids, mappings, at, c);
    forall x | x in cs[at := c] ensures x.id < nextId {
      if x != c {
        var i :| 0 <= i < |cs| && cs[at := c][i] == x;
        assert cs[i] in cs && x == cs[i];
      } else {
        assert cs[at] in cs;
      }
    }
    forall n | Ranked(cs, orders, n) ensures Ranked(cs[at := c], orders, n) {
      assert ChannelNames(cs[at := c], n) == ChannelNames(cs, n);
    }
  }
}
