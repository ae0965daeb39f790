/** The state behind the channel tree: every operation keeps the nested
    layout, the channel index, the chosen order and the groups. */
module ChannelTree {
  import opened Text
  import opened Names
  import opened Lists
  import opened Layout
  import opened Groups
  import opened Moves
  import opened Headings
  import ChannelOrder

  class ChannelTree {
    var networks: seq<nat>
    var conversations: Conversations
    var channelIds: map<Key, nat>
    var casemappings: map<nat, CaseMapping>
    var orders: Orders
    var nextId: nat
    var groups: seq<Group>
    var nextGroup: nat

    /** What holds at every moment. */
    ghost predicate Sound()
      reads this
    {
      && Sane(networks, conversations, channelIds, casemappings, orders, nextId) && Distinct(networks)
      && OrdersFit(orders)
      && ListedOnce(groups) && forall i :: 0 <= i < |groups| ==> groups[i].id <= nextGroup
    }

    /** What holds between operations: also, the channels of every network
        are sorted by rank, as long as their names are distinct. */
    ghost predicate Valid()
      reads this
    {
      Sound() && Arranged(conversations, orders)
    }

    /** The network's channels are sorted by rank. */
    ghost predicate IsRanked(network: nat)
      reads this
    {
      RankedIn(conversations, orders, network)
    }

    constructor ()
      ensures Valid() && conversations == [] && networks == [] && groups == []
      ensures channelIds == map[] && casemappings == map[] && orders == map[] && nextId == 1 && nextGroup == 0
    {
      networks, conversations, channelIds, casemappings, orders, groups := [], [], map[], map[], map[], [];
      nextId, nextGroup := 1, 0;
    }

    /** A network's conversations, in layout order. */
    function Row(network: nat): Conversations
      reads this`conversations
    {
      Filter(conversations, OfNetwork(network))
    }

    // ---------- Adding and finding ----------

    /** Adds a conversation at its place, within the network's limit. */
    method Add(network: nat, peer: Option<string>, name: string) returns (id: Option<nat>)
      requires Valid()
      modifies this`conversations, this`channelIds, this`nextId
      ensures Valid() && forall n :: old(IsRanked(n)) ==> IsRanked(n)
      ensures id.None? <==> network !in networks || |old(Row(network))| >= MAX_CONVERSATIONS_PER_NETWORK
      ensures id.None? ==> conversations == old(conversations) && channelIds == old(channelIds)
      ensures forall n :: |Row(n)| >= |old(Row(n))| && (n != network ==> Row(n) == old(Row(n)))
      ensures forall key :: key in old(channelIds) ==> key in channelIds && channelIds[key] == old(channelIds)[key]
      ensures nextId == old(nextId) + if id.Some? then 1 else 0
      ensures id.Some? ==>
                var c := Conversation(id.value, network, peer, name);
                && id.value == old(nextId) && OrdersFit(orders)
                && conversations ==
                     InsertAt(old(conversations), Slot(networks, OrderOf(orders, network), old(conversations), c), c)
    {
      hide Arranged, Sane, Slot, KeyOf, InsertAt, Filter, Ranked, ListedOnce;
      if network !in networks || |Filter(conversations, OfNetwork(network))| >= MAX_CONVERSATIONS_PER_NETWORK {
        return None;
      }
      var c := Conversation(nextId, network, peer, name);
      var key := KeyOf(casemappings, c);
      SaneFits(networks, conversations, channelIds, casemappings, orders, nextId);
      AddKeepsSane(networks, conversations, channelIds, casemappings, orders, c);
      AddKeepsRows(conversations, Slot(networks, OrderOf(orders, network), conversations, c), c);
      InsertedIn(conversations, Slot(networks, OrderOf(orders, network), conversations, c), c);
      ArrangedStays(conversations, orders,
                    InsertAt(conversations, Slot(networks, OrderOf(orders, network), conversations, c), c), orders);
      nextId := nextId + 1;
      if !c.IsPrivate() && key !in channelIds {
        channelIds := channelIds[key := c.id];
      }
      conversations := InsertAt(conversations, Slot(networks, OrderOf(orders, network), conversations, c), c);
      return Some(c.id);
    }

    function NameKey(network: nat, name: string): Key
      reads this`casemappings
    {
      (network, Fold(MappingOf(casemappings, network), name))
    }

    /** The channel of that name as the server compares names: found exactly
        when there is one, and then it is one. */
    function ChannelId(network: nat, name: string): (id: Option<nat>)
      requires Valid()
      reads this
      ensures id.Some? <==>
                exists c :: c in conversations && !c.IsPrivate() && KeyOf(casemappings, c) == NameKey(network, name)
      ensures id.Some? ==>
                exists c ::
                  c in conversations && !c.IsPrivate() && KeyOf(casemappings, c) == NameKey(network, name) &&
                  c.id == id.value
    {
      IndexFinds(networks, conversations, channelIds, casemappings, orders, nextId, NameKey(network, name));
      if NameKey(network, name) in channelIds then Some(channelIds[NameKey(network, name)]) else None
    }

    /** A configured channel: only an identical name is the same one. */
    method EnsureConfigured(network: nat, name: string) returns (id: Option<nat>)
      requires Valid()
      modifies this`conversations, this`channelIds, this`nextId
      ensures Valid() && forall n :: old(IsRanked(n)) ==> IsRanked(n)
      ensures id.Some? ==> Conversation(id.value, network, None, name) in conversations
      ensures id.None? ==>
                conversations == old(conversations) &&
                (network !in networks || |Row(network)| >= MAX_CONVERSATIONS_PER_NETWORK)
      ensures forall c :: c in old(conversations) ==> c in conversations
      ensures forall c ::
                c in conversations ==> c in old(conversations) || c == Conversation(old(nextId), network, None, name)
      ensures nextId >= old(nextId) && forall n :: |Row(n)| >= |old(Row(n))| && (n != network ==> Row(n) == old(Row(n)))
      ensures (exists c :: c in old(conversations) && c.network == network && !c.IsPrivate() && c.name == name) ==>
                conversations == old(conversations)
    {
      hide Arranged, Sane, Slot, KeyOf, InsertAt, Filter, Ranked, ListedOnce;
      var exact := First(conversations, (c: Conversation) => c.network == network && !c.IsPrivate() && c.name == name);
      if exact < |conversations| {
        assert conversations[exact] == Conversation(conversations[exact].id, network, None, name);
        return Some(conversations[exact].id);
      }
      ghost var before := conversations;
      id := Add(network, None, name);
      if id.Some? {
        var c := Conversation(id.value, network, None, name);
        InsertedIn(before, Slot(networks, OrderOf(orders, network), before, c), c);
      }
    }

    /** The channel of that name, added when missing. */
    method EnsureChannel(network: nat, name: string) returns (id: Option<nat>)
      requires Valid()
      modifies this`conversations, this`channelIds, this`nextId
      ensures Valid() && forall n :: old(IsRanked(n)) ==> IsRanked(n)
      ensures id.Some? <==> ChannelId(network, name).Some?
      ensures old(ChannelId(network, name)).Some? ==>
                id == old(ChannelId(network, name)) && conversations == old(conversations)
      ensures id.None? ==> conversations == old(conversations)
      ensures old(ChannelId(network, name)).None? && id.Some? ==>
                var c := Conversation(id.value, network, None, name);
                && id.value == old(nextId) && OrdersFit(orders)
                && conversations ==
                     InsertAt(old(conversations), Slot(networks, OrderOf(orders, network), old(conversations), c), c)
      ensures forall c :: c in old(conversations) ==> c in conversations
      ensures forall c ::
                c in conversations ==> c in old(conversations) || c == Conversation(old(nextId), network, None, name)
      ensures forall n :: n != network ==> Row(n) == old(Row(n))
    {
      hide Arranged, Sane, Slot, InsertAt, Filter, Ranked, ListedOnce;
      var known := ChannelId(network, name);
      if known.Some? {
        return known;
      }
      ghost var before := conversations;
      id := Add(network, None, name);
      if id.Some? {
        var c := Conversation(id.value, network, None, name);
        InsertedIn(before, Slot(networks, OrderOf(orders, network), before, c), c);
        assert c in conversations && KeyOf(casemappings, c) == NameKey(network, name);
      }
    }

    function PrivateWith(network: nat, peer: string): Conversation -> bool {
      (c: Conversation) => c.network == network && c.peer == Some(peer)
    }

    /** The private conversation with `peer`, under the name used now; created
        when wanted and the network has room. */
    method PrivateConversation(network: nat, peer: string, name: string, create: bool) returns (id: Option<nat>)
      requires Valid()
      modifies this`conversations, this`channelIds, this`nextId
      ensures Valid() && forall n :: old(IsRanked(n)) ==> IsRanked(n)
      ensures id.Some? ==> Conversation(id.value, network, Some(peer), name) in conversations
      ensures id.None? ==> conversations == old(conversations)
      ensures id.None? <==> (forall c :: c in old(conversations) ==> !PrivateWith(network, peer)(c)) &&
                            (!create || network !in networks || |old(Row(network))| >= MAX_CONVERSATIONS_PER_NETWORK
                             || |Filter(old(conversations),
                                        PrivateOf(network))| >= MAX_PRIVATE_CONVERSATIONS_PER_NETWORK)
      ensures forall c :: c in old(conversations) && !PrivateWith(network, peer)(c) ==> c in conversations
      ensures id.Some? && (forall c :: c in old(conversations) ==> !PrivateWith(network, peer)(c)) ==>
                var c := Conversation(id.value, network, Some(peer), name);
                && id.value == old(nextId) && OrdersFit(orders)
                && conversations ==
                     InsertAt(old(conversations), Slot(networks, OrderOf(orders, network), old(conversations), c), c)
      ensures (exists c :: c in old(conversations) && PrivateWith(network, peer)(c)) ==>
                var at := First(old(conversations), PrivateWith(network, peer));
                at < |conversations| && conversations == old(conversations)[at := old(conversations)[at].(name := name)]
    {
      hide Arranged, Sane, Slot, KeyOf, InsertAt, Filter, Ranked, ListedOnce;
      var at := First(conversations, PrivateWith(network, peer));
      if at < |conversations| {
        assert PrivateWith(network, peer)(conversations[at]);
        Rename(at, conversations[at].(name := name));
        assert conversations[at] == Conversation(conversations[at].id, network, Some(peer), name);
        return Some(conversations[at].id);
      }
      if !create || |Filter(conversations, PrivateOf(network))| >= MAX_PRIVATE_CONVERSATIONS_PER_NETWORK {
        return None;
      }
      ghost var before := conversations;
      id := Add(network, Some(peer), name);
      if id.Some? {
        var c := Conversation(id.value, network, Some(peer), name);
        InsertedIn(before, Slot(networks, OrderOf(orders, network), before, c), c);
      }
    }

    function PrivateOf(network: nat): Conversation -> bool {
      (c: Conversation) => c.network == network && c.IsPrivate()
    }

    /** Counted are the private conversations of the network alone. */
    lemma PrivateCount(cs: Conversations, network: nat)
      ensures |Filter(cs, PrivateOf(network))| == |Places(cs, PrivateOf(network))|
      ensures forall i :: i in Places(cs, PrivateOf(network)) <==>
                0 <= i < |cs| && cs[i].network == network && cs[i].peer.Some?
    {
      FilterSize(cs, PrivateOf(network));
    }

    /** A private conversation takes another name or peer, in place. */
    method Rename(at: nat, c: Conversation)
      requires Valid() && at < |conversations| && conversations[at].IsPrivate() && c.IsPrivate()
      requires c.network == conversations[at].network && c.id == conversations[at].id
      modifies this`conversations
      ensures Valid() && conversations == old(conversations)[at := c] && forall n :: old(IsRanked(n)) ==> IsRanked(n)
      ensures forall d :: d in old(conversations) && d != old(conversations)[at] ==> d in conversations
    {
      hide Arranged, Sane, Ranked, ListedOnce;
      SaneFits(networks, conversations, channelIds, casemappings, orders, nextId);
      ReplaceIsSane(networks, conversations, channelIds, casemappings, orders, nextId, at, c);
      OthersRemain(conversations, at, c);
      ArrangedStays(conversations, orders, conversations[at := c], orders);
      conversations := conversations[at := c];
    }

    /** The peer changed name: the conversation follows unless there is one
        under the new name already. */
    method RenamePrivate(network: nat, from: string, to: string, name: string) returns (id: Option<nat>)
      requires Valid()
      modifies this`conversations
      ensures Valid() && forall n :: old(IsRanked(n)) ==> IsRanked(n)
      ensures id.Some? ==> Conversation(id.value, network, Some(to), name) in conversations
      ensures id.None? ==> conversations == old(conversations)
      ensures id.Some? ==>
                var at := First(old(conversations), PrivateWith(network, from));
                at < |old(conversations)| &&
                conversations == old(conversations)[at := Conversation(id.value, network, Some(to), name)]
      ensures id.Some? <==> (exists c :: c in old(conversations) && PrivateWith(network, from)(c)) &&
                            (from == to || forall c :: c in old(conversations) ==> !PrivateWith(network, to)(c))
    {
      hide Arranged, Sane, Ranked, ListedOnce;
      var at := First(conversations, PrivateWith(network, from));
      if at == |conversations| {
        return None;
      }
      assert PrivateWith(network, from)(conversations[at]);
      var other := First(conversations, PrivateWith(network, to));
      if from != to && other < |conversations| {
        assert PrivateWith(network, to)(conversations[other]);
        return None;
      }
      var c := conversations[at].(peer := Some(to), name := name);
      assert c == Conversation(c.id, network, Some(to), name);
      Rename(at, c);
      assert conversations[at] == c;
      return Some(c.id);
    }

    /** Closes a private conversation; channels are left with PART instead. */
    method ClosePrivate(id: nat) returns (closed: bool)
      requires Valid()
      modifies this`conversations
      ensures Valid() && forall n :: old(IsRanked(n)) ==> IsRanked(n)
      ensures closed <==> exists c :: c in old(conversations) && c.id == id && c.IsPrivate()
      ensures !closed ==> conversations == old(conversations)
      ensures closed ==>
                exists at ::
                  0 <= at < |old(conversations)| && old(conversations)[at].id == id &&
                  conversations == RemoveAt(old(conversations), at)
    {
      hide Arranged, Sane, Unique, Ranked, ListedOnce, RemoveAt;
      var at := First(conversations, (c: Conversation) => c.id == id && c.IsPrivate());
      if at == |conversations| {
        return false;
      }
      assert conversations[at] in conversations;
      SaneFits(networks, conversations, channelIds, casemappings, orders, nextId);
      CloseIsSane(networks, conversations, channelIds, casemappings, orders, nextId, at);
      RemovedUnique(conversations, at);
      ArrangedStays(conversations, orders, RemoveAt(conversations, at), orders);
      conversations := RemoveAt(conversations, at);
      return true;
    }

    // ---------- Networks ----------

    /** The conversations of a network go, with its part of the index. */
    method Drop(network: nat)
      requires Valid()
      modifies this`conversations, this`channelIds, this`casemappings
      ensures Valid() && conversations == Filter(old(conversations), NotOf(network)) &&
              forall n :: old(IsRanked(n)) ==> IsRanked(n)
      ensures casemappings == old(casemappings) - {network}
      ensures channelIds == map key | key in old(channelIds) && key.0 != network :: old(channelIds)[key]
      ensures IsRanked(network) && forall n :: n != network ==> Row(n) == old(Row(n))
    {
      hide Arranged, Sane, Filter, Ranked, ListedOnce;
      SaneFits(networks, conversations, channelIds, casemappings, orders, nextId);
      DropIsSane(networks, conversations, channelIds, casemappings, orders, nextId, network);
      DropKeepsRows(conversations, network);
      DropIsRanked(conversations, orders, network);
      ArrangedBut(conversations, orders, Filter(conversations, NotOf(network)), orders, network);
      conversations := Filter(conversations, NotOf(network));
      channelIds := map key | key in channelIds && key.0 != network :: channelIds[key];
      casemappings := casemappings - {network};
    }

    /** A removed network takes its chosen order and its group members along. */
    method RemoveNetwork(network: nat)
      requires Valid()
      modifies this`conversations, this`channelIds, this`casemappings, this`orders, this`groups
      ensures Valid() && conversations == Filter(old(conversations), NotOf(network))
      ensures forall n :: n != network && old(IsRanked(n)) ==> IsRanked(n)
      ensures groups == WithoutNetwork(old(groups), network) && orders == old(orders) - {network}
      ensures casemappings == old(casemappings) - {network}
      ensures channelIds == map key | key in old(channelIds) && key.0 != network :: old(channelIds)[key]
      ensures forall n :: n != network ==> Row(n) == old(Row(n))
    {
      hide Arranged, Sane, Filter, ListedOnce, ChannelNames;
      Drop(network);
      SaneFits(networks, conversations, channelIds, casemappings, orders, nextId);
      OrderDropped(networks, conversations, channelIds, casemappings, orders, nextId, network);
      ArrangedBut(conversations, orders, conversations, orders - {network}, network);
      orders := orders - {network};
      ListedOnceWithout(groups, network);
      groups := WithoutNetwork(groups, network);
    }

    /** Makes the networks match `configs`: missing ones go with their
        conversations, new ones come with their channels, and all others keep
        theirs. */
    method Sync(configs: seq<Config>)
      requires Valid() && forall i, j :: 0 <= i < j < |configs| ==> configs[i].network != configs[j].network
      modifies this
      ensures Valid() && networks == NetworksOf(configs)
      ensures forall c: Conversation ::
                c.network in old(networks) ==>
                  (c in conversations <==> c in old(conversations) && c.network in networks)
      ensures forall c ::
                c in conversations ==> c.network in networks && (c in old(conversations) || Listed(configs, c))
      ensures forall i ::
                0 <= i < |configs| && configs[i].network !in old(networks) ==>
                  Configured(configs[i].network, configs[i].channels)
      ensures forall n :: n in networks && old(IsRanked(n)) ==> IsRanked(n)
      ensures forall n :: n in networks && n !in old(networks) ==> IsRanked(n)
      ensures forall n :: n in networks && n in old(networks) ==> Row(n) == old(Row(n))
      ensures forall n :: n in networks ==> OrderOf(orders, n) == old(OrderOf(orders, n))
      ensures AgreeOn(networks, old(groups), groups)
    {
      hide Arranged, Sane, Filter, ListedOnce, Ranked, LaidOut, SortBy, AgreeOn;
      var before := networks;
      var kept := NetworksOf(configs);
      DropMissing(kept);
      networks := kept;
      SaneFits(before, conversations, channelIds, casemappings, orders, nextId);
      SortRestoresLayout(before, kept, conversations);
      SortKeepsRows(conversations, kept);
      SameElements(SortBy(conversations, NetworkPlace(kept)), conversations);
      RearrangedIsSane(before, kept, conversations, SortBy(conversations, NetworkPlace(kept)), channelIds, casemappings,
                       orders, nextId);
      RanksByFilter(conversations, SortBy(conversations, NetworkPlace(kept)), orders);
      DistinctNetworks(configs);
      ArrangedStays(conversations, orders, SortBy(conversations, NetworkPlace(kept)), orders);
      conversations := SortBy(conversations, NetworkPlace(kept));
      AbsentIsRanked(conversations, orders, before);
      ConfigureNew(configs, before);
      SaneFits(networks, conversations, channelIds, casemappings, orders, nextId);
      InNetworks(networks, conversations);
    }

    method DropMissing(kept: seq<nat>)
      requires Valid()
      modifies this`conversations, this`channelIds, this`casemappings, this`orders, this`groups
      ensures Valid() && forall c :: c in conversations <==> c in old(conversations) && c.network in kept
      ensures forall n :: n in kept && old(IsRanked(n)) ==> IsRanked(n)
      ensures forall n :: n in kept ==> Row(n) == old(Row(n)) && OrderOf(orders, n) == old(OrderOf(orders, n))
      ensures AgreeOn(kept, old(groups), groups)
    {
      hide Arranged, Sane, Filter, ListedOnce, Ranked, LaidOut;
      SaneFits(networks, conversations, channelIds, casemappings, orders, nextId);
      InNetworks(networks, conversations);
      assert networks[0..] == networks;
      for i := 0 to |networks|
        invariant Valid()
        invariant forall c :: c in old(conversations) && c.network in kept ==> c in conversations
        invariant forall c ::
                    c in conversations ==> c in old(conversations) && (c.network in kept || c.network in networks[i..])
        invariant forall n :: n in kept && old(IsRanked(n)) ==> IsRanked(n)
        invariant forall n :: n in kept ==> Row(n) == old(Row(n)) && OrderOf(orders, n) == old(OrderOf(orders, n))
        invariant AgreeOn(kept, old(groups), groups)
      {
        if networks[i] !in kept {
          DropKeepsMembers(kept, old(groups), groups, networks[i]);
          RemoveNetwork(networks[i]);
        }
        assert networks[i..] == [networks[i]] + networks[i + 1..];
      }
    }

    method ConfigureNew(configs: seq<Config>, before: seq<nat>)
      requires Valid() && networks == NetworksOf(configs)
      modifies this`conversations, this`channelIds, this`nextId
      ensures Valid() && forall n :: old(IsRanked(n)) ==> IsRanked(n)
      ensures forall c :: c in old(conversations) ==> c in conversations
      ensures forall c :: c in conversations ==> c in old(conversations) || (c.network !in before && Listed(configs, c))
      ensures forall n :: n in before ==> Row(n) == old(Row(n))
      ensures forall k ::
                0 <= k < |configs| && configs[k].network !in before ==>
                  Configured(configs[k].network, configs[k].channels)
    {
      hide Arranged, Sane, Filter, ListedOnce, Ranked;
      for i := 0 to |configs|
        invariant Valid() && forall n :: old(IsRanked(n)) ==> IsRanked(n)
        invariant forall c :: c in old(conversations) ==> c in conversations
        invariant forall c ::
                    c in conversations ==> c in old(conversations) || (c.network !in before && Listed(configs, c))
        invariant forall n :: n in before ==> Row(n) == old(Row(n))
        invariant forall k ::
                    0 <= k < i && configs[k].network !in before ==> Configured(configs[k].network, configs[k].channels)
      {
        if configs[i].network !in before {
          ghost var earlier := conversations;
          assert networks[i] == configs[i].network;
          Configure(configs[i].network, configs[i].channels);
          forall k | 0 <= k < i && configs[k].network !in before
            ensures Configured(configs[k].network, configs[k].channels) {
            StillHasChannels(earlier, conversations, configs[k].network, configs[k].channels);
          }
        }
      }
    }

    /** The network has all these channels, unless it is full. */
    ghost predicate Configured(network: nat, channels: seq<string>)
      reads this`conversations
    {
      || |Row(network)| >= MAX_CONVERSATIONS_PER_NETWORK
      || forall k :: 0 <= k < |channels| ==> HasChannel(conversations, network, channels[k])
    }

    method Configure(network: nat, channels: seq<string>)
      requires Valid() && network in networks
      modifies this`conversations, this`channelIds, this`nextId
      ensures Valid() && Configured(network, channels)
      ensures forall n :: old(IsRanked(n)) ==> IsRanked(n)
      ensures forall c :: c in old(conversations) ==> c in conversations
      ensures forall c :: c in conversations ==>
                c in old(conversations) ||
                (c.network == network && c.peer.None? && c.name in channels && c.id >= old(nextId))
      ensures nextId >= old(nextId) && forall n :: n != network ==> Row(n) == old(Row(n))
    {
      hide Arranged, Sane, ListedOnce, Ranked, Filter;
      for i := 0 to |channels|
        invariant Valid() && Configured(network, channels[..i])
        invariant forall n :: old(IsRanked(n)) ==> IsRanked(n)
        invariant forall c :: c in old(conversations) ==> c in conversations
        invariant forall c :: c in conversations ==>
                    c in old(conversations) ||
                    (c.network == network && c.peer.None? && c.name in channels && c.id >= old(nextId))
        invariant nextId >= old(nextId) && forall n :: n != network ==> Row(n) == old(Row(n))
      {
        ghost var before := conversations;
        var id := EnsureConfigured(network, channels[i]);
        StillHasChannels(before, conversations, network, channels[..i]);
        assert channels[..i + 1] == channels[..i] + [channels[i]];
      }
      assert channels[..|channels|] == channels;
    }

    /** A fresh session: the network's conversations are replaced by its
        configured channels, all others stay. */
    method Reset(network: nat, channels: seq<string>)
      requires Valid()
      modifies this`conversations, this`channelIds, this`casemappings, this`nextId
      ensures Valid() && forall n :: old(IsRanked(n)) ==> IsRanked(n)
      ensures network !in networks ==> conversations == old(conversations)
      ensures network in networks ==> Configured(network, channels) && IsRanked(network)
      ensures network in networks ==> forall c :: c in conversations && c.network == network ==>
                c.peer.None? && c.name in channels && c.id >= old(nextId)
      ensures forall n :: n != network ==> Row(n) == old(Row(n))
    {
      hide Arranged, Sane, ListedOnce, Ranked, Filter;
      if network !in networks {
        return;
      }
      Drop(network);
      Configure(network, channels);
    }

    /** The server said how it compares names: the network's channels are
        indexed anew, and where they fold alike the first one is reached. */
    method SetCasemapping(network: nat, mapping: CaseMapping)
      requires Valid()
      modifies this`channelIds, this`casemappings
      ensures Valid() && MappingOf(casemappings, network) == mapping
      ensures forall n :: n != network ==> MappingOf(casemappings, n) == old(MappingOf(casemappings, n))
      ensures forall i :: 0 <= i < |conversations| && IsFirst(conversations, casemappings, network, i) ==>
                KeyOf(casemappings, conversations[i]) in channelIds &&
                channelIds[KeyOf(casemappings, conversations[i])] == conversations[i].id
    {
      hide Sane, ListedOnce, KeyOf, IndexedUpTo;
      ghost var idsBefore, mappingsBefore := channelIds, casemappings;
      casemappings := if mapping == Rfc1459 then casemappings - {network} else casemappings[network := mapping];
      channelIds := map key | key in channelIds && key.0 != network :: channelIds[key];
      IndexCleared(networks, conversations, idsBefore, mappingsBefore, orders, nextId, network, casemappings);
      for i := 0 to |conversations|
        invariant IndexedUpTo(conversations, channelIds, casemappings, network, i)
        modifies this`channelIds
      {
        IndexNext(conversations, channelIds, casemappings, network, i);
        if conversations[i].network == network && !conversations[i].IsPrivate() {
          var key := KeyOf(casemappings, conversations[i]);
          if key !in channelIds {
            channelIds := channelIds[key := conversations[i].id];
          }
        }
      }
      IndexComplete(networks, conversations, idsBefore, mappingsBefore, orders, nextId, network, channelIds,
                    casemappings);
    }

    // ---------- The chosen order ----------

    /** Remembers an order for a network, within its bound. */
    method StoreOrder(network: nat, order: seq<string>)
      requires Sound()
      modifies this`orders
      ensures Sound() && OrderOf(orders, network) == ChannelOrder.Stored(order)
      ensures forall n :: n != network ==> OrderOf(orders, n) == old(OrderOf(orders, n))
      ensures forall n ::
                n != network && RankedIn(old(conversations), old(orders), n) ==> RankedIn(conversations, orders, n)
    {
      hide Arranged, Sane, ListedOnce, ChannelNames;
      var stored := ChannelOrder.Stored(order);
      SaneFits(networks, conversations, channelIds, casemappings, orders, nextId);
      OrderChanged(networks, conversations, channelIds, casemappings, orders, nextId, network, stored);
      orders := if stored == [] then orders - {network} else orders[network := stored];
      SaneFits(networks, conversations, channelIds, casemappings, orders, nextId);
    }

    /** Arranges a network's channels by its chosen order. */
    method ApplyOrder(network: nat)
      requires Sound()
      modifies this`conversations
      ensures Sound() && multiset(conversations) == multiset(old(conversations)) && IsRanked(network)
      ensures forall n :: RankedIn(old(conversations), old(orders), n) ==> RankedIn(conversations, orders, n)
      ensures |OrderOf(orders, network)| <= ChannelOrder.MAX_ORDER_NAMES
      ensures Filter(conversations, ChannelOf(network)) ==
                SortBy(Filter(old(conversations), ChannelOf(network)), RankOf(OrderOf(orders, network)))
      ensures Filter(conversations, NotChannelOf(network)) == Filter(old(conversations), NotChannelOf(network))
    {
      hide Arranged, Sane, ListedOnce, Ranked, LaidOut, SortBy, Filter, First, RankOf, ChannelOf, NotChannelOf,
           SortedBy, Place;
      SaneFits(networks, conversations, channelIds, casemappings, orders, nextId);
      var order := OrderOf(orders, network);
      if order == [] {
        UnorderedIsRanked(conversations, orders, network);
        UnorderedStays(Filter(conversations, ChannelOf(network)));
        return;
      }
      var start := First(conversations, ChannelOf(network));
      if start == |conversations| {
        ChannellessIsRanked(conversations, orders, network);
        NoChannels(conversations, 0, ChannelOf(network));
        assert SortBy([], RankOf(order)) == [];
        return;
      }
      var end := start + First(conversations[start..], NotChannelOf(network));
      ChannelRun(networks, conversations, network, start, end);
      var part := SortBy(conversations[start..end], RankOf(order));
      ApplyIsSane(networks, conversations, channelIds, casemappings, orders, nextId, network, start, end);
      AppliedRow(conversations, order, network, start, end);
      conversations := conversations[..start] + part + conversations[end..];
    }

    /** Adopts a saved order: the network's channels are arranged by it. */
    method SetChannelOrder(network: nat, order: seq<string>)
      requires Valid()
      modifies this`orders, this`conversations
      ensures Valid() && OrderOf(orders, network) == ChannelOrder.Stored(order) && IsRanked(network)
      ensures multiset(conversations) == multiset(old(conversations))
      ensures forall n ::
                n != network ==> (old(IsRanked(n)) ==> IsRanked(n)) && OrderOf(orders, n) == old(OrderOf(orders, n))
      ensures |OrderOf(orders, network)| <= ChannelOrder.MAX_ORDER_NAMES
      ensures Filter(conversations, ChannelOf(network)) ==
                SortBy(Filter(old(conversations), ChannelOf(network)), RankOf(OrderOf(orders, network)))
      ensures Filter(conversations, NotChannelOf(network)) == Filter(old(conversations), NotChannelOf(network))
    {
      hide Arranged, Sane, ListedOnce, Ranked, Filter, SortBy;
      ghost var before, ordersBefore := conversations, orders;
      StoreOrder(network, order);
      ApplyOrder(network);
      SameElements(conversations, before);
      ArrangedBut(before, ordersBefore, conversations, orders, network);
    }

    /** Remembers the network's channels as shown, merged into its order. With
        distinct names they stay sorted by rank. */
    method RememberOrder(network: nat)
      requires Sound()
      modifies this`orders
      ensures Sound() &&
              OrderOf(orders, network) ==
                ChannelOrder.Stored(ChannelOrder.Merge(ChannelNames(conversations, network),
                                                       old(OrderOf(orders, network))))
      ensures Distinct(ChannelNames(conversations, network)) ==> IsRanked(network) && Distinct(OrderOf(orders, network))
      ensures forall n ::
                n != network ==>
                  (RankedIn(old(conversations), old(orders), n) ==> RankedIn(conversations, orders, n)) &&
                  OrderOf(orders, n) == old(OrderOf(orders, n))
    {
      hide Arranged, Sane, ListedOnce, ChannelNames;
      var names := ChannelNames(conversations, network);
      var order := ChannelOrder.MergedChannelOrder(names, OrderOf(orders, network));
      if Distinct(names) {
        ChannelOrder.ShownIsSorted(names, OrderOf(orders, network));
        DistinctPrefix(order, ChannelOrder.Stored(order));
      }
      StoreOrder(network, order);
      SaneFits(networks, conversations, channelIds, casemappings, orders, nextId);
    }

    // ---------- The tree as shown ----------

    /** Builds the tree: the channels present in each group, then what is left
        under each server. */
    method Display() returns (tree: Tree)
      requires Valid()
      ensures tree == DisplayTree(networks, conversations, groups)
    {
      hide Arranged, Sane, ListedOnce, Filter, Present;
      var rows, grouped := [], [];
      if exists i :: 0 <= i < |groups| && groups[i].members != [] {
        rows, grouped := GroupsShown();
      } else {
        NoneGrouped(conversations, groups);
        rows := seq(|groups|, i requires 0 <= i < |groups| reads this => (groups[i].id, []));
        assert rows == GroupRows(conversations, groups);
      }
      var servers: seq<(nat, seq<nat>)> := [];
      for i := 0 to |networks|
        invariant servers == ServerRows(networks[..i], conversations, grouped)
      {
        servers := servers + [(networks[i], Ids(Filter(conversations, Ungrouped(networks[i], grouped))))];
      }
      assert networks[..|networks|] == networks;
      return Tree(rows, servers);
    }

    method GroupsShown() returns (rows: seq<(nat, seq<nat>)>, grouped: seq<nat>)
      ensures rows == GroupRows(conversations, groups) && grouped == Grouped(conversations, groups)
    {
      hide Filter, Present, Keyed;
      rows, grouped := [], [];
      var index := Index();
      NothingGrouped(conversations, groups);
      for i := 0 to |groups|
        invariant rows == GroupRows(conversations, groups[..i]) && grouped == Grouped(conversations, groups[..i])
      {
        var present := PresentIn(conversations, index, groups[i].members);
        GroupNext(conversations, groups, i);
        rows := rows + [(groups[i].id, present)];
        grouped := grouped + present;
      }
      assert groups[..|groups|] == groups;
    }

    /** The channels by member key; a later one with the same key wins. */
    method Index() returns (index: map<Member, nat>)
      ensures Keyed(conversations, index)
    {
      hide MemberOf, Keyed;
      index := map[];
      NothingKeyed();
      for i := 0 to |conversations|
        invariant Keyed(conversations[..i], index)
      {
        KeyedNext(conversations, i, index);
        if !conversations[i].IsPrivate() {
          index := index[MemberOf(conversations[i]) := conversations[i].id];
        }
      }
      assert conversations[..|conversations|] == conversations;
    }

    static method PresentIn(ghost cs: Conversations, index: map<Member, nat>, members: seq<Member>)
      returns (ids: seq<nat>)
      requires Keyed(cs, index)
      ensures ids == Present(cs, members)
    {
      hide ChannelFor;
      ids := [];
      for i := 0 to |members|
        invariant ids == Present(cs, members[..i])
      {
        PresentNext(cs, members[..i], members[i]);
        assert members[..i + 1] == members[..i] + [members[i]];
        if members[i] in index {
          ids := ids + [index[members[i]]];
        }
      }
      assert members[..|members|] == members;
    }

    // ---------- Moving ----------

    /** The run of conversations of one network and kind around `at`. */
    method GroupRange(at: nat) returns (start: nat, end: nat)
      requires Valid() && at < |conversations|
      ensures start <= at < end <= |conversations|
      ensures forall i ::
                0 <= i < |conversations| ==> (AlikeTo(conversations[at])(conversations[i]) <==> start <= i < end)
    {
      hide Arranged, Sane, ListedOnce, LaidOut;
      var c := conversations[at];
      start := PastLast(conversations[..at], NotAlikeTo(c));
      var rest := conversations[at..];
      end := at + First(rest, NotAlikeTo(c));
      assert rest[0] == c && !NotAlikeTo(c)(c);
      SaneFits(networks, conversations, channelIds, casemappings, orders, nextId);
      RunIsWhole(networks, conversations, at, start, end);
    }

    /** The places of the conversations shown beside `at` under its server. */
    method ShownPlaces(tree: Tree, at: nat) returns (shown: seq<nat>)
      requires Valid() && at < |conversations|
      ensures shown == Indexes(conversations, SiblingOf(tree, conversations[at]))
    {
      hide Arranged, Sane, ListedOnce, ParentOf, Indexes, Filter;
      ghost var p := SiblingOf(tree, conversations[at]);
      var start, end := GroupRange(at);
      shown := [];
      NoIndexes(conversations, p);
      IndexesOutside(conversations, 0, start, p);
      for i := start to end
        invariant shown == Indexes(conversations[..i], p)
      {
        IndexesNext(conversations, i, p);
        if ParentOf(tree, conversations[i].id) == Some(OfServer(conversations[at].network)) {
          shown := shown + [i];
        }
      }
      IndexesOutside(conversations, end, |conversations|, p);
      assert conversations[..|conversations|] == conversations;
    }

    /** Rotates the conversations between two places of one run. */
    method Rotate(from: nat, to: nat)
      requires Sound() && from < |conversations| && to < |conversations| &&
               AlikeTo(conversations[from])(conversations[to])
      modifies this`conversations
      ensures Sound() && conversations == Moved(old(conversations), from, to) &&
              multiset(conversations) == multiset(old(conversations))
      ensures forall n ::
                !ChannelOf(n)(old(conversations)[from]) && RankedIn(old(conversations), old(orders), n) ==>
                  RankedIn(conversations, orders, n)
    {
      hide Arranged, Sane, ListedOnce, Moved, LaidOut, Layout.Place, Ranked;
      RotatedIsMoved(conversations, from, to);
      SaneFits(networks, conversations, channelIds, casemappings, orders, nextId);
      AlikePlaces(networks, conversations[from], conversations[to]);
      MoveKeepsLayout(networks, conversations, from, to);
      MovedElements(conversations, from, to);
      RearrangedIsSane(networks, networks, conversations, Moved(conversations, from, to), channelIds, casemappings,
                       orders, nextId);
      MoveKeepsRanks(conversations, orders, from, to);
      if from < to {
        conversations := conversations[..from] + conversations[from + 1..to + 1] + [conversations[from]] +
        conversations[to + 1..];
      } else {
        conversations := conversations[..to] + [conversations[from]] + conversations[to..from] +
        conversations[from + 1..];
      }
    }

    /** The place a move leads to, if it moves anything. */
    method FindPlace(tree: Tree, at: nat, to: MoveTo) returns (place: Option<nat>)
      requires Valid() && at < |conversations|
      ensures
        var c := conversations[at];
        var siblings := Ids(Filter(conversations, SiblingOf(tree, c)));
        && (place.Some? <==> Aim(siblings, c.id, to).Some?)
        && (place.Some? ==> place.value < |conversations| && AlikeTo(c)(conversations[place.value]))
        && (place.Some? ==>
              MovesTo(conversations, Moved(conversations, at, place.value), at, siblings, SiblingOf(tree, c),
                      Aim(siblings, c.id, to).value))
        && (place.Some? <==> RowGoes(siblings, c.id, to))
        && (place.Some? ==>
              RowMoved(siblings, Ids(Filter(Moved(conversations, at, place.value), SiblingOf(tree, c))), c.id, to))
    {
      hide RowGoes, RowMoved, Arranged, Sane, ListedOnce, Filter, Moved, LaidOut, ParentOf, Unique, Indexes, MovesTo;
      var c := conversations[at];
      ghost var p := SiblingOf(tree, c);
      SaneFits(networks, conversations, channelIds, casemappings, orders, nextId);
      var shown := ShownPlaces(tree, at);
      ShownAligned(conversations, p, at);
      ServerRowMeans(conversations, p, c.id, to);
      if at !in shown {
        return None;
      }
      var siblings :=
        seq(|shown|, i requires 0 <= i < |shown| reads this requires shown[i] < |conversations| =>
              conversations[shown[i]].id);
      assert siblings == Ids(Filter(conversations, p));
      var target := Target(siblings, Position(shown, at), to);
      if target.None? || shown[target.value] == at {
        return None;
      }
      ShownMoves(conversations, p, at, target.value);
      PlaceMeans(conversations, p, at, to, Moved(conversations, at, shown[target.value]));
      return Some(shown[target.value]);
    }

    /** Moves a conversation shown under its server among its shown siblings:
        hidden channels between are passed over, all others keep their order,
        and the order of channels is remembered. */
    method MoveInServer(tree: Tree, at: nat, to: MoveTo) returns (moved: bool)
      requires Valid() && at < |conversations| && tree == DisplayTree(networks, conversations, groups)
      modifies this`conversations, this`orders
      ensures Valid() && multiset(conversations) == multiset(old(conversations))
      ensures moved <==>
                Aim(Ids(Filter(old(conversations), SiblingOf(tree, old(conversations)[at]))), old(conversations)[at].id,
                    to).Some?
      ensures moved ==>
                var c := old(conversations)[at];
                var siblings := Ids(Filter(old(conversations), SiblingOf(tree, c)));
                && MovesTo(old(conversations), conversations, at, siblings, SiblingOf(tree, c),
                           Aim(siblings, c.id, to).value)
                && KeepsOthers(old(conversations), conversations, at)
                && (DistinctKeys(old(conversations)) ==>
                      ServerRowMoves(tree, DisplayTree(networks, conversations, groups), c.network, c.id,
                                     siblings[Aim(siblings, c.id, to).value]))
      ensures var c := old(conversations)[at];
              var siblings := Ids(Filter(old(conversations), SiblingOf(tree, c)));
              && (moved <==> RowGoes(siblings, c.id, to))
              && (moved ==> RowMoved(siblings, Ids(Filter(conversations, SiblingOf(tree, c))), c.id, to))
      ensures var c := old(conversations)[at];
              moved && !c.IsPrivate() && Distinct(ChannelNames(conversations, c.network)) ==> IsRanked(c.network)
      ensures forall n :: !ChannelOf(n)(old(conversations)[at]) && old(IsRanked(n)) ==> IsRanked(n)
      ensures !moved ==> conversations == old(conversations) && orders == old(orders)
    {
      hide Arranged, Sane, ListedOnce, Filter, Moved, Ranked, LaidOut, ParentOf, Unique, Indexes, ChannelNames, MovesTo,
           Aim, DisplayTree, KeepsOthers, DistinctKeys, ServerRowMoves, RowGoes, RowMoved;
      var c := conversations[at];
      var place := FindPlace(tree, at, to);
      if place.None? {
        return false;
      }
      ghost var before, ordersBefore := conversations, orders;
      SaneFits(networks, conversations, channelIds, casemappings, orders, nextId);
      ServerMoveMeans(networks, conversations, groups, at, to, Moved(conversations, at, place.value));
      Rotate(at, place.value);
      SameElements(conversations, before);
      if c.IsPrivate() {
        ArrangedStays(before, ordersBefore, conversations, orders);
      } else {
        RememberOrder(c.network);
        RearrangedIsArranged(networks, before, ordersBefore, conversations, channelIds, casemappings, orders, nextId,
                             c.network);
      }
      return true;
    }

    // ---------- Groups ----------

    /** An empty group, within the limit, or the one that has the name. No
        name stands for one that cannot be used. */
    method CreateGroup(name: Option<string>) returns (id: Option<nat>)
      requires Valid()
      modifies this`groups, this`nextGroup
      ensures Valid() &&
              (id.None? <==>
                 name.None? || (|old(groups)| >= MAX_GROUPS && forall g :: g in old(groups) ==> g.name != name.value))
      ensures id.Some? ==> exists g :: g in groups && g.id == id.value && g.name == name.value
      ensures groups == old(groups) || (id.Some? && groups == old(groups) + [Group(id.value, name.value, [])])
      ensures id.Some? && (exists g :: g in old(groups) && g.name == name.value) ==> groups == old(groups)
    {
      hide Arranged, Sane;
      if name.None? {
        return None;
      }
      var at := First(groups, WithName(name.value));
      if at < |groups| {
        assert groups[at] in groups;
        return Some(groups[at].id);
      }
      if |groups| >= MAX_GROUPS {
        return None;
      }
      nextGroup := nextGroup + 1;
      groups := groups + [Group(nextGroup, name.value, [])];
      assert groups[|groups| - 1].id == nextGroup;
      return Some(nextGroup);
    }

    /** A group takes a name no other group has. */
    method RenameGroup(id: nat, name: Option<string>) returns (renamed: bool)
      requires Valid()
      modifies this`groups
      ensures Valid()
      ensures renamed <==>
                name.Some? && (exists g :: g in old(groups) && g.id == id) &&
                forall g :: g in old(groups) && g.name == name.value ==> g.id == id
      ensures groups == if renamed then
                          var at := First(old(groups), WithGroupId(id));
                          assert at < |old(groups)|;
                          old(groups)[at := old(groups)[at].(name := name.value)]
                        else old(groups)
    {
      hide Arranged, Sane;
      if name.None? {
        return false;
      }
      var other := First(groups, WithName(name.value));
      if other < |groups| && groups[other].id != id {
        assert groups[other] in groups;
        return false;
      }
      var at := First(groups, WithGroupId(id));
      if at == |groups| {
        return false;
      }
      assert groups[at] in groups;
      groups := groups[at := groups[at].(name := name.value)];
      return true;
    }

    /** A group goes; its channels are shown under their servers again. */
    method DeleteGroup(id: nat) returns (deleted: bool)
      requires Valid()
      modifies this`groups
      ensures Valid() && groups == Filter(old(groups), GroupOtherThan(id)) && (deleted <==> |groups| != |old(groups)|)
    {
      hide Arranged, Sane, Filter, ListedOnce;
      ListedOnceFiltered(groups, GroupOtherThan(id));
      FilteredIds(groups, GroupOtherThan(id), nextGroup);
      var before := |groups|;
      groups := Filter(groups, GroupOtherThan(id));
      return |groups| != before;
    }

    /** Adopts saved groups, which list each channel once. Repeated names and
        channels of unknown networks are dropped. */
    method SetGroups(specs: seq<GroupSpec>)
      requires Valid() && SavedOnce(specs)
      modifies this`groups, this`nextGroup
      ensures Valid() && groups == Adopted(specs, networks, old(nextGroup))
    {
      hide Arranged, Sane, OrdersFit, Filter, First, ListedOnce, Adopted, SavedOnce, AdoptedFrom, ComesFrom;
      var first := nextGroup;
      AdoptedNothing(networks, first);
      assert specs[..0] == [];
      groups := [];
      for i := 0 to |specs|
        invariant groups == Adopted(specs[..i], networks, first) && nextGroup == first + |groups|
        modifies this`groups, this`nextGroup
      {
        AdoptedNext(specs, i, networks, first);
        if First(groups, WithName(specs[i].name)) == |groups| {
          nextGroup := nextGroup + 1;
          groups := groups + [Group(nextGroup, specs[i].name, Filter(specs[i].members, OfNetworks(networks)))];
        }
      }
      assert specs[..|specs|] == specs;
      AdoptedIds(specs, networks, first);
      AdoptedListedOnce(specs, networks, first);
    }

    /** Takes a channel out of the group that lists it. */
    method LeaveGroup(m: Member) returns (left: bool)
      requires Valid()
      modifies this`groups
      ensures Valid() && groups == WithoutMember(old(groups), m) && (left <==> m in AllMembers(old(groups)))
      ensures !left ==> groups == old(groups)
    {
      hide Arranged, Sane, Filter, ListedOnce;
      var at := First(groups, HasMember(m));
      MemberOfSome(groups, m);
      if at == |groups| {
        NotListed(groups, m);
        assert forall i :: 0 <= i < |groups| ==> !HasMember(m)(groups[i]);
        return false;
      }
      assert HasMember(m)(groups[at]);
      OnlyListed(groups, at, m);
      ListedOnceWithoutMember(groups, m);
      groups := groups[at := groups[at].(members := Filter(groups[at].members, OtherThan(m)))];
      assert groups == WithoutMember(old(groups), m);
      return true;
    }

    /** Shows a channel in a group, before another of its channels or at the
        end, and nowhere else. */
    method MoveToGroup(id: nat, group: nat, before: Option<nat>) returns (moved: bool)
      requires Valid()
      modifies this`groups
      ensures Valid()
      ensures !moved ==> groups == old(groups)
      ensures moved <==>
                && PlaceIn(conversations, id) < |conversations|
                && !conversations[PlaceIn(conversations, id)].IsPrivate()
                && First(old(groups), WithGroupId(group)) < |old(groups)|
                && var m, target := MemberOf(conversations[PlaceIn(conversations, id)]),
                   old(groups)[First(old(groups), WithGroupId(group))];
                   (|target.members| < MAX_GROUP_MEMBERS || m in target.members)
      ensures moved ==>
                var m, g := MemberOf(conversations[PlaceIn(conversations, id)]), First(old(groups), WithGroupId(group));
                var left := WithoutMember(old(groups), m);
                groups ==
                  left[g :=
                         left[g].(members :=
                                    InsertAt(left[g].members, AnchorIn(conversations, left[g].members, before), m))]
      ensures moved && DistinctKeys(conversations) && !IsPrivateIn(conversations, before) ==>
                Rehung(DisplayTree(networks, conversations, old(groups)), DisplayTree(networks, conversations, groups),
                       id, OfGroup(group), before)
    {
      hide DistinctKeys, Rehung, IsPrivateIn, DisplayTree, Arranged, Sane, Filter, ListedOnce, MemberOf, InsertAt;
      var at := PlaceIn(conversations, id);
      if at == |conversations| {
        return false;
      }
      var g := First(groups, WithGroupId(group));
      if conversations[at].IsPrivate() || g == |groups| {
        return false;
      }
      var m := MemberOf(conversations[at]);
      if |groups[g].members| >= MAX_GROUP_MEMBERS && m !in groups[g].members {
        return false;
      }
      ListedOnceWithoutMember(groups, m);
      ListedOnceInserted(WithoutMember(groups, m), g,
                         AnchorIn(conversations, WithoutMember(groups, m)[g].members, before), m);
      JoinMeans(networks, conversations, channelIds, casemappings, orders, nextId, groups, at, group, before);
      var left := LeaveGroup(m);
      groups :=
        groups[g :=
                 groups[g].(members :=
                              InsertAt(groups[g].members, AnchorIn(conversations, groups[g].members, before), m))];
      return true;
    }

    /** Moves a grouped channel among the channels shown in its group. Absent
        members between are passed over. */
    method MoveInGroup(tree: Tree, at: nat, to: MoveTo) returns (moved: bool)
      requires Valid() && at < |conversations| && tree == DisplayTree(networks, conversations, groups)
      modifies this`groups
      ensures Valid()
      ensures
        var c, g := conversations[at], First(old(groups), HasMember(MemberOf(conversations[at])));
        && (moved <==> g < |old(groups)| && Aim(tree.groups[g].1, c.id, to).Some?)
        && (moved ==>
              RowMoves(tree, DisplayTree(networks, conversations, groups), g, Position(tree.groups[g].1, c.id),
                       Aim(tree.groups[g].1, c.id, to).value))
        && (moved <==> g < |old(groups)| && RowGoes(tree.groups[g].1, c.id, to))
        && (moved ==>
              RowMoved(tree.groups[g].1, DisplayTree(networks, conversations, groups).groups[g].1, c.id, to))
      ensures !moved ==> groups == old(groups)
    {
      hide Arranged, Sane, Filter, ListedOnce, MemberOf, Moved, Present, ChannelFor, RowMoves, AllMembers, Unique,
           DisplayTree, Aim, RowGoes, RowMoved;
      var c := conversations[at];
      var g := First(groups, HasMember(MemberOf(c)));
      if g == |groups| {
        return false;
      }
      var siblings := tree.groups[g].1;
      var target := Aim(siblings, c.id, to);
      SaneFits(networks, conversations, channelIds, casemappings, orders, nextId);
      GroupRowMeans(networks, conversations, groups, g, c.id, to);
      if target.None? {
        return false;
      }
      RowOf(networks, conversations, groups, g);
      AimInGroup(networks, conversations, groups, g, at, target.value);
      var place := PlaceIn(conversations, siblings[target.value]);
      RotateMembers(g, Position(groups[g].members, MemberOf(c)),
                    Position(groups[g].members, MemberOf(conversations[place])));
      GroupMoveMeans(networks, conversations, old(groups), g, c.id, to, groups);
      return true;
    }

    method RotateMembers(g: nat, from: nat, to: nat)
      requires g < |groups| && from < |groups[g].members| && to < |groups[g].members|
      modifies this`groups
      ensures groups == old(groups)[g := old(groups)[g].(members := Moved(old(groups)[g].members, from, to))]
    {
      hide Moved;
      var members := groups[g].members;
      RotatedIsMoved(members, from, to);
      var rotated := if from < to then members[..from] + members[from + 1..to + 1] + [members[from]] + members[to + 1..]
                     else members[..to] + [members[from]] + members[to..from] + members[from + 1..];
      groups := groups[g := groups[g].(members := rotated)];
    }

    /** Moves a conversation to another heading, right before `other`. */
    method Relocate(tree: Tree, at: nat, other: nat) returns (moved: bool)
      requires Valid() && at < |conversations| && tree == DisplayTree(networks, conversations, groups)
      modifies this`conversations, this`orders, this`groups
      ensures Valid() && multiset(conversations) == multiset(old(conversations))
      ensures moved <==> MayRelocate(tree, old(conversations), old(groups), at, other)
      ensures !moved ==> conversations == old(conversations) && groups == old(groups) && orders == old(orders)
      ensures moved ==> Relocated(tree, old(conversations), old(groups), at, other, conversations, groups)
      ensures moved && DistinctKeys(old(conversations)) ==>
                Rehung(tree, DisplayTree(networks, conversations, groups), old(conversations)[at].id,
                       ParentOf(tree, other).value, Some(other))
      ensures forall n :: n != old(conversations)[at].network && old(IsRanked(n)) ==> IsRanked(n)
      ensures Arranged(conversations, orders)
    {
      hide Arranged, Sane, Filter, ListedOnce, MemberOf, Moved, Present, ChannelFor, AllMembers, Unique, ParentOf,
           LaidOut, Ranked, ChannelNames, InsertAt, RemoveAt,
           DisplayTree, MovedBefore, Rehung, DistinctKeys, First, Ids;
      var c := conversations[at];
      var from, to := ParentOf(tree, c.id), ParentOf(tree, other);
      var place := PlaceIn(conversations, other);
      SaneFits(networks, conversations, channelIds, casemappings, orders, nextId);
      OwnPlace(conversations, at);
      if from.None? || to.None? || from == to || place == |conversations| ||
      c.IsPrivate() != conversations[place].IsPrivate() {
        return false;
      }
      match to.value
      case OfGroup(group) =>
        moved := MoveToGroup(c.id, group, Some(other));
        if moved {
          RelocatedMeans(networks, old(conversations), channelIds, casemappings, old(orders), nextId, old(groups), at,
                         other, conversations, groups);
        }
      case OfServer(network) =>
        if c.network != network {
          return false;
        }
        ServerShowsOwn(networks, conversations, groups, place, network);
        var left := LeaveGroup(MemberOf(c));
        ghost var before, ordersBefore := conversations, orders;
        PutBefore(at, place);
        RememberOrder(network);
        RearrangedIsArranged(networks, before, ordersBefore, conversations, channelIds, casemappings, orders, nextId,
                             network);
        moved := true;
        RelocatedMeans(networks, old(conversations), channelIds, casemappings, old(orders), nextId, old(groups), at,
                       other, conversations, groups);
    }

    /** Takes the conversation at `at` out and puts it before the one at
        `place`, which is of its network and kind. */
    method PutBefore(at: nat, place: nat)
      requires Sound() && at < |conversations| && place < |conversations| && at != place &&
               AlikeTo(conversations[at])(conversations[place])
      modifies this`conversations
      ensures Sound() && multiset(conversations) == multiset(old(conversations))
      ensures MovedBefore(old(conversations), conversations, at, old(conversations)[place].id)
      ensures forall n ::
                n != old(conversations)[at].network && RankedIn(old(conversations), old(orders), n) ==>
                  RankedIn(conversations, orders, n)
    {
      hide Arranged, Sane, ListedOnce, LaidOut, Ranked, Moved, RemoveAt, InsertAt;
      var to := if at < place then place - 1 else place;
      SaneFits(networks, conversations, channelIds, casemappings, orders, nextId);
      AlikeNear(networks, conversations, at, place, to);
      AlikePlaces(networks, conversations[at], conversations[to]);
      MoveKeepsLayout(networks, conversations, at, to);
      MovedElements(conversations, at, to);
      RearrangedIsSane(networks, networks, conversations, Moved(conversations, at, to), channelIds, casemappings,
                       orders, nextId);
      MoveKeepsRanks(conversations, orders, at, to);
      MovedIsBefore(conversations, at, place);
      conversations := InsertAt(RemoveAt(conversations, at), to, conversations[at]);
    }

    /** Moves a conversation within where it is shown, or under the heading of
        another one. Returns the network when the order changed. */
    method MoveConversation(id: nat, to: MoveTo) returns (changed: Option<nat>)
      requires Valid()
      modifies this`conversations, this`orders, this`groups
      ensures Valid() && multiset(conversations) == multiset(old(conversations))
      ensures changed.None? ==> conversations == old(conversations) && groups == old(groups) && orders == old(orders)
      ensures changed.Some? ==>
                var at := PlaceIn(old(conversations), id);
                at < |old(conversations)| && changed.value == old(conversations)[at].network
      ensures changed.Some? <==>
                MoveGoes(DisplayTree(networks, old(conversations), old(groups)), old(conversations), old(groups), id,
                         to)
      ensures changed.Some? ==>
                MoveDone(networks, old(conversations), old(groups), id, to, conversations, groups)
      ensures var (cs, tree) := (old(conversations), DisplayTree(networks, old(conversations), old(groups)));
              PlaceIn(cs, id) < |cs| && StaysWithin(tree, old(groups), id, to) ==>
                var c := cs[PlaceIn(cs, id)];
                var row := RowWith(tree, tree, cs, old(groups), c);
                && (changed.Some? <==> RowGoes(row, id, to))
                && (changed.Some? ==>
                      RowMoved(row,
                               RowWith(tree, DisplayTree(networks, conversations, groups), conversations, old(groups),
                                       c),
                               id, to))
      ensures var tree := DisplayTree(networks, old(conversations), old(groups));
              changed.Some? && DistinctKeys(old(conversations)) && GoesAcross(tree, id, to) ==>
                Rehung(tree, DisplayTree(networks, conversations, groups), id, ParentOf(tree, to.other).value,
                       Some(to.other))
      ensures changed.Some? ==> forall n :: n != changed.value && old(IsRanked(n)) ==> IsRanked(n)
      ensures Arranged(conversations, orders)
    {
      hide Arranged, Sane, ListedOnce, LaidOut, Ranked, DisplayTree, MoveGoes, MoveDone, DistinctKeys, Rehung,
           GoesAcross, StaysWithin, RowWith, RowGoes, RowMoved;
      var at := PlaceIn(conversations, id);
      if at == |conversations| {
        NothingGoes(DisplayTree(networks, conversations, groups), conversations, groups, id, to);
        return None;
      }
      var c := conversations[at];
      assert c in multiset(conversations);
      var tree := Display();
      var moved := MoveShown(tree, at, to);
      assert c in multiset(conversations);
      MoveMeans(networks, old(conversations), channelIds, casemappings, old(orders), nextId, old(groups), id, to,
                conversations, groups);
      if moved {
        AcrossMeans(networks, old(conversations), channelIds, casemappings, old(orders), nextId, old(groups), id, to,
                    conversations, groups);
      }
      return if moved then Some(c.network) else None;
    }

    /** Moves the conversation at `at` the way its heading and the target's
        call for. */
    method MoveShown(tree: Tree, at: nat, to: MoveTo) returns (moved: bool)
      requires Valid() && at < |conversations| && at == PlaceIn(conversations, conversations[at].id)
      requires tree == DisplayTree(networks, conversations, groups)
      modifies this`conversations, this`orders, this`groups
      ensures Valid() && multiset(conversations) == multiset(old(conversations))
      ensures moved <==> MoveGoes(tree, old(conversations), old(groups), old(conversations)[at].id, to)
      ensures moved ==>
                MoveDone(networks, old(conversations), old(groups), old(conversations)[at].id, to, conversations,
                         groups)
      ensures !moved ==> conversations == old(conversations) && groups == old(groups) && orders == old(orders)
      ensures forall n :: n != old(conversations)[at].network && old(IsRanked(n)) ==> IsRanked(n)
      ensures Arranged(conversations, orders)
    {
      hide Arranged, Sane, Filter, ListedOnce, MemberOf, Moved, Present, ChannelFor, AllMembers, Unique, ParentOf,
           LaidOut, Ranked, ChannelNames, InsertAt, RemoveAt,
        MovesTo, RowMoves, Aim, SiblingOf, DisplayTree, MovedBefore, MayRelocate, Relocated, PlaceIn, Ids, Position,
        RankedIn, OrdersFit, KeepsOthers, DistinctKeys, ServerRowMoves, RowGoes, RowMoved, Rehung, First;
      var c := conversations[at];
      if groups != [] && to.ToPlace? && ParentOf(tree, c.id) != ParentOf(tree, to.other) {
        moved := Relocate(tree, at, to.other);
      } else if groups != [] && First(groups, HasMember(MemberOf(c))) < |groups| {
        moved := MoveInGroup(tree, at, to);
      } else {
        moved := MoveInServer(tree, at, to);
      }
    }

    /** Moves a conversation from another heading right after `other`: before
        the row that follows it, or to the end of that heading. */
    method MoveAfter(id: nat, other: nat) returns (changed: Option<nat>)
      requires Valid()
      modifies this`conversations, this`orders, this`groups
      ensures Valid() && multiset(conversations) == multiset(old(conversations))
      ensures changed.None? ==> conversations == old(conversations) && groups == old(groups) && orders == old(orders)
      ensures changed.Some? <==>
                MayMoveAfter(DisplayTree(networks, old(conversations), old(groups)), old(conversations), old(groups),
                             id, other)
      ensures changed.Some? ==>
                var tree := DisplayTree(networks, old(conversations), old(groups));
                match RowAfter(tree, other)
                case Some(next) =>
                  MoveDone(networks, old(conversations), old(groups), id, ToPlace(next), conversations, groups)
                case None =>
                  EndsRow(networks, old(conversations), old(groups), id, ParentOf(tree, other).value, conversations,
                          groups)
      ensures var tree := DisplayTree(networks, old(conversations), old(groups));
              changed.Some? && DistinctKeys(old(conversations)) ==>
                Rehung(tree, DisplayTree(networks, conversations, groups), id, ParentOf(tree, other).value,
                       RowAfter(tree, other)) &&
                StandsAfter(DisplayTree(networks, conversations, groups), ParentOf(tree, other).value, other, id)
      ensures changed.Some? ==> forall n :: n != changed.value && old(IsRanked(n)) ==> IsRanked(n)
      ensures Arranged(conversations, orders)
    {
      hide DistinctKeys, Rehung, Arranged, Sane, Filter, ListedOnce, MemberOf, ParentOf, DisplayTree, Children,
           MoveGoes, MoveDone, InsertAt,
           AllMembers, RankedIn, OrdersFit, Aim, KindOf, EndsRow;
      var at := PlaceIn(conversations, id);
      if at == |conversations| {
        return None;
      }
      var c := conversations[at];
      var tree := Display();
      var parent := ParentOf(tree, other);
      if parent.None? || ParentOf(tree, id).None? || ParentOf(tree, id) == parent {
        return None;
      }
      var next := RowAfter(tree, other);
      if next.Some? {
        changed := MoveConversation(id, ToPlace(next.value));
        if changed.Some? {
          AfterMeans(networks, old(conversations), channelIds, casemappings, old(orders), nextId, old(groups), id,
                     other, conversations, groups);
          StandsAfterMeans(networks, old(conversations), channelIds, casemappings, old(orders), nextId, old(groups),
                           id, other, DisplayTree(networks, conversations, groups));
        }
        return;
      }
      var target := PlaceIn(conversations, other);
      if target == |conversations| || c.IsPrivate() != conversations[target].IsPrivate() {
        return None;
      }
      var moved := EndRow(id, at, parent.value);
      if moved {
        AfterMeans(networks, old(conversations), channelIds, casemappings, old(orders), nextId, old(groups), id, other,
                   conversations, groups);
        StandsAfterMeans(networks, old(conversations), channelIds, casemappings, old(orders), nextId, old(groups), id,
                         other, DisplayTree(networks, conversations, groups));
      }
      return if moved then Some(c.network) else None;
    }

    /** Moves the conversation at `at` to the end of a heading. */
    method EndRow(id: nat, at: nat, parent: Parent) returns (moved: bool)
      requires Valid() && at == PlaceIn(conversations, id) < |conversations|
      modifies this`conversations, this`orders, this`groups
      ensures Valid() && multiset(conversations) == multiset(old(conversations))
      ensures moved <==>
                match parent
                case OfGroup(group) => MayJoin(old(conversations), old(groups), at, group)
                case OfServer(network) =>
                  old(conversations)[at].network == network &&
                  MemberOf(old(conversations)[at]) in AllMembers(old(groups))
      ensures !moved ==> conversations == old(conversations) && groups == old(groups) && orders == old(orders)
      ensures moved ==> EndsRow(networks, old(conversations), old(groups), id, parent, conversations, groups)
      ensures forall n :: n != old(conversations)[at].network && old(IsRanked(n)) ==> IsRanked(n)
    {
      hide Arranged, Sane, Filter, ListedOnce, MemberOf, DisplayTree, MoveGoes, MoveDone, InsertAt, AllMembers,
           RankedIn, OrdersFit, PlaceIn;
      match parent
      case OfGroup(group) =>
        moved := MoveToGroup(id, group, None);
      case OfServer(network) =>
        if conversations[at].network != network {
          return false;
        }
        moved := LeaveGroup(MemberOf(conversations[at]));
        if moved {
          var last := MoveConversation(id, ToLast);
        }
    }
  }
}
