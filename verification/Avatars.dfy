/** Which avatar belongs to which user of one network, and which messages may
    show it: an avatar belongs to an occupancy of a name, delimited by message
    sequences. */
module Avatars {
  import opened Text
  import opened Lists
  import opened Sizes

  const MAX_CURRENT_AVATARS := 2_048
  const MAX_RETIRED_AVATARS := 512
  const MAX_PEER_AVATARS := 2_048

  /** A name held since a sequence, with its latest avatar. */
  datatype Occupancy = Occupancy(avatar: string, since: int)

  /** An occupancy that ended: `until` no longer belongs to it. */
  datatype Retired = Retired(avatar: string, since: int, until: int)

  datatype Picture = Picture(avatar: string, stamp: int)

  type Ends = map<string, int>

  // ---------- The eviction cutoff ----------

  function Below(ends: Ends, value: int): (r: set<string>)
    ensures forall k :: k in r <==> k in ends && ends[k] < value
  {
    set k | k in ends && ends[k] < value
  }

  function UpTo(ends: Ends, value: int): (r: set<string>)
    ensures forall k :: k in r <==> k in ends && ends[k] <= value
  {
    set k | k in ends && ends[k] <= value
  }

  /** `cutoff` is the value at place `rank` of the sorted ends. */
  ghost predicate IsRank(ends: Ends, rank: nat, cutoff: int) {
    && (exists k :: k in ends && ends[k] == cutoff)
    && |Below(ends, cutoff)| <= rank < |UpTo(ends, cutoff)|
  }

  function EndOf(ends: Ends): string -> int {
    (k: string) => if k in ends then ends[k] else 0
  }

  /** Sorts the ends and picks the one at place `rank`. */
  method Cutoff(ends: Ends, rank: nat) returns (cutoff: int)
    requires rank < |ends|
    ensures IsRank(ends, rank, cutoff)
  {
    hide SortBy;
    var keys: seq<string> := [];
    var rest := ends.Keys;
    while rest != {}
      invariant rest <= ends.Keys && Distinct(keys) && forall k :: k in keys <==> k in ends && k !in rest
      decreases rest
    {
      var k :| k in rest;
      keys := keys + [k];
      rest := rest - {k};
    }
    var sorted := SortBy(keys, EndOf(ends));
    RankSorted(ends, keys, sorted, rank);
    cutoff := ends[sorted[rank]];
  }

  lemma RankSorted(ends: Ends, keys: seq<string>, sorted: seq<string>, rank: nat)
    requires rank < |ends| && Distinct(keys) && forall k :: k in keys <==> k in ends
    requires SortedBy(sorted, EndOf(ends)) && multiset(sorted) == multiset(keys)
    ensures rank < |sorted| && sorted[rank] in ends && IsRank(ends, rank, ends[sorted[rank]])
  {
    hide SortedBy, Distinct, Below, UpTo;
    SameElements(sorted, keys);
    SortedDistinct(keys, sorted);
    SetOfDistinct(keys);
    assert (set k | k in keys) == ends.Keys;
    assert |ends.Keys| == |ends|;
    assert sorted[rank] in sorted;
    FewBelow(ends, sorted, rank);
    ManyUpTo(ends, sorted, rank);
  }

  lemma FewBelow(ends: Ends, sorted: seq<string>, rank: nat)
    requires rank < |sorted| && Distinct(sorted) && SortedBy(sorted, EndOf(ends)) &&
             forall k :: k in sorted <==> k in ends
    ensures sorted[rank] in ends && |Below(ends, ends[sorted[rank]])| <= rank
  {
    var before := sorted[..rank];
    assert sorted[rank] in sorted;
    SetOfDistinct(before);
    forall i | rank <= i < |sorted| ensures sorted[i] !in Below(ends, ends[sorted[rank]]) {
      assert sorted[i] in sorted && EndOf(ends)(sorted[rank]) <= EndOf(ends)(sorted[i]);
    }
    forall k | k in Below(ends, ends[sorted[rank]]) ensures k in before {
      var i :| 0 <= i < |sorted| && sorted[i] == k;
      assert before[i] == k;
    }
    SubsetSize(Below(ends, ends[sorted[rank]]), (set k | k in before));
  }

  lemma ManyUpTo(ends: Ends, sorted: seq<string>, rank: nat)
    requires rank < |sorted| && Distinct(sorted) && SortedBy(sorted, EndOf(ends)) &&
             forall k :: k in sorted <==> k in ends
    ensures sorted[rank] in ends && rank < |UpTo(ends, ends[sorted[rank]])|
  {
    var upTo := sorted[..rank + 1];
    assert sorted[rank] in sorted;
    SetOfDistinct(upTo);
    forall k | k in upTo ensures k in UpTo(ends, ends[sorted[rank]]) {
      var i :| 0 <= i < |upTo| && upTo[i] == k;
      assert sorted[i] in sorted && EndOf(ends)(sorted[i]) <= EndOf(ends)(sorted[rank]);
    }
    SubsetSize((set k | k in upTo), UpTo(ends, ends[sorted[rank]]));
  }

  lemma {:induction false} SetOfDistinct(s: seq<string>)
    requires Distinct(s)
    ensures |set k | k in s| == |s|
  {
    if s != [] {
      var before, last := s[..|s| - 1], s[|s| - 1];
      assert s == before + [last];
      SetOfDistinct(before);
      assert (set k | k in s) == (set k | k in before) + {last};
    }
  }

  // ---------- Occupancies ----------

  ghost predicate Contains(r: Retired, sequence: int) {
    r.since <= sequence < r.until
  }

  /** Ended occupancies of one name follow one another. */
  ghost predicate Chained(past: seq<Retired>, origin: int, clock: int) {
    && (forall i :: 0 <= i < |past| ==> origin <= past[i].since < past[i].until <= clock)
    && forall i, j :: 0 <= i < j < |past| ==> past[i].until <= past[j].since
  }

  function UntilOf(retired: map<string, Retired>): (ends: Ends)
    ensures ends.Keys == retired.Keys && forall k :: k in ends ==> ends[k] == retired[k].until
  {
    map k | k in retired :: retired[k].until
  }

  function StampOf(peer: map<string, Picture>): (ends: Ends)
    ensures ends.Keys == peer.Keys && forall k :: k in ends ==> ends[k] == peer[k].stamp
  {
    map k | k in peer :: peer[k].stamp
  }

  /** What an overflowing table keeps: everything that ended after the
      129th earliest end. */
  ghost predicate Evicted(full: map<string, Retired>, kept: map<string, Retired>) {
    exists cutoff ::
      IsRank(UntilOf(full), MAX_RETIRED_AVATARS / 4, cutoff) && kept == map k | k in full && full[k].until > cutoff ::
      full[k]
  }

  /** Eviction makes room and drops only entries that ended strictly before
      every one it keeps. */
  lemma EvictionIsFair(full: map<string, Retired>, kept: map<string, Retired>)
    requires Evicted(full, kept)
    ensures |kept| < |full| && forall k, j :: k in full && k !in kept && j in kept ==> full[k].until < kept[j].until
  {
    var cutoff :| IsRank(UntilOf(full), MAX_RETIRED_AVATARS / 4, cutoff) && kept == map k | k in full &&
                  full[k].until > cutoff :: full[k];
    var dropped :| dropped in UntilOf(full) && UntilOf(full)[dropped] == cutoff;
    assert kept.Keys <= full.Keys - {dropped};
    SubsetSize(kept.Keys, full.Keys - {dropped});
    assert |kept.Keys| == |kept| && |full.Keys| == |full|;
  }

  /** The occupancy that just ended, later than or with all others, survives
      the eviction exactly when at least 129 others ended strictly before it:
      ending every name at once may forget them all. */
  lemma NewestSurvives(full: map<string, Retired>, kept: map<string, Retired>, key: string)
    requires Evicted(full, kept) && key in full && forall k :: k in full ==> full[k].until <= full[key].until
    ensures key in kept <==> |Below(UntilOf(full), full[key].until)| > MAX_RETIRED_AVATARS / 4
  {
    var ends := UntilOf(full);
    var cutoff :| IsRank(ends, MAX_RETIRED_AVATARS / 4, cutoff) && kept == map k | k in full &&
                  full[k].until > cutoff :: full[k];
    if full[key].until > cutoff {
      SubsetSize(UpTo(ends, cutoff), Below(ends, full[key].until));
    } else {
      assert cutoff == full[key].until;
    }
  }

  type Current = map<string, Occupancy>
  type Pasts = map<string, seq<Retired>>

  ghost function PastIn(past: Pasts, key: string): seq<Retired> {
    if key in past then past[key] else []
  }

  /** The tables agree with every occupancy so far: the retired avatar of a
      name is of the last one that ended, and the current one began later. */
  ghost predicate Sound(current: Current, retired: map<string, Retired>, past: Pasts, origin: int, clock: int) {
    && origin <= clock
    && (forall k :: Chained(PastIn(past, k), origin, clock))
    && (forall k :: k in retired ==> PastIn(past, k) != [] && retired[k] == PastIn(past, k)[|PastIn(past, k)| - 1])
    && (forall k :: k in current ==> origin <= current[k].since <= clock)
    && forall k, i :: k in current && 0 <= i < |PastIn(past, k)| ==> PastIn(past, k)[i].until <= current[k].since
  }

  ghost predicate OccupiedIn(current: Current, past: Pasts, key: string, sequence: int, avatar: string) {
    || (key in current && current[key].since <= sequence && current[key].avatar == avatar)
    || exists i ::
         0 <= i < |PastIn(past, key)| && Contains(PastIn(past, key)[i], sequence) &&
         PastIn(past, key)[i].avatar == avatar
  }

  /** The avatar the tables give for a message. */
  function LookedUp(current: Current, retired: map<string, Retired>, key: string, sequence: int): Option<string> {
    if key in current && sequence >= current[key].since then Some(current[key].avatar)
    else if key in retired && retired[key].since <= sequence < retired[key].until then Some(retired[key].avatar)
    else None
  }

  lemma LookedUpIsOccupied(current: Current, retired: map<string, Retired>, past: Pasts, origin: int, clock: int,
                           key: string, sequence: int)
    requires Sound(current, retired, past, origin, clock)
    ensures
      var avatar := LookedUp(current, retired, key, sequence);
      && (avatar.Some? ==> forall a :: OccupiedIn(current, past, key, sequence, a) <==> a == avatar.value)
      && (sequence < origin ==> avatar.None?)
      && (key in current && current[key].since <= sequence ==> avatar == Some(current[key].avatar))
      && (key in retired && Contains(PastIn(past, key)[|PastIn(past, key)| - 1], sequence) ==>
            avatar == Some(PastIn(past, key)[|PastIn(past, key)| - 1].avatar))
  {
    hide PastIn;
    assert Chained(PastIn(past, key), origin, clock);
    if key !in current || sequence < current[key].since {
      assert key in retired && retired[key].since <= sequence < retired[key].until ==>
          Contains(PastIn(past, key)[|PastIn(past, key)| - 1], sequence);
    }
  }

  /** Whether the message is older than the occupancy of its name that ends, so
      that it can only have been of an earlier one. */
  predicate Earlier(current: Current, ended: set<string>, next: int, key: string, sequence: int) {
    Retires(current, ended, next, key) && sequence < current[key].since
  }

  lemma RenamedStay(before: Current, retired: map<string, Retired>, from: string, to: string, next: int, after: Current,
                    kept: map<string, Retired>)
    requires after == if from in before then (before - {from} - {to})[to := Occupancy(before[from].avatar, next)]
                      else before - {from} - {to}
    requires KeptIfRoom(AllRetired(before, retired, {from, to}, next), kept)
    ensures |AllRetired(before, retired, {from, to}, next)| <= MAX_RETIRED_AVATARS ==>
              forall k, sequence :: sequence < next && !Earlier(before, {from, to}, next, k, sequence) ==>
                LookedUp(after, kept, k, sequence) == LookedUp(before, retired, k, sequence)
  {
    hide AllRetired, LookedUp, Earlier, KeptIfRoom;
    StayIfRoom(before, retired, {from, to}, next, after, kept);
  }

  /** With room for all, every other message so far keeps its avatar. */
  lemma AvatarsStay(before: Current, retired: map<string, Retired>, ended: set<string>, next: int, after: Current)
    requires forall k :: k in after && after[k].since < next ==> k in before && after[k] == before[k] && k !in ended
    requires forall k :: k in before && k !in ended ==> k in after && after[k] == before[k]
    ensures forall k, sequence :: sequence < next && !Earlier(before, ended, next, k, sequence) ==>
              LookedUp(after, AllRetired(before, retired, ended, next), k, sequence) ==
              LookedUp(before, retired, k, sequence)
  {
  }

  lemma StayIfRoom(before: Current, retired: map<string, Retired>, ended: set<string>, next: int, after: Current,
                   kept: map<string, Retired>)
    requires forall k :: k in after && after[k].since < next ==> k in before && after[k] == before[k] && k !in ended
    requires forall k :: k in before && k !in ended ==> k in after && after[k] == before[k]
    requires KeptIfRoom(AllRetired(before, retired, ended, next), kept)
    ensures |AllRetired(before, retired, ended, next)| <= MAX_RETIRED_AVATARS ==>
              forall k, sequence :: sequence < next && !Earlier(before, ended, next, k, sequence) ==>
                LookedUp(after, kept, k, sequence) == LookedUp(before, retired, k, sequence)
  {
    hide AllRetired, LookedUp, Earlier;
    AvatarsStay(before, retired, ended, next, after);
  }

  lemma Later(current: Current, retired: map<string, Retired>, past: Pasts, origin: int, clock: int, next: int)
    requires Sound(current, retired, past, origin, clock) && clock <= next
    ensures Sound(current, retired, past, origin, next)
  {
    forall k ensures Chained(PastIn(past, k), origin, next) {
      assert Chained(PastIn(past, k), origin, clock);
    }
  }

  lemma Ended(current: Current, retired: map<string, Retired>, past: Pasts, origin: int, clock: int, key: string,
              next: int)
    requires Sound(current, retired, past, origin, clock) && clock <= next && key in current
    ensures Sound(current - {key}, retired, past, origin, next)
    ensures current[key].since < next ==>
              var ended := Retired(current[key].avatar, current[key].since, next);
              Sound(current - {key}, retired[key := ended], past[key := PastIn(past, key) + [ended]], origin, next)
  {
    Later(current, retired, past, origin, clock, next);
    if current[key].since < next {
      hide Sound;
      EndedPast(current, retired, past, origin, clock, key, next);
    }
  }

  lemma EndedPast(current: Current, retired: map<string, Retired>, past: Pasts, origin: int, clock: int, key: string,
                  next: int)
    requires Sound(current, retired, past, origin, clock) && clock <= next && key in current &&
             current[key].since < next
    ensures
      var ended := Retired(current[key].avatar, current[key].since, next);
      Sound(current - {key}, retired[key := ended], past[key := PastIn(past, key) + [ended]], origin, next)
  {
    hide Chained;
    var ended := Retired(current[key].avatar, current[key].since, next);
    var after := past[key := PastIn(past, key) + [ended]];
    forall k ensures Chained(PastIn(after, k), origin, next) {
      assert Chained(PastIn(past, k), origin, clock);
      ChainedNext(PastIn(past, k), origin, clock, next, ended);
    }
    assert forall k :: k != key ==> PastIn(after, k) == PastIn(past, k);
  }

  lemma ChainedNext(past: seq<Retired>, origin: int, clock: int, next: int, ended: Retired)
    requires Chained(past, origin, clock) && clock <= next
    ensures Chained(past, origin, next)
    ensures origin <= ended.since < ended.until <= next &&
            (forall i :: 0 <= i < |past| ==> past[i].until <= ended.since) ==>
              Chained(past + [ended], origin, next)
  {
  }

  lemma Fewer(current: Current, retired: map<string, Retired>, kept: map<string, Retired>, past: Pasts, origin: int,
              clock: int)
    requires Sound(current, retired, past, origin, clock) &&
             forall k :: k in kept ==> k in retired && kept[k] == retired[k]
    ensures Sound(current, kept, past, origin, clock)
  {
    hide Chained;
  }

  /** A name taken at `clock`, or taken before and given another picture. */
  lemma Taken(current: Current, retired: map<string, Retired>, past: Pasts, origin: int, clock: int, key: string,
              o: Occupancy)
    requires Sound(current, retired, past, origin, clock)
    requires o.since == if key in current then current[key].since else clock
    ensures Sound(current[key := o], retired, past, origin, clock)
  {
    assert Chained(PastIn(past, key), origin, clock);
  }

  class NetworkAvatars {
    var current: Current
    var retired: map<string, Retired>
    /** CTCP AVATAR pictures by name, with when each was set. */
    var peer: map<string, Picture>
    var peerClock: int
    /** Every occupancy that ended and may hold messages, by name. */
    ghost var past: Pasts
    /** The latest sequence an operation was given. */
    ghost var clock: int
    ghost const origin: int

    ghost predicate Valid()
      reads this
    {
      && |current| <= MAX_CURRENT_AVATARS && |retired| <= MAX_RETIRED_AVATARS && |peer| <= MAX_PEER_AVATARS
      && Sound(current, retired, past, origin, clock) && Stamped(peer, peerClock)
    }

    constructor (origin: int)
      ensures Valid() && this.origin == origin && clock == origin && past == map[]
      ensures current == map[] && retired == map[] && peer == map[]
    {
      current, retired, peer, peerClock, past := map[], map[], map[], 0, map[];
      clock := origin;
      this.origin := origin;
    }

    /** Some occupancy of the name contains the message and has this avatar. */
    ghost predicate Occupied(key: string, sequence: int, avatar: string)
      reads this
    {
      OccupiedIn(current, past, key, sequence, avatar)
    }

    /** The metadata avatar for a message: the latest one of the single
        occupancy of its name that contains it. */
    function Metadata(key: string, sequence: int): (avatar: Option<string>)
      requires Valid()
      reads this
      ensures avatar.Some? ==> forall a :: Occupied(key, sequence, a) <==> a == avatar.value
      ensures sequence < origin ==> avatar.None?
      ensures key in current && current[key].since <= sequence ==> avatar == Some(current[key].avatar)
      ensures key in retired ==> PastIn(past, key) != []
      ensures key in retired && Contains(PastIn(past, key)[|PastIn(past, key)| - 1], sequence) ==>
                avatar == Some(PastIn(past, key)[|PastIn(past, key)| - 1].avatar)
    {
      LookedUpIsOccupied(current, retired, past, origin, clock, key, sequence);
      LookedUp(current, retired, key, sequence)
    }

    /** The avatar for a message: a metadata avatar, else the name's picture. */
    function ForMessage(key: string, sequence: int): (avatar: Option<string>)
      requires Valid()
      reads this
      ensures Metadata(key, sequence).Some? ==> avatar == Metadata(key, sequence)
      ensures Metadata(key, sequence).None? ==> avatar == if key in peer then Some(peer[key].avatar) else None
    {
      if key in current && sequence >= current[key].since then Some(current[key].avatar)
      else if key in retired && retired[key].since <= sequence < retired[key].until then Some(retired[key].avatar)
      else if key in peer then Some(peer[key].avatar)
      else None
    }

    /** A user's avatar was set, or removed. */
    method Set(key: string, avatar: Option<string>, next: int)
      requires Valid() && clock <= next
      modifies this`current, this`retired, this`past, this`clock
      ensures Valid() && clock == next
      ensures avatar.None? ==>
                current == old(current) - {key} &&
                AllEnded(old(current), old(past), old(current).Keys - {key}, next, past)
      ensures avatar.None? ==> KeptIfRoom(AllRetired(old(current), old(retired), {key}, next), retired)
      ensures avatar.None? && |AllRetired(old(current), old(retired), {key}, next)| <= MAX_RETIRED_AVATARS ==>
                forall k, sequence :: sequence < next && !Earlier(old(current), {key}, next, k, sequence) ==>
                  Metadata(k, sequence) == old(Metadata(k, sequence))
      ensures avatar.Some? ==> retired == old(retired) && past == old(past)
      ensures avatar.Some? ==>
                current == if key in old(current) then old(current)[key := old(current)[key].(avatar := avatar.value)]
                           else if |old(current)| < MAX_CURRENT_AVATARS
                                then old(current)[key := Occupancy(avatar.value, next)]
                           else old(current)
    {
      hide Sound, Stamped, Evicted, RetiredWith, AllEnded, KeptIfRoom, AllRetired, PastIn, LookedUp, Earlier;
      if avatar.None? {
        NoneEnded(current, past, next);
        OneEnded(current, past, current.Keys, next, past, key);
        Retire(key, next);
        if |AllRetired(old(current), old(retired), {key}, next)| <= MAX_RETIRED_AVATARS {
          RetiredOne(old(current), old(retired), {key}, key, next, retired);
          RetiredNone(current, retired, {key} - {key}, next);
        }
        RoomDecides(AllRetired(old(current), old(retired), {key}, next), retired);
        StayIfRoom(old(current), old(retired), {key}, next, current, retired);
        return;
      }
      Later(current, retired, past, origin, clock, next);
      clock := next;
      if key in current {
        Taken(current, retired, past, origin, clock, key, current[key].(avatar := avatar.value));
        SizeOfUpdate(current, key, current[key].(avatar := avatar.value));
        current := current[key := current[key].(avatar := avatar.value)];
      } else if |current| < MAX_CURRENT_AVATARS {
        Taken(current, retired, past, origin, clock, key, Occupancy(avatar.value, next));
        SizeOfUpdate(current, key, Occupancy(avatar.value, next));
        current := current[key := Occupancy(avatar.value, next)];
      }
    }

    /** Ends an occupancy. Its avatar is kept for its messages unless none can
        have belonged to it; an overflowing table drops its oldest quarter. */
    method Retire(key: string, next: int)
      requires Valid() && clock <= next
      modifies this`current, this`retired, this`past, this`clock
      ensures Valid() && clock == next && current == old(current) - {key}
      ensures key !in old(current) || old(current)[key].since >= next ==> retired == old(retired) && past == old(past)
      ensures key in old(current) && old(current)[key].since < next ==>
                var ended := Retired(old(current)[key].avatar, old(current)[key].since, next);
                && past == old(past)[key := PastIn(old(past), key) + [ended]]
                && RetiredWith(old(retired), key, ended, retired)
    {
      hide Sound, Stamped, RetiredWith, PastIn;
      if key in current {
        EndHeld(key, next);
      } else {
        assert current - {key} == current;
        Later(current, retired, past, origin, clock, next);
        clock := next;
      }
    }

    method EndHeld(key: string, next: int)
      requires Valid() && clock <= next && key in current
      modifies this`current, this`retired, this`past, this`clock
      ensures Valid() && clock == next && current == old(current) - {key}
      ensures old(current)[key].since >= next ==> retired == old(retired) && past == old(past)
      ensures old(current)[key].since < next ==>
                var ended := Retired(old(current)[key].avatar, old(current)[key].since, next);
                && past == old(past)[key := PastIn(old(past), key) + [ended]]
                && RetiredWith(old(retired), key, ended, retired)
    {
      hide Sound, Stamped, RetiredWith, PastIn;
      Ended(current, retired, past, origin, clock, key, next);
      SizeOfRemoval(current, key);
      var occupancy := current[key];
      Vacate(key, next);
      if occupancy.since < next {
        KeepRetired(key, Retired(occupancy.avatar, occupancy.since, next));
      }
    }

    method Vacate(key: string, next: int)
      modifies this`current, this`clock
      ensures clock == next && current == old(current) - {key}
    {
      clock := next;
      current := current - {key};
    }

    /** Keeps an ended occupancy, with room made when the table overflows. */
    method KeepRetired(key: string, ended: Retired)
      requires |retired| <= MAX_RETIRED_AVATARS
      requires Sound(current, retired[key := ended], past[key := PastIn(past, key) + [ended]], origin, clock)
      modifies this`retired, this`past
      ensures RetiredWith(old(retired), key, ended, retired) && |retired| <= MAX_RETIRED_AVATARS
      ensures past == old(past)[key := PastIn(old(past), key) + [ended]] && Sound(current, retired, past, origin, clock)
    {
      hide Evicted, Sound, PastIn;
      SizeOfUpdate(retired, key, ended);
      past := past[key := PastIn(past, key) + [ended]];
      retired := retired[key := ended];
      ghost var full := retired;
      if |retired| > MAX_RETIRED_AVATARS {
        MakeRoom();
        Fewer(current, full, retired, past, origin, clock);
      }
    }

    /** Drops the earliest-ended quarter of the retired avatars. */
    method MakeRoom()
      requires |retired| > MAX_RETIRED_AVATARS
      modifies this`retired
      ensures Evicted(old(retired), retired) && |retired| < |old(retired)|
      ensures forall k :: k in retired ==> k in old(retired) && retired[k] == old(retired)[k]
    {
      hide IsRank;
      SameSize(retired);
      var cutoff := Cutoff(UntilOf(retired), MAX_RETIRED_AVATARS / 4);
      retired := map k | k in retired && retired[k].until > cutoff :: retired[k];
      EvictionIsFair(old(retired), retired);
    }

    /** A user changed name: the avatar follows them, under a new occupancy. */
    method Rename(from: string, to: string, next: int)
      requires Valid() && clock <= next
      modifies this`current, this`retired, this`past, this`clock
      ensures Valid() && clock == next
      ensures from !in old(current) ==> current == old(current) - {from} - {to}
      ensures from in old(current) ==>
                current == (old(current) - {from} - {to})[to := Occupancy(old(current)[from].avatar, next)]
      ensures AllEnded(old(current), old(past), old(current).Keys - {from} - {to}, next, past)
      ensures KeptIfRoom(AllRetired(old(current), old(retired), {from, to}, next), retired)
      ensures |AllRetired(old(current), old(retired), {from, to}, next)| <= MAX_RETIRED_AVATARS ==>
                forall k, sequence :: sequence < next && !Earlier(old(current), {from, to}, next, k, sequence) ==>
                  Metadata(k, sequence) == old(Metadata(k, sequence))
    {
      hide Sound, Stamped, Evicted, RetiredWith, PastIn, AllEnded, KeptIfRoom, AllRetired, LookedUp, Earlier;
      var known := from in current;
      var avatar := if known then current[from].avatar else "";
      SizeOfRemoval(current, from);
      SizeOfRemoval(current - {from}, to);
      EndBoth(from, to, next);
      if known {
        Taken(current, retired, past, origin, clock, to, Occupancy(avatar, next));
        SizeOfUpdate(current, to, Occupancy(avatar, next));
        current := current[to := Occupancy(avatar, next)];
      }
      RenamedStay(old(current), old(retired), from, to, next, current, retired);
    }

    method EndBoth(from: string, to: string, next: int)
      requires Valid() && clock <= next
      modifies this`current, this`retired, this`past, this`clock
      ensures Valid() && clock == next && current == old(current) - {from} - {to}
      ensures AllEnded(old(current), old(past), old(current).Keys - {from} - {to}, next, past)
      ensures KeptIfRoom(AllRetired(old(current), old(retired), {from, to}, next), retired)
    {
      hide Sound, Stamped, Evicted, RetiredWith, PastIn, AllEnded, KeptIfRoom, AllRetired;
      NoneEnded(current, past, next);
      OneEnded(current, past, current.Keys, next, past, from);
      Retire(from, next);
      ghost var between, left := retired, current;
      OneEnded(old(current), old(past), current.Keys, next, past, to);
      Retire(to, next);
      RetiredTwo(old(current), old(retired), from, to, next, between, left, retired, current);
    }

    /** Ends every occupancy: a disconnect, or the capability was lost. */
    method EndAll(next: int)
      requires Valid() && clock <= next
      modifies this`current, this`retired, this`past, this`clock
      ensures Valid() && clock == next && current == map[]
      ensures AllEnded(old(current), old(past), {}, next, past)
      ensures KeptIfRoom(AllRetired(old(current), old(retired), old(current).Keys, next), retired)
      ensures |AllRetired(old(current), old(retired), old(current).Keys, next)| <= MAX_RETIRED_AVATARS ==>
                forall k, sequence ::
                  sequence < next && !Earlier(old(current), old(current).Keys, next, k, sequence) ==>
                    Metadata(k, sequence) == old(Metadata(k, sequence))
      ensures old(retired) == map[] ==>
                |retired| == Left(|AllRetired(old(current), map[], old(current).Keys, next)|)
    {
      hide Sound, Stamped, RetiredWith, PastIn, Ending, KeptIfRoom, AllRetired, LookedUp, Earlier;
      Later(current, retired, past, origin, clock, next);
      clock := next;
      var keys := current.Keys;
      EndingFirst(current, retired, past, next);
      while keys != {}
        invariant Valid() && clock == next && keys == current.Keys
        invariant Ending(old(current), old(retired), old(past), keys, next, current, retired, past)
        decreases keys
      {
        var key :| key in keys;
        ghost var left, before, earlier := current, retired, past;
        Retire(key, next);
        EndingNext(old(current), old(retired), old(past), keys, next, left, before, earlier, key, retired, past);
        keys := keys - {key};
      }
      EndingLast(old(current), old(retired), old(past), next, current, retired, past);
      StayIfRoom(old(current), old(retired), old(current).Keys, next, current, retired);
    }

    /** The picture of a name was set, or removed. */
    method SetPeer(key: string, avatar: Option<string>)
      requires Valid()
      modifies this`peer, this`peerClock
      ensures Valid() && (avatar.Some? ==> key in peer && peer[key].avatar == avatar.value)
      ensures avatar.None? ==> peer == old(peer) - {key}
      ensures avatar.Some? && (key in old(peer) || |old(peer)| < MAX_PEER_AVATARS) ==>
                peer == old(peer)[key := peer[key]]
      ensures avatar.Some? && key !in old(peer) && |old(peer)| >= MAX_PEER_AVATARS ==>
                exists kept :: LeastRecentDropped(old(peer), kept) && peer == kept[key := peer[key]]
    {
      hide Sound, Stamped, LeastRecentDropped;
      if avatar.None? {
        PictureDropped(peer, peerClock, key);
        peer := peer - {key};
        return;
      }
      if key !in peer && |peer| >= MAX_PEER_AVATARS {
        DropLeastRecent();
      }
      PictureSet(peer, peerClock, key, Picture(avatar.value, peerClock + 1));
      peerClock := peerClock + 1;
      peer := peer[key := Picture(avatar.value, peerClock)];
    }

    /** Drops the least recently set quarter of the pictures at once. */
    method DropLeastRecent()
      requires |peer| == MAX_PEER_AVATARS && Stamped(peer, peerClock)
      modifies this`peer
      ensures LeastRecentDropped(old(peer), peer) && |peer| < |old(peer)| && Stamped(peer, peerClock)
      ensures forall k :: k in peer ==> k in old(peer) && peer[k] == old(peer)[k]
    {
      hide IsRank;
      PeerSize(peer);
      var cutoff := Cutoff(StampOf(peer), MAX_PEER_AVATARS / 4);
      RankIsSome(StampOf(peer), MAX_PEER_AVATARS / 4, cutoff);
      peer := map k | k in peer && peer[k].stamp > cutoff :: peer[k];
      PeersFewer(old(peer), peer, cutoff);
    }
  }

  /** A run in which ending every occupancy forgets every avatar: 513 names
      have one while a message arrives, and none shows it afterwards. */
  method EndsACrowd() returns (avatars: NetworkAvatars, names: seq<string>)
    ensures fresh(avatars) && avatars.Valid() && |names| == MAX_RETIRED_AVATARS + 1 && Distinct(names)
    ensures forall k :: k in names ==> avatars.Occupied(k, 0, "a") && avatars.Metadata(k, 0).None?
  {
    hide Sound, Stamped, AllEnded, AllRetired, KeptIfRoom, Crowd, PastIn, Left;
    avatars := new NetworkAvatars(0);
    names := Gather(avatars);
    ghost var crowd := avatars.current;
    avatars.EndAll(1);
    CrowdForgotten(crowd, names, avatars.past, avatars.retired);
    forall k | k in names ensures avatars.Occupied(k, 0, "a") && avatars.Metadata(k, 0).None? {
      assert Contains(PastIn(avatars.past, k)[0], 0);
    }
  }

  /** Exactly these names have had the same avatar from the start. */
  ghost predicate Crowd(current: Current, names: seq<string>) {
    && |current| == |names| && Distinct(names) && (forall k :: k in current <==> k in names)
    && (forall k :: k in current ==> current[k] == Occupancy("a", 0)) && forall k :: k in names ==> |k| < |names|
  }

  method Gather(avatars: NetworkAvatars) returns (names: seq<string>)
    requires avatars.Valid() && avatars.clock == 0 && avatars.current == map[] && avatars.retired == map[] &&
             avatars.past == map[]
    modifies avatars
    ensures avatars.Valid() && avatars.clock == 0 && avatars.retired == map[] && avatars.past == map[]
    ensures Crowd(avatars.current, names) && |names| == MAX_RETIRED_AVATARS + 1
  {
    hide Sound, Stamped, AllEnded, AllRetired, KeptIfRoom, Crowd;
    names := [];
    NoCrowd(avatars.current);
    for i := 0 to MAX_RETIRED_AVATARS + 1
      invariant avatars.Valid() && avatars.clock == 0 && avatars.retired == map[] && avatars.past == map[]
      invariant Crowd(avatars.current, names) && |names| == i
    {
      CrowdGrows(avatars.current, names);
      var name := seq(i, _ => 'a');
      assert name == seq(|names|, _ => 'a');
      avatars.Set(name, Some("a"), 0);
      names := names + [name];
    }
  }

  lemma NoCrowd(current: Current)
    requires current == map[]
    ensures Crowd(current, [])
  {
  }

  lemma CrowdGrows(current: Current, names: seq<string>)
    requires Crowd(current, names)
    ensures
      var name := seq(|names|, _ => 'a');
      name !in current && |current| == |names| && Crowd(current[name := Occupancy("a", 0)], names + [name])
  {
    var name := seq(|names|, _ => 'a');
    assert |name| == |names|;
    SizeOfUpdate(current, name, Occupancy("a", 0));
  }

  lemma CrowdForgotten(crowd: Current, names: seq<string>, past: Pasts, retired: map<string, Retired>)
    requires Crowd(crowd, names) && |names| == MAX_RETIRED_AVATARS + 1
    requires AllEnded(crowd, map[], {}, 1, past) && |retired| == Left(|AllRetired(crowd, map[], crowd.Keys, 1)|)
    ensures Distinct(names) && retired == map[] && forall k :: k in names ==> PastIn(past, k) == [Retired("a", 0, 1)]
  {
    hide AllRetired, AllEnded, Distinct;
    var full := AllRetired(crowd, map[], crowd.Keys, 1);
    assert full.Keys == crowd.Keys;
    assert |full.Keys| == |full| && |crowd.Keys| == |crowd|;
    forall k | k in names ensures PastIn(past, k) == [Retired("a", 0, 1)] {
      EndedIs(crowd, past, k);
    }
  }

  lemma EndedIs(crowd: Current, past: Pasts, key: string)
    requires AllEnded(crowd, map[], {}, 1, past) && key in crowd && crowd[key] == Occupancy("a", 0)
    ensures PastIn(past, key) == [Retired("a", 0, 1)]
  {
    assert PastIn(past, key) == EndedBy(crowd, map[], {}, 1, key);
  }

  lemma PictureDropped(peer: map<string, Picture>, clock: int, key: string)
    requires Stamped(peer, clock)
    ensures Stamped(peer - {key}, clock) && |peer - {key}| <= |peer|
  {
    SubsetSize((peer - {key}).Keys, peer.Keys);
    assert |(peer - {key}).Keys| == |peer - {key}| && |peer.Keys| == |peer|;
  }

  lemma PictureSet(peer: map<string, Picture>, clock: int, key: string, picture: Picture)
    requires Stamped(peer, clock) && picture.stamp == clock + 1
    ensures Stamped(peer[key := picture], clock + 1) && |peer[key := picture]| == |peer| + if key in peer then 0 else 1
  {
    SizeOfUpdate(peer, key, picture);
  }

  /** Every occupancy of `current` but those of `left` ended at `next`, in
      addition to the earlier ones. */
  ghost predicate AllEnded(current: Current, before: Pasts, left: set<string>, next: int, after: Pasts) {
    forall k :: PastIn(after, k) == EndedBy(current, before, left, next, k)
  }

  ghost function EndedBy(current: Current, before: Pasts, left: set<string>, next: int, key: string): seq<Retired> {
    if key in current && key !in left && current[key].since < next
    then PastIn(before, key) + [Retired(current[key].avatar, current[key].since, next)]
    else PastIn(before, key)
  }

  lemma NoneEnded(current: Current, past: Pasts, next: int)
    ensures AllEnded(current, past, current.Keys, next, past)
  {
  }

  lemma OneEnded(current: Current, before: Pasts, left: set<string>, next: int, after: Pasts, key: string)
    requires AllEnded(current, before, left, next, after)
    ensures
      var later := if key in left && key in current && current[key].since < next
                   then after[key := PastIn(after, key) + [Retired(current[key].avatar, current[key].since, next)]]
                   else after;
      AllEnded(current, before, left - {key}, next, later)
  {
    assert PastIn(after, key) == EndedBy(current, before, left, next, key);
    var later := if key in left && key in current && current[key].since < next
                 then after[key := PastIn(after, key) + [Retired(current[key].avatar, current[key].since, next)]]
                 else after;
    forall k ensures PastIn(later, k) == EndedBy(current, before, left - {key}, next, k) {
      assert PastIn(after, k) == EndedBy(current, before, left, next, k);
    }
  }

  /** The retired avatars when there is room for all: a name of `ended` whose
      occupancy may hold messages gets the one that ends now, every other name
      keeps its own. */
  ghost function AllRetired(current: Current, before: map<string, Retired>, ended: set<string>,
                            next: int): (r: map<string, Retired>)
    ensures forall k :: k in r <==> k in before || Retires(current, ended, next, k)
    ensures forall k ::
              k in r ==> r[k] == if Retires(current, ended, next, k) then EndedAt(current[k], next) else before[k]
  {
    map k | k in before.Keys + current.Keys && (k in before || Retires(current, ended, next, k)) ::
      if Retires(current, ended, next, k) then EndedAt(current[k], next) else before[k]
  }

  function EndedAt(o: Occupancy, next: int): Retired {
    Retired(o.avatar, o.since, next)
  }

  predicate Retires(current: Current, ended: set<string>, next: int, key: string) {
    key in ended && key in current && current[key].since < next
  }

  /** No avatar is forgotten exactly when there is room for all, and then the
      table is just that. */
  ghost predicate KeptIfRoom(full: map<string, Retired>, after: map<string, Retired>) {
    && ((forall k :: k in full ==> k in after && after[k] == full[k]) <==> |full| <= MAX_RETIRED_AVATARS)
    && (|full| <= MAX_RETIRED_AVATARS ==> after == full)
  }

  lemma RoomDecides(full: map<string, Retired>, after: map<string, Retired>)
    requires |after| <= MAX_RETIRED_AVATARS && (|full| <= MAX_RETIRED_AVATARS ==> after == full)
    ensures KeptIfRoom(full, after)
  {
    if forall k :: k in full ==> k in after {
      SubsetSize(full.Keys, after.Keys);
      assert |full.Keys| == |full| && |after.Keys| == |after|;
    }
  }

  lemma RetiredNone(current: Current, retired: map<string, Retired>, ended: set<string>, next: int)
    requires ended == {}
    ensures AllRetired(current, retired, ended, next) == retired
  {
  }

  /** With room for all, ending one occupancy leaves the same avatars to
      keep. */
  lemma RetiredOne(current: Current, before: map<string, Retired>, ended: set<string>, key: string, next: int,
                   after: map<string, Retired>)
    requires key in ended && |AllRetired(current, before, ended, next)| <= MAX_RETIRED_AVATARS
    requires if key in current && current[key].since < next
             then RetiredWith(before, key, Retired(current[key].avatar, current[key].since, next), after)
             else after == before
    ensures AllRetired(current - {key}, after, ended - {key}, next) == AllRetired(current, before, ended, next)
  {
    hide Evicted, AllRetired;
    var full := AllRetired(current, before, ended, next);
    if key in current && current[key].since < next {
      var one := before[key := EndedAt(current[key], next)];
      SubsetSize(one.Keys, full.Keys);
      assert |one.Keys| == |one| && |full.Keys| == |full|;
      assert after == one;
      StillRetires(current, before, ended, key, next, one);
    } else {
      StillRetires(current, before, ended, key, next, before);
    }
  }

  lemma StillRetires(current: Current, before: map<string, Retired>, ended: set<string>, key: string, next: int,
                     after: map<string, Retired>)
    requires key in ended &&
             after == if Retires(current, ended, next, key) then before[key := EndedAt(current[key], next)] else before
    ensures AllRetired(current - {key}, after, ended - {key}, next) == AllRetired(current, before, ended, next)
  {
    hide AllRetired, Retires;
    var a, b := AllRetired(current - {key}, after, ended - {key}, next), AllRetired(current, before, ended, next);
    forall k ensures (k in a <==> k in b) && (k in a ==> a[k] == b[k]) {
      RetiresLess(current, ended, key, next, k);
    }
  }

  lemma RetiresLess(current: Current, ended: set<string>, key: string, next: int, k: string)
    ensures Retires(current - {key}, ended - {key}, next, k) <==> Retires(current, ended, next, k) && k != key
    ensures Retires(current, ended, next, k) ==> k in current
  {
  }

  lemma RetiredTwo(current: Current, before: map<string, Retired>, from: string, to: string, next: int,
                   between: map<string, Retired>, left: Current, after: map<string, Retired>, last: Current)
    requires |after| <= MAX_RETIRED_AVATARS && left == current - {from} && last == left - {to}
    requires if from in current && current[from].since < next
             then RetiredWith(before, from, Retired(current[from].avatar, current[from].since, next), between)
             else between == before
    requires if to in left && left[to].since < next
             then RetiredWith(between, to, Retired(left[to].avatar, left[to].since, next), after) else after == between
    ensures KeptIfRoom(AllRetired(current, before, {from, to}, next), after)
  {
    hide AllRetired, RetiredWith, KeptIfRoom;
    var ended := {from, to};
    if |AllRetired(current, before, ended, next)| <= MAX_RETIRED_AVATARS {
      RetiredOne(current, before, ended, from, next, between);
      if from == to {
        assert left - {to} == left;
        RetiredNone(left, between, ended - {from}, next);
      } else {
        RetiredOne(left, between, ended - {from}, to, next, after);
        RetiredNone(last, after, ended - {from} - {to}, next);
      }
    }
    RoomDecides(AllRetired(current, before, ended, next), after);
  }

  /** The state while every occupancy of `first` is ended: those of `keys` are
      still to end. */
  ghost predicate Ending(first: Current, retired0: map<string, Retired>, past0: Pasts, keys: set<string>, next: int,
                         current: Current, retired: map<string, Retired>, past: Pasts)
  {
    && keys == current.Keys && keys <= first.Keys && (forall k :: k in current ==> current[k] == first[k])
    && AllEnded(first, past0, keys, next, past) && |retired| <= MAX_RETIRED_AVATARS
    && (|AllRetired(first, retired0, first.Keys, next)| <= MAX_RETIRED_AVATARS ==>
          AllRetired(current, retired, keys, next) == AllRetired(first, retired0, first.Keys, next))
    && (retired0 == map[] ==> EndedAtOnce(first, keys, next, retired))
  }

  /** Of occupancies ended at one moment alone, every 513th empties the
      table. */
  ghost predicate EndedAtOnce(first: Current, keys: set<string>, next: int, retired: map<string, Retired>) {
    && (forall k :: k in retired ==> retired[k].until == next && k in first && k !in keys)
    && |retired| == Left(CountEnded(first, keys, next))
  }

  ghost function CountEnded(first: Current, keys: set<string>, next: int): nat {
    |AllRetired(first, map[], first.Keys - keys, next)|
  }

  /** How many of `n` avatars retired at one moment into an empty table are
      left. */
  function Left(n: nat): nat {
    n % (MAX_RETIRED_AVATARS + 1)
  }

  lemma EndingFirst(current: Current, retired: map<string, Retired>, past: Pasts, next: int)
    requires |retired| <= MAX_RETIRED_AVATARS
    ensures Ending(current, retired, past, current.Keys, next, current, retired, past)
  {
    hide AllEnded, AllRetired;
    NoneEnded(current, past, next);
    RetiredNone(current, map[], current.Keys - current.Keys, next);
  }

  lemma EndingNext(first: Current, retired0: map<string, Retired>, past0: Pasts, keys: set<string>, next: int,
                   current: Current, retired: map<string, Retired>, past: Pasts, key: string,
                   retired': map<string, Retired>, past': Pasts)
    requires Ending(first, retired0, past0, keys, next, current, retired, past) && key in keys &&
             |retired'| <= MAX_RETIRED_AVATARS
    requires if current[key].since < next
             then past' == past[key := PastIn(past, key) + [Retired(current[key].avatar, current[key].since, next)]]
                  && RetiredWith(retired, key, Retired(current[key].avatar, current[key].since, next), retired')
             else past' == past && retired' == retired
    ensures Ending(first, retired0, past0, keys - {key}, next, current - {key}, retired', past')
  {
    hide AllEnded, EndedAtOnce, AllRetired, RetiredWith, PastIn;
    OneEnded(first, past0, keys, next, past, key);
    if |AllRetired(first, retired0, first.Keys, next)| <= MAX_RETIRED_AVATARS {
      RetiredOne(current, retired, keys, key, next, retired');
    }
    if retired0 == map[] {
      AtOnceNext(first, keys, next, retired, key, retired');
    }
  }

  lemma AtOnceNext(first: Current, keys: set<string>, next: int, retired: map<string, Retired>, key: string,
                   retired': map<string, Retired>)
    requires EndedAtOnce(first, keys, next, retired) && key in keys && key in first && |retired| <= MAX_RETIRED_AVATARS
    requires if first[key].since < next
             then RetiredWith(retired, key, Retired(first[key].avatar, first[key].since, next), retired')
             else retired' == retired
    ensures EndedAtOnce(first, keys - {key}, next, retired')
  {
    hide RetiredWith, CountEnded, Left;
    var more := MoreRetired(first, keys, key, next);
    if first[key].since < next {
      OneAtOnce(retired, key, EndedAt(first[key], next), retired', next);
      OneMoreLeft(CountEnded(first, keys, next));
    }
  }

  lemma OneAtOnce(retired: map<string, Retired>, key: string, ended: Retired, retired': map<string, Retired>, next: int)
    requires RetiredWith(retired, key, ended, retired') && |retired| <= MAX_RETIRED_AVATARS && key !in retired
    requires ended.until == next && forall k :: k in retired ==> retired[k].until == next
    ensures |retired'| == if |retired| == MAX_RETIRED_AVATARS then 0 else |retired| + 1
    ensures forall k :: k in retired' ==> retired'[k].until == next && (k in retired || k == key)
  {
    hide Evicted;
    SizeOfUpdate(retired, key, ended);
    if |retired| == MAX_RETIRED_AVATARS {
      AllAtOnce(retired[key := ended], retired', next);
    }
  }

  lemma OneMoreLeft(n: nat)
    ensures Left(n + 1) == if Left(n) == MAX_RETIRED_AVATARS then 0 else Left(n) + 1
  {
  }

  lemma MoreRetired(first: Current, keys: set<string>, key: string, next: int) returns (more: nat)
    requires key in keys && key in first
    ensures CountEnded(first, keys - {key}, next) == CountEnded(first, keys, next) + more
    ensures more == if first[key].since < next then 1 else 0
  {
    hide AllRetired;
    more := if first[key].since < next then 1 else 0;
    var before, after := AllRetired(first, map[], first.Keys - keys, next),
                         AllRetired(first, map[], first.Keys - (keys - {key}), next);
    assert after.Keys == before.Keys + if first[key].since < next then {key} else {};
    assert |after.Keys| == |after| && |before.Keys| == |before|;
  }

  /** A table of occupancies that ended at one moment is evicted whole. */
  lemma AllAtOnce(full: map<string, Retired>, kept: map<string, Retired>, next: int)
    requires Evicted(full, kept) && forall k :: k in full ==> full[k].until == next
    ensures kept == map[]
  {
    var cutoff :| IsRank(UntilOf(full), MAX_RETIRED_AVATARS / 4, cutoff) && kept == map k | k in full &&
                  full[k].until > cutoff :: full[k];
  }

  lemma EndingLast(first: Current, retired0: map<string, Retired>, past0: Pasts, next: int, current: Current,
                   retired: map<string, Retired>, past: Pasts)
    requires Ending(first, retired0, past0, {}, next, current, retired, past)
    ensures current == map[] && AllEnded(first, past0, {}, next, past)
    ensures KeptIfRoom(AllRetired(first, retired0, first.Keys, next), retired)
    ensures retired0 == map[] ==> |retired| == Left(|AllRetired(first, map[], first.Keys, next)|)
  {
    hide AllEnded, AllRetired, KeptIfRoom;
    assert first.Keys - {} == first.Keys;
    assert current.Keys == {};
    RetiredNone(current, retired, {}, next);
    RoomDecides(AllRetired(first, retired0, first.Keys, next), retired);
  }

  /** No picture was set after now, and no two at once. */
  ghost predicate Stamped(peer: map<string, Picture>, clock: int) {
    && (forall k :: k in peer ==> peer[k].stamp <= clock)
    && forall k, j :: k in peer && j in peer && peer[k].stamp == peer[j].stamp ==> k == j
  }

  /** The retired avatars once another occupancy ended. */
  ghost predicate RetiredWith(before: map<string, Retired>, key: string, ended: Retired, after: map<string, Retired>) {
    var full := before[key := ended];
    if |full| <= MAX_RETIRED_AVATARS then after == full else Evicted(full, after)
  }

  /** What an overflowing table of pictures keeps: everything set after the
      513th least recent one. */
  ghost predicate LeastRecentDropped(full: map<string, Picture>, kept: map<string, Picture>) {
    exists cutoff ::
      IsRank(StampOf(full), MAX_PEER_AVATARS / 4, cutoff) && kept == map k | k in full && full[k].stamp > cutoff ::
      full[k]
  }

  /** Eviction drops only pictures set strictly before every one it keeps. */
  lemma PeerEvictionIsFair(full: map<string, Picture>, kept: map<string, Picture>)
    requires LeastRecentDropped(full, kept)
    ensures |kept| < |full| && forall k, j :: k in full && k !in kept && j in kept ==> full[k].stamp < kept[j].stamp
  {
    var cutoff :| IsRank(StampOf(full), MAX_PEER_AVATARS / 4, cutoff) && kept == map k | k in full &&
                  full[k].stamp > cutoff :: full[k];
    PeersFewer(full, kept, cutoff);
  }

  lemma RankIsSome(ends: Ends, rank: nat, cutoff: int)
    requires IsRank(ends, rank, cutoff)
    ensures exists k :: k in ends && ends[k] == cutoff
  {
  }

  lemma PeersFewer(full: map<string, Picture>, kept: map<string, Picture>, cutoff: int)
    requires (exists k :: k in StampOf(full) && StampOf(full)[k] == cutoff) && kept == map k | k in full &&
             full[k].stamp > cutoff :: full[k]
    ensures |kept| < |full|
  {
    var dropped :| dropped in StampOf(full) && StampOf(full)[dropped] == cutoff;
    assert kept.Keys <= full.Keys - {dropped};
    SubsetSize(kept.Keys, full.Keys - {dropped});
    assert |kept.Keys| == |kept| && |full.Keys| == |full|;
  }

  lemma SameSize(retired: map<string, Retired>)
    ensures |UntilOf(retired)| == |retired|
  {
    assert |UntilOf(retired).Keys| == |UntilOf(retired)| && |retired.Keys| == |retired|;
  }

  lemma PeerSize(peer: map<string, Picture>)
    ensures |StampOf(peer)| == |peer|
  {
    assert |StampOf(peer).Keys| == |StampOf(peer)| && |peer.Keys| == |peer|;
  }
}
