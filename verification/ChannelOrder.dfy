/** The channel order the user chose for a network: shown channels merged into
    the names remembered for channels that are not present. */
module ChannelOrder {
  import opened Lists

  const MAX_ORDER_NAMES := 2_000

  /** The rank of a name the order does not list: beyond every place. */
  const UNLISTED := 0xFFFF_FFFF_FFFF_FFFF

  // ---------- Merging ----------

  /** `order` with the remembered name `k`, unless it is there, right after the
      one remembered before it. */
  function MergeName(order: seq<string>, remembered: seq<string>, k: nat): (r: seq<string>)
    requires k < |remembered| && (k > 0 ==> remembered[k - 1] in order)
    ensures forall x :: x in r <==> x in order || x == remembered[k]
  {
    if remembered[k] in order then order
    else
      var at := if k == 0 then 0 else Position(order, remembered[k - 1]) + 1;
      assert order == order[..at] + order[at..];
      InsertAt(order, at, remembered[k])
  }

  function MergeNames(shown: seq<string>, remembered: seq<string>, n: nat): (r: seq<string>)
    requires n <= |remembered|
    ensures forall x :: x in r <==> x in shown || x in remembered[..n]
  {
    if n == 0 then shown
    else
      assert remembered[..n] == remembered[..n - 1] + [remembered[n - 1]];
      assert n > 1 ==> remembered[n - 2] in remembered[..n - 1];
      MergeName(MergeNames(shown, remembered, n - 1), remembered, n - 1)
  }

  function Merge(shown: seq<string>, remembered: seq<string>): seq<string> {
    MergeNames(shown, remembered, |remembered|)
  }

  method MergedChannelOrder(shown: seq<string>, remembered: seq<string>) returns (order: seq<string>)
    ensures order == Merge(shown, remembered)
  {
    hide MergeNames, InsertAt, Position;
    order := shown;
    MergeFirst(shown, remembered);
    for n := 0 to |remembered|
      invariant order == MergeNames(shown, remembered, n)
      invariant n > 0 ==> remembered[n - 1] in order
    {
      MergeNext(shown, remembered, n);
      if remembered[n] !in order {
        var at := if n == 0 then 0 else Position(order, remembered[n - 1]) + 1;
        order := InsertAt(order, at, remembered[n]);
      }
    }
  }

  lemma MergeFirst(shown: seq<string>, remembered: seq<string>)
    ensures MergeNames(shown, remembered, 0) == shown
  {
  }

  lemma MergeNext(shown: seq<string>, remembered: seq<string>, n: nat)
    requires n < |remembered|
    ensures n > 0 ==> remembered[n - 1] in MergeNames(shown, remembered, n)
    ensures MergeNames(shown, remembered, n + 1) == MergeName(MergeNames(shown, remembered, n), remembered, n)
  {
    assert n > 0 ==> remembered[n - 1] in remembered[..n];
  }

  // ---------- What a merged order is ----------

  ghost predicate Adjacent(r: seq<string>, a: string, b: string) {
    exists i :: 0 <= i && i + 1 < |r| && r[i] == a && r[i + 1] == b
  }

  /** The remembered name `k` comes right after the one remembered before it;
      the first one comes first. */
  ghost predicate Follows(r: seq<string>, remembered: seq<string>, k: nat)
    requires k < |remembered|
  {
    if k == 0 then r != [] && r[0] == remembered[0] else Adjacent(r, remembered[k - 1], remembered[k])
  }

  /** Every name once, the shown ones in shown order, each absent one right
      after its remembered predecessor. */
  ghost predicate IsMerged(shown: seq<string>, remembered: seq<string>, r: seq<string>) {
    && Distinct(r)
    && (forall x :: x in r <==> x in shown || x in remembered)
    && Filter(r, x => x in shown) == shown
    && forall k :: 0 <= k < |remembered| && remembered[k] !in shown ==> Follows(r, remembered, k)
  }

  lemma MergeIsMerged(shown: seq<string>, remembered: seq<string>)
    requires Distinct(shown) && Distinct(remembered)
    ensures IsMerged(shown, remembered, Merge(shown, remembered))
  {
    MergeNamesIsMerged(shown, remembered, |remembered|);
    assert remembered[..|remembered|] == remembered;
  }

  lemma {:induction false} MergeNamesIsMerged(shown: seq<string>, remembered: seq<string>, n: nat)
    requires Distinct(shown) && Distinct(remembered) && n <= |remembered|
    ensures IsMerged(shown, remembered[..n], MergeNames(shown, remembered, n))
  {
    hide IsMerged, MergeName, Distinct;
    if n == 0 {
      ShownIsMerged(shown);
      assert remembered[..0] == [];
    } else {
      MergeNamesIsMerged(shown, remembered, n - 1);
      MergeNameKeeps(shown, remembered, n - 1, MergeNames(shown, remembered, n - 1));
    }
  }

  lemma ShownIsMerged(shown: seq<string>)
    requires Distinct(shown)
    ensures IsMerged(shown, [], shown)
  {
    FilterAll(shown, x => x in shown);
  }

  lemma MergeNameKeeps(shown: seq<string>, remembered: seq<string>, k: nat, order: seq<string>)
    requires Distinct(remembered) && k < |remembered| && IsMerged(shown, remembered[..k], order)
    ensures k > 0 ==> remembered[k - 1] in order
    ensures IsMerged(shown, remembered[..k + 1], MergeName(order, remembered, k))
  {
    hide Filter, Follows, Distinct, InsertAt, Position;
    NotBefore(remembered, k);
    assert remembered[..k + 1] == remembered[..k] + [remembered[k]];
    assert k > 0 ==> remembered[k - 1] in remembered[..k];
    var r := MergeName(order, remembered, k);
    if remembered[k] in order {
      forall j | 0 <= j <= k && remembered[j] !in shown ensures Follows(r, remembered[..k + 1], j) {
        assert j < k;
        assert Follows(order, remembered[..k], j);
        FollowsLonger(order, remembered, k, j);
      }
    } else {
      var at := if k == 0 then 0 else Position(order, remembered[k - 1]) + 1;
      NameInserted(shown, order, at, remembered[k]);
      forall j | 0 <= j <= k && remembered[j] !in shown ensures Follows(r, remembered[..k + 1], j) {
        assert j < k ==> Follows(order, remembered[..k], j);
        FollowsWithNext(order, remembered, k, j);
      }
    }
  }

  lemma NameInserted(shown: seq<string>, order: seq<string>, at: nat, x: string)
    requires Distinct(order) && at <= |order| && x !in order && x !in shown
    ensures Distinct(InsertAt(order, at, x)) && forall y :: y in InsertAt(order, at, x) <==> y in order || y == x
    ensures Filter(InsertAt(order, at, x), y => y in shown) == Filter(order, y => y in shown)
  {
    hide Filter, InsertAt, Distinct;
    FilterInserted(order, at, x, y => y in shown);
    InsertedDistinct(order, at, x);
  }

  lemma NotBefore(remembered: seq<string>, k: nat)
    requires Distinct(remembered) && k < |remembered|
    ensures remembered[k] !in remembered[..k]
  {
  }

  lemma FollowsLonger(order: seq<string>, remembered: seq<string>, k: nat, j: nat)
    requires j < k < |remembered| && Follows(order, remembered[..k], j)
    ensures Follows(order, remembered[..k + 1], j)
  {
  }

  lemma FollowsWithNext(order: seq<string>, remembered: seq<string>, k: nat, j: nat)
    requires Distinct(remembered) && j <= k < |remembered| && remembered[k] !in order &&
             (k > 0 ==> remembered[k - 1] in order)
    requires j < k ==> Follows(order, remembered[..k], j)
    ensures Follows(MergeName(order, remembered, k), remembered[..k + 1], j)
  {
    hide Adjacent;
    var at := if k == 0 then 0 else Position(order, remembered[k - 1]) + 1;
    if j == k {
      if k > 0 {
        PlacedAfter(order, at, remembered[k]);
      }
    } else if j > 0 {
      StillAdjacent(order, at, remembered[k], remembered[j - 1], remembered[j]);
    }
  }

  lemma PlacedAfter(order: seq<string>, at: nat, x: string)
    requires 0 < at <= |order|
    ensures Adjacent(InsertAt(order, at, x), order[at - 1], x)
  {
    var r := InsertAt(order, at, x);
    assert r[at - 1] == order[at - 1] && r[at - 1 + 1] == x;
  }

  lemma StillAdjacent(order: seq<string>, at: nat, x: string, a: string, b: string)
    requires at <= |order| && Adjacent(order, a, b) && (at > 0 ==> order[at - 1] != a)
    ensures Adjacent(InsertAt(order, at, x), a, b)
  {
    var r := InsertAt(order, at, x);
    var i :| 0 <= i && i + 1 < |order| && order[i] == a && order[i + 1] == b;
    if i + 1 < at {
      assert r[i] == a && r[i + 1] == b;
    } else {
      assert r[i + 1] == a && r[i + 1 + 1] == b;
    }
  }

  // ---------- Only one order is merged ----------

  /** Nothing is left to choose: a merged order is determined by the shown and
      the remembered names. */
  lemma MergedIsUnique(shown: seq<string>, remembered: seq<string>, a: seq<string>, b: seq<string>)
    requires IsMerged(shown, remembered, a) && IsMerged(shown, remembered, b)
    ensures a == b
  {
    hide IsMerged;
    var n := if |a| < |b| then |a| else |b|;
    SamePrefix(shown, remembered, a, b, n);
    if |a| < |b| {
      NextName(shown, remembered, b, a, |a|);
    } else if |b| < |a| {
      NextName(shown, remembered, a, b, |b|);
    }
    assert a[..n] == a && b[..n] == b;
  }

  lemma {:induction false} SamePrefix(shown: seq<string>, remembered: seq<string>, a: seq<string>, b: seq<string>,
                                      n: nat)
    requires IsMerged(shown, remembered, a) && IsMerged(shown, remembered, b) && n <= |a| && n <= |b|
    ensures a[..n] == b[..n]
  {
    hide IsMerged;
    if n > 0 {
      SamePrefix(shown, remembered, a, b, n - 1);
      NextName(shown, remembered, a, b, n - 1);
      assert a[..n] == a[..n - 1] + [a[n - 1]] && b[..n] == b[..n - 1] + [b[n - 1]];
    }
  }

  /** Merged orders that agree so far agree on the next name. */
  lemma NextName(shown: seq<string>, remembered: seq<string>, a: seq<string>, b: seq<string>, n: nat)
    requires IsMerged(shown, remembered, a) && IsMerged(shown, remembered, b)
    requires n < |a| && n <= |b| && a[..n] == b[..n]
    ensures n < |b| && a[n] == b[n]
  {
    if a[n] !in shown {
      NextAbsent(shown, remembered, a, b, n);
    } else if n < |b| && b[n] !in shown {
      NextAbsent(shown, remembered, b, a, n);
    } else {
      NextShown(shown, remembered, a, b, n);
    }
  }

  lemma NextAbsent(shown: seq<string>, remembered: seq<string>, a: seq<string>, b: seq<string>, n: nat)
    requires IsMerged(shown, remembered, a) && IsMerged(shown, remembered, b)
    requires n < |a| && n <= |b| && a[..n] == b[..n] && a[n] !in shown
    ensures n < |b| && a[n] == b[n]
  {
    hide Filter, Adjacent;
    assert a[n] in a;
    var k :| 0 <= k < |remembered| && remembered[k] == a[n];
    assert Follows(a, remembered, k) && Follows(b, remembered, k);
    if k > 0 {
      BeforeIn(a, n, remembered[k - 1], remembered[k]);
      assert a[n - 1] == a[..n][n - 1] == b[..n][n - 1] == b[n - 1];
      AfterIn(b, n - 1, remembered[k - 1], remembered[k]);
    }
  }

  lemma BeforeIn(r: seq<string>, n: nat, x: string, y: string)
    requires Distinct(r) && Adjacent(r, x, y) && n < |r| && r[n] == y
    ensures n > 0 && r[n - 1] == x
  {
    var i :| 0 <= i && i + 1 < |r| && r[i] == x && r[i + 1] == y;
  }

  lemma AfterIn(r: seq<string>, n: nat, x: string, y: string)
    requires Distinct(r) && Adjacent(r, x, y) && n < |r| && r[n] == x
    ensures n + 1 < |r| && r[n + 1] == y
  {
    var i :| 0 <= i && i + 1 < |r| && r[i] == x && r[i + 1] == y;
  }

  lemma NextShown(shown: seq<string>, remembered: seq<string>, a: seq<string>, b: seq<string>, n: nat)
    requires IsMerged(shown, remembered, a) && IsMerged(shown, remembered, b)
    requires n < |a| && n <= |b| && a[..n] == b[..n] && a[n] in shown && (n < |b| ==> b[n] in shown)
    ensures n < |b| && a[n] == b[n]
  {
    hide Filter, Distinct, Follows;
    var p := (x: string) => x in shown;
    assert b[..|b|] == b;
    FilterSame(a, p, x => x in shown);
    FilterSame(b, p, x => x in shown);
    FilterAt(a, n, p);
    if n < |b| {
      FilterAt(b, n, p);
    }
  }

  /** Merging again changes nothing. */
  lemma MergeIsIdempotent(shown: seq<string>, remembered: seq<string>)
    requires Distinct(shown) && Distinct(remembered)
    ensures Merge(shown, Merge(shown, remembered)) == Merge(shown, remembered)
  {
    hide Merge, Filter;
    var r := Merge(shown, remembered);
    MergeIsMerged(shown, remembered);
    forall k | 0 <= k < |r| && r[k] !in shown ensures Follows(r, r, k) {
      assert k > 0 ==> r[k - 1] == r[k - 1] && r[k - 1 + 1] == r[k];
    }
    assert IsMerged(shown, r, r);
    MergeIsMerged(shown, r);
    MergedIsUnique(shown, r, Merge(shown, r), r);
  }

  // ---------- Ranks ----------

  /** What is remembered of an order. */
  function Stored(order: seq<string>): (r: seq<string>)
    ensures r <= order && |r| <= MAX_ORDER_NAMES
  {
    if |order| <= MAX_ORDER_NAMES then order else order[..MAX_ORDER_NAMES]
  }

  /** A name's place in the order, or beyond every place. */
  function Rank(order: seq<string>, name: string): (rank: nat)
    requires |order| <= MAX_ORDER_NAMES
    ensures name in order <==> rank < |order|
  {
    if name in order then Position(order, name) else UNLISTED
  }

  ghost predicate Sorted(order: seq<string>, names: seq<string>)
    requires |order| <= MAX_ORDER_NAMES
  {
    forall i, j :: 0 <= i < j < |names| ==> Rank(order, names[i]) <= Rank(order, names[j])
  }

  /** Whatever was remembered, merging keeps the shown names in order and
      repeats none. */
  lemma {:induction false} MergeKeepsShown(shown: seq<string>, remembered: seq<string>, n: nat)
    requires Distinct(shown) && n <= |remembered|
    ensures Distinct(MergeNames(shown, remembered, n)) &&
            Filter(MergeNames(shown, remembered, n), x => x in shown) == shown
  {
    hide Filter, Distinct, InsertAt, Position;
    if n == 0 {
      FilterAll(shown, x => x in shown);
    } else {
      MergeKeepsShown(shown, remembered, n - 1);
      MergeNext(shown, remembered, n - 1);
      var order := MergeNames(shown, remembered, n - 1);
      if remembered[n - 1] !in order {
        var at := if n == 1 then 0 else Position(order, remembered[n - 2]) + 1;
        NameInserted(shown, order, at, remembered[n - 1]);
      }
    }
  }

  /** Once their order is merged and stored, shown channels are sorted by
      rank: what the binary search for a rejoined channel's slot needs. */
  lemma ShownIsSorted(shown: seq<string>, remembered: seq<string>)
    requires Distinct(shown)
    ensures Sorted(Stored(Merge(shown, remembered)), shown) && Distinct(Merge(shown, remembered))
  {
    hide Filter, MergeNames;
    var r := Merge(shown, remembered);
    MergeKeepsShown(shown, remembered, |remembered|);
    forall i, j | 0 <= i < j < |shown| ensures Rank(Stored(r), shown[i]) <= Rank(Stored(r), shown[j]) {
      FilterPositions(r, x => x in shown, i, j);
      var k, m :| 0 <= k < m < |r| && r[k] == shown[i] && r[m] == shown[j];
      RankInStored(r, k);
      RankInStored(r, m);
    }
  }

  lemma RankInStored(r: seq<string>, k: nat)
    requires Distinct(r) && k < |r|
    ensures Rank(Stored(r), r[k]) == if k < MAX_ORDER_NAMES then k else UNLISTED
  {
    if k < MAX_ORDER_NAMES {
      assert Stored(r)[k] == r[k];
    } else {
      assert forall i :: 0 <= i < |Stored(r)| ==> Stored(r)[i] == r[i] && r[i] != r[k];
    }
  }

  /** A name put after those ranked no later leaves the names sorted. */
  lemma SlotKeepsSorted(order: seq<string>, names: seq<string>, at: nat, name: string)
    requires |order| <= MAX_ORDER_NAMES && Sorted(order, names) && at <= |names|
    requires forall i :: 0 <= i < at ==> Rank(order, names[i]) <= Rank(order, name)
    requires forall i :: at <= i < |names| ==> Rank(order, names[i]) > Rank(order, name)
    ensures Sorted(order, InsertAt(names, at, name))
  {
    hide Rank;
  }

  /** A channel that left and joins again returns to its place: between the
      same shown neighbours as in the chosen order. */
  lemma RejoinReturns(order: seq<string>, names: seq<string>, at: nat, slot: nat)
    requires |order| <= MAX_ORDER_NAMES && Sorted(order, names) && Distinct(names) && at < |names| && names[at] in order
    requires slot <= |RemoveAt(names, at)|
    requires forall i :: 0 <= i < slot ==> Rank(order, RemoveAt(names, at)[i]) <= Rank(order, names[at])
    requires forall i ::
               slot <= i < |RemoveAt(names, at)| ==> Rank(order, RemoveAt(names, at)[i]) > Rank(order, names[at])
    ensures InsertAt(RemoveAt(names, at), slot, names[at]) == names
  {
    var left := RemoveAt(names, at);
    forall i | 0 <= i < |left| ensures Rank(order, left[i]) <= Rank(order, names[at]) <==> i < at {
      var j := if i < at then i else i + 1;
      assert left[i] == names[j];
      if j > at {
        RanksDiffer(order, names[at], names[j]);
      }
    }
    assert slot < |left| ==> (Rank(order, left[slot]) <= Rank(order, names[at]) <==> slot < at);
    assert at < |left| ==> Rank(order, left[at]) > Rank(order, names[at]);
    assert slot == at;
  }

  lemma RanksDiffer(order: seq<string>, a: string, b: string)
    requires |order| <= MAX_ORDER_NAMES && a in order && a != b
    ensures Rank(order, a) != Rank(order, b)
  {
  }
}
