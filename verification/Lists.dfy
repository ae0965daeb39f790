/** Lists with hidden entries: filtering and moving one element. */
module Lists {

  ghost predicate Distinct<T(!new)>(s: seq<T>) {
    forall i, j :: 0 <= i < j < |s| ==> s[i] != s[j]
  }

  function Filter<T(!new)>(s: seq<T>, p: T -> bool): (r: seq<T>)
    ensures |r| <= |s|
    ensures forall x :: x in r <==> x in s && p(x)
  {
    if s == [] then []
    else
      var last := s[|s| - 1];
      assert s == s[..|s| - 1] + [last];
      Filter(s[..|s| - 1], p) + if p(last) then [last] else []
  }

  lemma FilterNext<T(!new)>(s: seq<T>, last: T, p: T -> bool)
    ensures Filter(s + [last], p) == Filter(s, p) + if p(last) then [last] else []
  {
    assert (s + [last])[..|s|] == s;
  }

  lemma {:induction false} FilterSplit<T(!new)>(a: seq<T>, b: seq<T>, p: T -> bool)
    ensures Filter(a + b, p) == Filter(a, p) + Filter(b, p)
  {
    hide Filter;
    if b == [] {
      assert a + b == a && Filter(b, p) == [];
    } else {
      var c, last := b[..|b| - 1], b[|b| - 1];
      FilterSplit(a, c, p);
      assert b == c + [last];
      assert a + b == (a + c) + [last];
      FilterNext(a + c, last, p);
      FilterNext(c, last, p);
      Associative(Filter(a, p), Filter(c, p), if p(last) then [last] else []);
    }
  }

  lemma Associative<T>(a: seq<T>, b: seq<T>, c: seq<T>)
    ensures a + b + c == a + (b + c)
  {
  }

  lemma {:induction false} FilterAll<T(!new)>(s: seq<T>, p: T -> bool)
    ensures (forall x :: x in s ==> p(x)) ==> Filter(s, p) == s
    ensures (forall x :: x in s ==> !p(x)) ==> Filter(s, p) == []
  {
    if s != [] {
      FilterAll(s[..|s| - 1], p);
      assert s == s[..|s| - 1] + [s[|s| - 1]];
    }
  }

  /** Where `s` holds an element that satisfies `p`. */
  ghost function Places<T>(s: seq<T>, p: T -> bool): set<int> {
    set i | 0 <= i < |s| && p(s[i])
  }

  lemma {:induction false} FilterSize<T(!new)>(s: seq<T>, p: T -> bool)
    ensures |Filter(s, p)| == |Places(s, p)|
  {
    if s != [] {
      var n := |s| - 1;
      FilterSize(s[..n], p);
      PlacesNext(s, p);
    }
  }

  lemma PlacesNext<T>(s: seq<T>, p: T -> bool)
    requires s != []
    ensures
      var n := |s| - 1;
      n !in Places(s[..n], p) && Places(s, p) == if p(s[n]) then Places(s[..n], p) + {n} else Places(s[..n], p)
  {
  }

  lemma {:induction false} FilterDistinct<T(!new)>(s: seq<T>, p: T -> bool)
    ensures Distinct(s) ==> Distinct(Filter(s, p))
  {
    if s != [] {
      FilterDistinct(s[..|s| - 1], p);
    }
  }

  lemma AppendDistinct<T(!new)>(s: seq<T>, x: T)
    requires Distinct(s)
    ensures x !in s ==> Distinct(s + [x])
  {
  }

  /** `s` without `x`. */
  function Unlike<T(!new, ==)>(x: T): T -> bool {
    (y: T) => y != x
  }

  function Except<T(!new, ==)>(s: seq<T>, x: T): (r: seq<T>)
    ensures |r| <= |s| && forall y :: y in r <==> y in s && y != x
    ensures Distinct(s) ==> Distinct(r)
  {
    FilterDistinct(s, Unlike(x));
    Filter(s, Unlike(x))
  }

  /** No two elements have the same key. */
  ghost predicate DistinctBy<T(!new), K(!new)>(s: seq<T>, key: T -> K) {
    forall i, j :: 0 <= i < j < |s| ==> key(s[i]) != key(s[j])
  }

  lemma {:induction false} FilterDistinctBy<T(!new), K(!new)>(s: seq<T>, p: T -> bool, key: T -> K)
    ensures DistinctBy(s, key) ==> DistinctBy(Filter(s, p), key)
  {
    if s != [] && DistinctBy(s, key) {
      var front, last := s[..|s| - 1], s[|s| - 1];
      FilterDistinctBy(front, p, key);
      forall x | x in Filter(front, p) ensures key(x) != key(last) {
        var i :| 0 <= i < |front| && front[i] == x;
        assert s[i] == x;
      }
    }
  }

  /** Keeping some elements and dropping the others loses none. */
  lemma {:induction false} FilterParts<T(!new)>(s: seq<T>, p: T -> bool, q: T -> bool)
    requires forall x :: p(x) <==> !q(x)
    ensures multiset(s) == multiset(Filter(s, p)) + multiset(Filter(s, q))
  {
    if s != [] {
      var front, last := s[..|s| - 1], s[|s| - 1];
      assert s == front + [last];
      FilterParts(front, p, q);
      FilterNext(front, last, p);
      FilterNext(front, last, q);
    }
  }

  lemma {:induction false} FilterSame<T(!new)>(s: seq<T>, p: T -> bool, q: T -> bool)
    requires forall x :: x in s ==> p(x) == q(x)
    ensures Filter(s, p) == Filter(s, q)
  {
    if s != [] {
      assert forall x :: x in s[..|s| - 1] ==> x in s;
      FilterSame(s[..|s| - 1], p, q);
    }
  }

  lemma {:induction false} FilterTwice<T(!new)>(s: seq<T>, p: T -> bool, q: T -> bool)
    ensures (forall x :: x in s && q(x) ==> p(x)) ==> Filter(Filter(s, p), q) == Filter(s, q)
  {
    hide Filter;
    if s == [] {
      FilterAll(s, p);
      FilterAll(s, q);
    } else {
      var before, last := s[..|s| - 1], s[|s| - 1];
      assert s == before + [last];
      FilterTwice(before, p, q);
      FilterNext(before, last, p);
      FilterNext(before, last, q);
      FilterNext(Filter(before, p), last, q);
      assert Filter(before, p) + [] == Filter(before, p) && Filter(before, q) + [] == Filter(before, q);
    }
  }

  lemma HeldTwice<T>(s: seq<T>, i: nat, j: nat)
    requires i < j < |s| && s[i] == s[j]
    ensures multiset(s)[s[i]] >= 2
  {
    assert s == s[..j] + s[j..];
    assert s[..j][i] == s[i] && s[j..][0] == s[j];
    assert s[i] in s[..j] && s[i] in s[j..];
  }

  function RemoveAt<T>(s: seq<T>, at: nat): (r: seq<T>)
    requires at < |s|
    ensures |r| == |s| - 1
  {
    s[..at] + s[at + 1..]
  }

  function InsertAt<T>(s: seq<T>, at: nat, x: T): (r: seq<T>)
    requires at <= |s|
    ensures |r| == |s| + 1 && r[at] == x
  {
    s[..at] + [x] + s[at..]
  }

  /** `s` with the element at `from` taken out and put at `to`. */
  function Moved<T>(s: seq<T>, from: nat, to: nat): (r: seq<T>)
    requires from < |s| && to < |s|
    ensures |r| == |s| && r[to] == s[from]
  {
    InsertAt(RemoveAt(s, from), to, s[from])
  }

  /** Rotating the part between the two places by one moves the element. */
  lemma RotatedIsMoved<T>(s: seq<T>, from: nat, to: nat)
    requires from < |s| && to < |s|
    ensures from <= to ==> s[..from] + s[from + 1..to + 1] + [s[from]] + s[to + 1..] == Moved(s, from, to)
    ensures to <= from ==> s[..to] + [s[from]] + s[to..from] + s[from + 1..] == Moved(s, from, to)
  {
  }

  lemma RemovedElements<T>(s: seq<T>, at: nat)
    requires at < |s|
    ensures multiset(RemoveAt(s, at)) + multiset{s[at]} == multiset(s)
  {
    assert s == s[..at] + [s[at]] + s[at + 1..];
  }

  lemma InsertedElements<T>(s: seq<T>, at: nat, x: T)
    requires at <= |s|
    ensures multiset(InsertAt(s, at, x)) == multiset(s) + multiset{x}
  {
    assert s == s[..at] + s[at..];
  }

  lemma MovedElements<T>(s: seq<T>, from: nat, to: nat)
    requires from < |s| && to < |s|
    ensures multiset(Moved(s, from, to)) == multiset(s)
  {
    hide RemoveAt, InsertAt;
    RemovedElements(s, from);
    InsertedElements(RemoveAt(s, from), to, s[from]);
  }

  /** A shown element's place among the shown ones. */
  lemma FilterAt<T(!new)>(s: seq<T>, at: nat, p: T -> bool)
    requires at < |s| && p(s[at])
    ensures |Filter(s[..at], p)| < |Filter(s, p)| && Filter(s, p)[|Filter(s[..at], p)|] == s[at]
  {
    hide Filter;
    assert s == s[..at] + [s[at]] + s[at + 1..];
    FilterSplit(s[..at] + [s[at]], s[at + 1..], p);
    FilterNext(s[..at], s[at], p);
  }

  lemma FilterRemoved<T(!new)>(s: seq<T>, at: nat, p: T -> bool)
    requires at < |s|
    ensures !p(s[at]) ==> Filter(RemoveAt(s, at), p) == Filter(s, p)
    ensures p(s[at]) ==>
              |Filter(s[..at], p)| < |Filter(s, p)| &&
              Filter(RemoveAt(s, at), p) == RemoveAt(Filter(s, p), |Filter(s[..at], p)|)
  {
    hide Filter;
    var a, b := s[..at], s[at + 1..];
    assert s == a + [s[at]] + b;
    FilterSplit(a + [s[at]], b, p);
    FilterNext(a, s[at], p);
    FilterSplit(a, b, p);
    assert Filter(a, p) + [] == Filter(a, p);
  }

  lemma FilterInserted<T(!new)>(s: seq<T>, at: nat, x: T, p: T -> bool)
    requires at <= |s|
    ensures !p(x) ==> Filter(InsertAt(s, at, x), p) == Filter(s, p)
    ensures p(x) ==>
              |Filter(s[..at], p)| <= |Filter(s, p)| &&
              Filter(InsertAt(s, at, x), p) == InsertAt(Filter(s, p), |Filter(s[..at], p)|, x)
  {
    hide Filter;
    var a, b := s[..at], s[at..];
    assert s == a + b;
    FilterSplit(a, b, p);
    FilterSplit(a + [x], b, p);
    FilterNext(a, x, p);
    assert Filter(a, p) + [] == Filter(a, p);
  }

  /** Taking an element out leaves as many shown ones before `to`, where the
      element goes. */
  lemma FilterCount<T(!new)>(s: seq<T>, from: nat, to: nat, p: T -> bool)
    requires from < |s| && to < |s| && p(s[from]) && p(s[to])
    ensures |Filter(RemoveAt(s, from)[..to], p)| == |Filter(s[..to], p)|
  {
    hide Filter;
    if to <= from {
      assert RemoveAt(s, from)[..to] == s[..to];
    } else {
      var c := s[from + 1..to];
      assert RemoveAt(s, from)[..to] == s[..from] + c + [s[to]];
      FilterNext(s[..from] + c, s[to], p);
      FilterSplit(s[..from], c, p);
      assert s[..to] == s[..from] + [s[from]] + c;
      FilterSplit(s[..from] + [s[from]], c, p);
      FilterNext(s[..from], s[from], p);
    }
  }

  /** Moving one shown element past others, shown and hidden, moves it the
      same way among the shown ones. */
  lemma MovedShown<T(!new)>(s: seq<T>, from: nat, to: nat, p: T -> bool)
    requires from < |s| && to < |s| && p(s[from]) && p(s[to])
    ensures |Filter(s[..from], p)| < |Filter(s, p)| && |Filter(s[..to], p)| < |Filter(s, p)|
    ensures Filter(s, p)[|Filter(s[..from], p)|] == s[from] && Filter(s, p)[|Filter(s[..to], p)|] == s[to]
    ensures Filter(Moved(s, from, to), p) == Moved(Filter(s, p), |Filter(s[..from], p)|, |Filter(s[..to], p)|)
  {
    hide Filter, RemoveAt, InsertAt;
    FilterAt(s, from, p);
    FilterAt(s, to, p);
    FilterRemoved(s, from, p);
    FilterInserted(RemoveAt(s, from), to, s[from], p);
    FilterCount(s, from, to, p);
  }

  /** All the others keep their order. */
  lemma MovedOthers<T(!new)>(s: seq<T>, from: nat, to: nat, p: T -> bool)
    requires from < |s| && to < |s| && !p(s[from])
    ensures Filter(Moved(s, from, to), p) == Filter(s, p)
  {
    hide Filter, RemoveAt, InsertAt;
    FilterRemoved(s, from, p);
    FilterInserted(RemoveAt(s, from), to, s[from], p);
  }

  /** The first place of `x`, or the length when it is absent. */
  function Position<T(==)>(s: seq<T>, x: T): (at: nat)
    ensures at <= |s| && (at < |s| <==> x in s) && (at < |s| ==> s[at] == x)
    ensures forall j :: 0 <= j < at ==> s[j] != x
  {
    if s == [] then 0
    else
      var at := Position(s[..|s| - 1], x);
      assert s == s[..|s| - 1] + [s[|s| - 1]];
      if at < |s| - 1 || s[|s| - 1] == x then at else |s|
  }

  lemma FilterLast<T(!new)>(s: seq<T>, p: T -> bool)
    requires s != []
    ensures Filter(s, p) == Filter(s[..|s| - 1], p) + if p(s[|s| - 1]) then [s[|s| - 1]] else []
  {
  }

  /** Elements keep their relative places when others are left out. */
  lemma {:induction false} FilterPositions<T(!new)>(s: seq<T>, p: T -> bool, i: nat, j: nat)
    requires i < j < |Filter(s, p)|
    ensures exists k, m :: 0 <= k < m < |s| && s[k] == Filter(s, p)[i] && s[m] == Filter(s, p)[j]
  {
    hide Filter;
    var n := |s| - 1;
    var front := Filter(s[..n], p);
    FilterLast(s, p);
    if j < |front| {
      FilterPositions(s[..n], p, i, j);
      var k, m :| 0 <= k < m < n && s[..n][k] == front[i] && s[..n][m] == front[j];
      assert s[k] == front[i] && s[m] == front[j];
    } else {
      assert front[i] in s[..n];
      var k :| 0 <= k < n && s[..n][k] == front[i];
      assert s[k] == front[i];
    }
  }

  /** The first place whose element satisfies `p`, or the length. */
  function First<T>(s: seq<T>, p: T -> bool): (at: nat)
    ensures at <= |s| && (at < |s| ==> p(s[at]))
    ensures forall j :: 0 <= j < at ==> !p(s[j])
  {
    if s == [] then 0
    else
      var at := First(s[..|s| - 1], p);
      if at < |s| - 1 || p(s[|s| - 1]) then at else |s|
  }

  /** One past the last place whose element satisfies `p`, or 0. */
  function PastLast<T>(s: seq<T>, p: T -> bool): (at: nat)
    ensures at <= |s| && (at > 0 ==> p(s[at - 1]))
    ensures forall j :: at <= j < |s| ==> !p(s[j])
  {
    if s == [] || p(s[|s| - 1]) then |s| else PastLast(s[..|s| - 1], p)
  }

  // ---------- The standard library's stable sort ----------

  ghost predicate SortedBy<T>(s: seq<T>, key: T -> int) {
    forall i, j :: 0 <= i < j < |s| ==> key(s[i]) <= key(s[j])
  }

  function InsertBy<T(!new)>(s: seq<T>, x: T, key: T -> int): (r: seq<T>)
    requires SortedBy(s, key)
    ensures SortedBy(r, key) && multiset(r) == multiset(s) + multiset{x}
  {
    var at := PastLast(s, y => key(y) <= key(x));
    InsertedElements(s, at, x);
    InsertAt(s, at, x)
  }

  function SortBy<T(!new)>(s: seq<T>, key: T -> int): (r: seq<T>)
    ensures SortedBy(r, key) && multiset(r) == multiset(s)
  {
    if s == [] then []
    else
      assert s == s[..|s| - 1] + [s[|s| - 1]];
      InsertBy(SortBy(s[..|s| - 1], key), s[|s| - 1], key)
  }

  /** Rearranging distinct elements leaves them distinct. */
  lemma SortedDistinct<T(!new)>(keys: seq<T>, sorted: seq<T>)
    requires Distinct(keys) && multiset(sorted) == multiset(keys)
    ensures Distinct(sorted)
  {
    forall i, j | 0 <= i < j < |sorted| ensures sorted[i] != sorted[j] {
      if sorted[i] == sorted[j] {
        HeldTwice(sorted, i, j);
        CountedOnce(keys, sorted[i]);
      }
    }
  }

  lemma {:induction false} CountedOnce<T(!new)>(s: seq<T>, x: T)
    requires Distinct(s)
    ensures multiset(s)[x] <= 1 && (x !in s ==> multiset(s)[x] == 0)
  {
    if s != [] {
      var before, last := s[..|s| - 1], s[|s| - 1];
      assert s == before + [last];
      assert last !in before;
      CountedOnce(before, x);
    }
  }

  lemma SameElements<T(!new)>(a: seq<T>, b: seq<T>)
    requires multiset(a) == multiset(b)
    ensures |a| == |b| && forall x :: x in a <==> x in b
  {
    assert |multiset(a)| == |multiset(b)|;
    forall x ensures x in a <==> x in b {
      assert x in multiset(a) <==> x in multiset(b);
    }
  }

  lemma SortNext<T(!new)>(s: seq<T>, key: T -> int)
    requires s != []
    ensures SortBy(s, key) == InsertBy(SortBy(s[..|s| - 1], key), s[|s| - 1], key)
  {
  }

  /** Elements of equal keys keep their order. */
  lemma {:induction false} SortIsStable<T(!new)>(s: seq<T>, key: T -> int, p: T -> bool)
    requires forall x, y :: x in s && y in s && p(x) && p(y) ==> key(x) == key(y)
    ensures Filter(SortBy(s, key), p) == Filter(s, p)
  {
    if s != [] {
      hide InsertBy, SortBy, SortedBy;
      SortIsStable(s[..|s| - 1], key, p);
      SortNext(s, key);
      SameElements(SortBy(s[..|s| - 1], key), s[..|s| - 1]);
      InsertIsStable(SortBy(s[..|s| - 1], key), s[|s| - 1], key, p);
    } else {
      assert multiset(SortBy(s, key)) == multiset{};
    }
  }

  lemma InsertIsStable<T(!new)>(r: seq<T>, x: T, key: T -> int, p: T -> bool)
    requires SortedBy(r, key) && forall y :: y in r && p(y) && p(x) ==> key(y) == key(x)
    ensures Filter(InsertBy(r, x, key), p) == Filter(r, p) + if p(x) then [x] else []
  {
    hide Filter, SortedBy;
    var at := PastLast(r, y => key(y) <= key(x));
    FilterInserted(r, at, x, p);
    if p(x) {
      FilterTail(r, at, p);
      assert InsertAt(Filter(r, p), |Filter(r, p)|, x) == Filter(r, p) + [x];
    } else {
      assert Filter(r, p) + [] == Filter(r, p);
    }
  }

  lemma FilterTail<T(!new)>(r: seq<T>, at: nat, p: T -> bool)
    requires at <= |r| && forall i :: at <= i < |r| ==> !p(r[i])
    ensures Filter(r[..at], p) == Filter(r, p)
  {
    hide Filter;
    assert r == r[..at] + r[at..];
    FilterSplit(r[..at], r[at..], p);
    FilterAll(r[at..], p);
  }

  lemma {:induction false} FilterSorted<T(!new)>(s: seq<T>, p: T -> bool, key: T -> int)
    requires SortedBy(s, key)
    ensures SortedBy(Filter(s, p), key)
  {
    if s != [] {
      var front, last := s[..|s| - 1], s[|s| - 1];
      FilterSorted(front, p, key);
      forall x | x in Filter(front, p) ensures key(x) <= key(last) {
        var i :| 0 <= i < |front| && front[i] == x;
        assert s[i] == x;
      }
    }
  }

  /** Shown elements keep their order among the shown ones. */
  lemma FilterEarlier<T(!new)>(s: seq<T>, i: nat, j: nat, p: T -> bool)
    requires i < j <= |s| && p(s[i])
    ensures |Filter(s[..i], p)| < |Filter(s[..j], p)|
  {
    FilterAt(s[..j], i, p);
    assert s[..j][..i] == s[..i];
  }

  lemma InsertedDistinct<T(!new)>(s: seq<T>, at: nat, x: T)
    requires Distinct(s) && at <= |s| && x !in s
    ensures Distinct(InsertAt(s, at, x)) && forall y :: y in InsertAt(s, at, x) <==> y in s || y == x
  {
    assert s == s[..at] + s[at..];
  }

  lemma RemovedDistinct<T(!new)>(s: seq<T>, at: nat)
    requires Distinct(s) && at < |s|
    ensures Distinct(RemoveAt(s, at)) && s[at] !in RemoveAt(s, at)
  {
  }

  lemma MovedDistinct<T(!new)>(s: seq<T>, from: nat, to: nat)
    requires Distinct(s) && from < |s| && to < |s|
    ensures Distinct(Moved(s, from, to))
  {
    hide RemoveAt, InsertAt, Distinct;
    RemovedDistinct(s, from);
    InsertedDistinct(RemoveAt(s, from), to, s[from]);
  }
}
