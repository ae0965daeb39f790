/** The server-time order of a page of lines: a stable sort by the time each
    line carries or inherits. */
module ServerTime {
  import opened Text

  type Stamp = Option<int>

  /** No time sorts before every time. */
  predicate Earlier(a: Stamp, b: Stamp) {
    b.Some? && (a.None? || a.value < b.value)
  }

  /** The time line `i` counts as having: its own or the nearest one before. */
  function Carried(stamps: seq<Stamp>, i: nat): (t: Stamp)
    requires i < |stamps|
    ensures stamps[i].Some? ==> t == stamps[i]
    ensures stamps[i].None? && i > 0 ==> t == Carried(stamps, i - 1)
  {
    if stamps[i].Some? || i == 0 then stamps[i] else Carried(stamps, i - 1)
  }

  /** `order` holds each index below `n`, and nothing else. */
  ghost predicate Permutes(order: seq<nat>, n: nat) {
    |order| == n && forall x: nat :: x in order <==> x < n
  }

  /** Line `a` goes before line `b`: earlier, or equal and arrived first. */
  predicate Before(times: seq<Stamp>, a: nat, b: nat)
    requires a < |times| && b < |times|
  {
    Earlier(times[a], times[b]) || (times[a] == times[b] && a < b)
  }

  ghost predicate Stable(times: seq<Stamp>, order: seq<nat>) {
    && (forall i :: 0 <= i < |order| ==> order[i] < |times|)
    && forall i, j :: 0 <= i < j < |order| ==> Before(times, order[i], order[j])
  }

  /** What the standard library's stable sort returns for the indexes: only
      one permutation is sorted and stable (`OrderIsUnique`). */
  function StableOrder(times: seq<Stamp>, n: nat): (order: seq<nat>)
    requires n <= |times|
    ensures Permutes(order, n) && Stable(times, order)
    ensures forall i :: 0 <= i < |order| ==> order[i] < n
  {
    if n == 0 then []
    else
      var before := StableOrder(times, n - 1);
      InsertPermutes(times, before, n - 1);
      Insert(times, before, n - 1)
  }

  /** `order` with `last`, which arrived after all of it, at its place. */
  function Insert(times: seq<Stamp>, order: seq<nat>, last: nat): (r: seq<nat>)
    requires last < |times| && Stable(times, order)
    requires forall i :: 0 <= i < |order| ==> order[i] < last
    ensures Stable(times, r) && |r| == |order| + 1
    ensures forall x :: x in r <==> x in order || x == last
  {
    if order == [] || !Earlier(times[last], times[order[|order| - 1]]) then
      order + [last]
    else
      var rest := Insert(times, order[..|order| - 1], last);
      InsertBefore(times, order, last, rest);
      rest + [order[|order| - 1]]
  }

  lemma InsertPermutes(times: seq<Stamp>, order: seq<nat>, last: nat)
    requires last < |times| && Stable(times, order) && Permutes(order, last)
    requires forall i :: 0 <= i < |order| ==> order[i] < last
    ensures Permutes(Insert(times, order, last), last + 1)
    ensures forall i :: 0 <= i < |Insert(times, order, last)| ==> Insert(times, order, last)[i] <= last
  {
    var r := Insert(times, order, last);
    forall i | 0 <= i < |r| ensures r[i] <= last {
      assert r[i] in r;
    }
  }

  lemma InsertBefore(times: seq<Stamp>, order: seq<nat>, last: nat, rest: seq<nat>)
    requires last < |times| && Stable(times, order) && order != []
    requires forall i :: 0 <= i < |order| ==> order[i] < last
    requires Earlier(times[last], times[order[|order| - 1]])
    requires Stable(times, rest)
    requires forall x :: x in rest <==> x in order[..|order| - 1] || x == last
    ensures Stable(times, rest + [order[|order| - 1]])
    ensures forall x :: x in rest + [order[|order| - 1]] <==> x in order || x == last
  {
    var n := |order| - 1;
    assert order == order[..n] + [order[n]];
    forall i | 0 <= i < |rest| ensures Before(times, rest[i], order[n]) {
      assert rest[i] in rest;
      if rest[i] != last {
        var k :| 0 <= k < n && order[k] == rest[i];
      }
    }
  }

  /** Sorted and stable leaves no choice. */
  lemma {:induction false} OrderIsUnique(times: seq<Stamp>, a: seq<nat>, b: seq<nat>)
    requires Stable(times, a) && Stable(times, b) && |a| == |b|
    requires forall x :: x in a <==> x in b
    ensures a == b
  {
    if a != [] {
      var n := |a| - 1;
      assert a[n] in b && b[n] in a;
      assert a[n] == b[n];
      forall x ensures x in a[..n] <==> x in b[..n] {
        assert a == a[..n] + [a[n]] && b == b[..n] + [b[n]];
        if x in a[..n] {
          assert x in b;
        }
        if x in b[..n] {
          assert x in a;
        }
      }
      OrderIsUnique(times, a[..n], b[..n]);
      assert a == a[..n] + [a[n]] && b == b[..n] + [b[n]];
    }
  }

  function Times(stamps: seq<Stamp>): (times: seq<Stamp>)
    ensures |times| == |stamps| && forall i :: 0 <= i < |times| ==> times[i] == Carried(stamps, i)
  {
    seq(|stamps|, i requires 0 <= i < |stamps| => Carried(stamps, i))
  }

  function TimeOrder(stamps: seq<Stamp>): (order: seq<nat>)
    ensures Permutes(order, |stamps|) && Stable(Times(stamps), order)
    ensures forall i :: 0 <= i < |order| ==> order[i] < |stamps|
  {
    StableOrder(Times(stamps), |stamps|)
  }

  /** The order, as indexes, in which lines with these times go. */
  method ServerTimeOrder(stamps: seq<Stamp>) returns (order: seq<nat>)
    ensures order == TimeOrder(stamps)
  {
    var time: Stamp := None;
    var times: seq<Stamp> := [];
    for i := 0 to |stamps|
      invariant |times| == i && forall k :: 0 <= k < i ==> times[k] == Carried(stamps, k)
      invariant time == if i == 0 then None else times[i - 1]
    {
      time := if stamps[i].Some? then stamps[i] else time;
      times := times + [time];
    }
    assert times == Times(stamps);
    return StableOrder(times, |times|);
  }

  /** A line without a time goes directly after the line it arrived after. */
  lemma UntimedStays(stamps: seq<Stamp>, at: nat)
    requires at < |stamps|
    requires TimeOrder(stamps)[at] > 0 && stamps[TimeOrder(stamps)[at]].None?
    ensures at > 0 && TimeOrder(stamps)[at - 1] == TimeOrder(stamps)[at] - 1
  {
    hide StableOrder, Stable;
    var order, times := TimeOrder(stamps), Times(stamps);
    var i := order[at];
    assert order[at] in order && i - 1 in order;
    assert times[i] == times[i - 1];
    EqualTimesStay(times, order, at);
  }

  lemma EqualTimesStay(times: seq<Stamp>, order: seq<nat>, at: nat)
    requires Stable(times, order) && at < |order|
    requires order[at] > 0 && order[at] - 1 in order && times[order[at]] == times[order[at] - 1]
    ensures at > 0 && order[at - 1] == order[at] - 1
  {
    var i := order[at];
    var p :| 0 <= p < |order| && order[p] == i - 1;
    assert !(at < p);
  }

  /** Lines before the first time stay in front, where they arrived. */
  lemma {:induction false} UntimedFirst(stamps: seq<Stamp>, at: nat)
    requires at < |stamps| && forall i :: 0 <= i <= at ==> stamps[i].None?
    ensures TimeOrder(stamps)[at] == at
  {
    hide StableOrder, Stable;
    var order, times := TimeOrder(stamps), Times(stamps);
    assert at in order;
    if at > 0 {
      UntimedFirst(stamps, at - 1);
      var p :| 0 <= p < |order| && order[p] == at;
      UntimedStays(stamps, p);
      OrderHoldsOnce(times, order, at - 1, p - 1);
    } else {
      NothingEarlier(times, order);
    }
  }

  lemma NothingEarlier(times: seq<Stamp>, order: seq<nat>)
    requires Stable(times, order) && 0 in order && times[0].None?
    ensures order[0] == 0
  {
    var p :| 0 <= p < |order| && order[p] == 0;
    assert p > 0 ==> Before(times, order[0], order[p]);
  }

  lemma OrderHoldsOnce(times: seq<Stamp>, order: seq<nat>, i: nat, j: nat)
    requires Stable(times, order) && i < |order| && j < |order| && order[i] == order[j]
    ensures i == j
  {
    assert i < j ==> Before(times, order[i], order[j]);
    assert j < i ==> Before(times, order[j], order[i]);
  }

  /** The elements of `s` in the given order. */
  function Pick<T>(s: seq<T>, order: seq<nat>): (r: seq<T>)
    requires forall i :: 0 <= i < |order| ==> order[i] < |s|
    ensures |r| == |order| && forall i :: 0 <= i < |r| ==> r[i] == s[order[i]]
  {
    seq(|order|, i requires 0 <= i < |order| => s[order[i]])
  }

  /** Sorting loses and repeats no line. */
  lemma {:induction false} PickKeeps<T>(s: seq<T>, times: seq<Stamp>, n: nat)
    requires n <= |times| <= |s|
    ensures multiset(Pick(s, StableOrder(times, n))) == multiset(s[..n])
  {
    hide Stable, Insert, Permutes, Pick;
    if n == 0 {
      assert Pick(s, StableOrder(times, n)) == s[..n];
    } else {
      PickKeeps(s, times, n - 1);
      var before := StableOrder(times, n - 1);
      PickInsert(s, times, before, n - 1);
      assert s[..n] == s[..n - 1] + [s[n - 1]];
    }
  }

  lemma PickMore<T>(s: seq<T>, order: seq<nat>, i: nat)
    requires i < |s| && forall k :: 0 <= k < |order| ==> order[k] < |s|
    ensures Pick(s, order + [i]) == Pick(s, order) + [s[i]]
  {
  }

  lemma {:induction false} PickInsert<T>(s: seq<T>, times: seq<Stamp>, order: seq<nat>, last: nat)
    requires last < |times| <= |s| && Stable(times, order)
    requires forall i :: 0 <= i < |order| ==> order[i] < last
    ensures forall i :: 0 <= i < |Insert(times, order, last)| ==> Insert(times, order, last)[i] < |s|
    ensures multiset(Pick(s, Insert(times, order, last))) == multiset(Pick(s, order)) + multiset{s[last]}
  {
    hide Pick, Earlier;
    if order == [] || !Earlier(times[last], times[order[|order| - 1]]) {
      PickMore(s, order, last);
    } else {
      var (front, end) := (order[..|order| - 1], order[|order| - 1]);
      PickInsert(s, times, front, last);
      PickMore(s, Insert(times, front, last), end);
      PickMore(s, front, end);
      assert order == front + [end];
    }
  }
}
