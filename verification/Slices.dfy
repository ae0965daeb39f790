/** Binary search over a slice, as the standard library offers it. */
module Slices {

  /** Everything that satisfies `p` comes before everything that does not. */
  ghost predicate Partitioned<T>(s: seq<T>, p: T -> bool) {
    forall i, j :: 0 <= i < j < |s| && p(s[j]) ==> p(s[i])
  }

  /** The number of leading elements that satisfy `p`. */
  function PartitionPoint<T>(s: seq<T>, p: T -> bool): (at: nat)
    requires Partitioned(s, p)
    ensures at <= |s|
    ensures forall i :: 0 <= i < at ==> p(s[i])
    ensures forall i :: at <= i < |s| ==> !p(s[i])
  {
    Narrow(s, p, 0, |s|)
  }

  /** The search itself. Over a slice that is not partitioned it still ends
      somewhere between its bounds. */
  function Narrow<T>(s: seq<T>, p: T -> bool, low: nat, high: nat): (at: nat)
    requires low <= high <= |s|
    ensures low <= at <= high
    ensures Partitioned(s, p) && (forall i :: 0 <= i < low ==> p(s[i])) &&
            (forall i :: high <= i < |s| ==> !p(s[i])) ==>
              (forall i :: 0 <= i < at ==> p(s[i])) && forall i :: at <= i < |s| ==> !p(s[i])
    decreases high - low
  {
    if low == high then low
    else
      var mid := low + (high - low) / 2;
      if p(s[mid]) then Narrow(s, p, mid + 1, high) else Narrow(s, p, low, mid)
  }
}
