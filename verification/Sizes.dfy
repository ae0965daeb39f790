/** Sizes of sets and tables. */
module Sizes {

  lemma {:induction false} SubsetSize<T>(a: set<T>, b: set<T>)
    requires a <= b
    ensures |a| <= |b|
  {
    if a != {} {
      var x :| x in a;
      SubsetSize(a - {x}, b - {x});
    }
  }

  lemma SizeOfUpdate<K, V>(m: map<K, V>, key: K, value: V)
    ensures |m[key := value]| == if key in m then |m| else |m| + 1
  {
    var c := m[key := value];
    assert |m.Keys| == |m| && |c.Keys| == |c|;
    if key in m {
      assert c.Keys == m.Keys;
    } else {
      assert c.Keys == m.Keys + {key};
    }
  }

  lemma SizeOfRemoval<K, V>(m: map<K, V>, key: K)
    ensures (m - {key}).Keys == m.Keys - {key}
    ensures |m - {key}| == if key in m then |m| - 1 else |m|
  {
    var c := m - {key};
    assert c.Keys == m.Keys - {key};
    assert |m.Keys| == |m| && |c.Keys| == |c|;
  }
}
