/** The incremental search's matcher: Knuth-Morris-Pratt over lowercased
    text, with a ring of origins that keeps matches on whole characters. */
module Search {
  import opened Text

  // ---------- Prefixes of the term that end a text ----------

  /** The first `k` characters of `w` end `t`. */
  ghost predicate Ends(w: string, t: string, k: int) {
    0 <= k <= |w| && k <= |t| && w[..k] == t[|t| - k..]
  }

  /** `k` is the longest such prefix. */
  ghost predicate IsLongest(w: string, t: string, k: nat) {
    Ends(w, t, k) && forall j :: Ends(w, t, j) ==> j <= k
  }

  lemma EndsNext(w: string, t: string, c: char, k: nat)
    ensures Ends(w, t + [c], k + 1) <==> Ends(w, t, k) && k < |w| && w[k] == c
  {
    if k < |w| && k <= |t| {
      assert w[..k + 1] == w[..k] + [w[k]];
      assert (t + [c])[|t| - k..] == t[|t| - k..] + [c];
      if w[..k + 1] == t[|t| - k..] + [c] {
        assert w[..k + 1][..k] == w[..k] && (t[|t| - k..] + [c])[..k] == t[|t| - k..];
        assert w[..k + 1][k] == w[k] && (t[|t| - k..] + [c])[k] == c;
      }
    }
  }

  /** After the prefix of length `q` fails, the longest proper border of it
      is the next candidate, and none is skipped. */
  lemma FallBack(w: string, t: string, q: nat, f: nat)
    requires 0 < q && Ends(w, t, q) && IsLongest(w, w[1..q], f)
    ensures f < q && Ends(w, t, f)
    ensures forall k :: Ends(w, t, k) && k < q ==> k <= f
  {
    var e := t[|t| - q..];
    assert e == w[..q];
    assert w[1..q] == e[1..];
    assert w[1..q][q - 1 - f..] == t[|t| - f..];
    forall k | Ends(w, t, k) && k < q
      ensures k <= f
    {
      assert w[1..q][q - 1 - k..] == t[|t| - k..];
      assert Ends(w, w[1..q], k);
    }
  }

  /** Whether every entry of a fallback table is the longest proper border. */
  ghost predicate Borders(w: string, fallback: seq<nat>, n: nat) {
    n <= |w| && n <= |fallback| &&
    forall i :: 0 <= i < n ==> IsLongest(w, w[1..i + 1], fallback[i])
  }

  lemma BordersStart(w: string, fallback: seq<nat>)
    requires w != [] && |fallback| == |w| && fallback[0] == 0
    ensures IsLongest(w, w[1..1], 0) && Borders(w, fallback, 1)
  {
    assert Ends(w, w[1..1], 0);
  }

  lemma BordersBefore(w: string, fallback: seq<nat>, n: nat, k: nat)
    requires 0 < n && Borders(w, fallback, n) && IsLongest(w, w[1..n], k)
    ensures Borders(w, fallback, k)
  {
    hide IsLongest;
    assert k <= |w[1..n]| by {
      ShorterThanText(w, w[1..n], k);
    }
  }

  lemma ShorterThanText(w: string, t: string, k: nat)
    requires IsLongest(w, t, k)
    ensures k <= |t|
  {
  }

  lemma BordersNext(w: string, fallback: seq<nat>, n: nat, k: nat)
    requires 0 < n < |w| && |fallback| == |w|
    requires Borders(w, fallback, n) && IsLongest(w, w[1..n] + [w[n]], k)
    ensures IsLongest(w, w[1..n + 1], k) && Borders(w, fallback[n := k], n + 1)
  {
    hide IsLongest;
    assert w[1..n] + [w[n]] == w[1..n + 1];
  }

  /** Reads `c` after `t`: from the longest prefix that ends `t` to the
      longest that ends `t + [c]`. `steps` counts the fallbacks taken. */
  method Advance(w: string, fallback: seq<nat>, ghost t: string, before: nat, c: char)
    returns (matched: nat, ghost steps: nat)
    requires 0 < |w| && IsLongest(w, t, before)
    requires Borders(w, fallback, before)
    ensures IsLongest(w, t + [c], matched)
    ensures steps + matched <= before + 1
  {
    matched, steps := before, 0;
    while matched > 0 && (matched == |w| || w[matched] != c)
      invariant matched <= before && Ends(w, t, matched)
      invariant forall k :: Ends(w, t, k) && matched < k ==> k == |w| || w[k] != c
      invariant steps + matched <= before
    {
      FallBack(w, t, matched, fallback[matched - 1]);
      matched, steps := fallback[matched - 1], steps + 1;
    }
    ghost var m := matched;
    if w[matched] == c {
      matched := matched + 1;
    }
    LongestNext(w, t, c, m);
  }

  lemma LongestNext(w: string, t: string, c: char, m: nat)
    requires m < |w| && Ends(w, t, m)
    requires forall k :: Ends(w, t, k) && m < k ==> k == |w| || w[k] != c
    requires w[m] == c || m == 0
    ensures IsLongest(w, t + [c], if w[m] == c then m + 1 else m)
  {
    EndsNext(w, t, c, m);
    assert Ends(w, t + [c], 0);
    forall j | Ends(w, t + [c], j)
      ensures j <= if w[m] == c then m + 1 else m
    {
      if 0 < j {
        EndsNext(w, t, c, j - 1);
      }
    }
  }

  // ---------- Where each lowercased character came from ----------

  /** The byte offset of the source character, and whether this is the first
      character of its lowercase form. */
  type Origin = (nat, bool)

  /** The origins of the lowercase form of `s[i..j]`. */
  ghost function Origins(f: Lowering, s: string, i: nat, j: nat): (o: seq<Origin>)
    requires i <= j <= |s|
    ensures |o| == |Lower(f, s[i..j])|
    decreases j
  {
    if i == j then []
    else
      LowerNext(f, s, i, j - 1);
      Origins(f, s, i, j - 1) + seq(|f(s[j - 1])|, p requires 0 <= p => (Bytes(s[..j - 1]), p == 0))
  }

  lemma {:induction false} OriginOfStart(f: Lowering, s: string, i: nat, a: nat, j: nat)
    requires i <= a < j <= |s|
    ensures |Lower(f, s[i..a])| < |Origins(f, s, i, j)|
    ensures Origins(f, s, i, j)[|Lower(f, s[i..a])|] == (Bytes(s[..a]), true)
    decreases j
  {
    hide Lower, Bytes;
    LowerNext(f, s, i, j - 1);
    if a < j - 1 {
      OriginOfStart(f, s, i, a, j - 1);
    }
  }

  lemma {:induction false} StartOfOrigin(f: Lowering, s: string, i: nat, j: nat, q: nat) returns (a: nat)
    requires i <= j <= |s| && q < |Origins(f, s, i, j)| && Origins(f, s, i, j)[q].1
    ensures i <= a < j && |Lower(f, s[i..a])| == q && Bytes(s[..a]) == Origins(f, s, i, j)[q].0
    decreases j
  {
    if q < |Origins(f, s, i, j - 1)| {
      a := StartOfOrigin(f, s, i, j - 1, q);
    } else {
      a := j - 1;
    }
  }

  /** The last `|ring|` origins, each at its index modulo the ring's size. */
  ghost predicate Keeps(ring: seq<Origin>, o: seq<Origin>) {
    0 < |ring| &&
    forall q :: 0 <= q < |o| && |o| - |ring| <= q ==> ring[q % |ring|] == o[q]
  }

  lemma MulBound(m: nat, k: int)
    ensures 1 <= k ==> m <= m * k
    ensures k <= 0 ==> m * k <= 0
  {
  }

  lemma ModuloApart(a: nat, b: nat, m: nat)
    requires a < b < a + m
    ensures a % m != b % m
  {
    MulBound(m, b / m - a / m);
    assert (b - b % m) - (a - a % m) == m * (b / m - a / m);
  }

  lemma KeepsNext(ring: seq<Origin>, o: seq<Origin>, x: Origin)
    requires Keeps(ring, o)
    ensures Keeps(ring[|o| % |ring| := x], o + [x])
  {
    var next := ring[|o| % |ring| := x];
    forall q | 0 <= q < |o + [x]| && |o + [x]| - |ring| <= q
      ensures next[q % |ring|] == (o + [x])[q]
    {
      if q < |o| {
        ModuloApart(q, |o|, |ring|);
      }
    }
  }

  lemma OldestKept(ring: seq<Origin>, o: seq<Origin>)
    requires Keeps(ring, o) && |ring| <= |o|
    ensures ring[|o| % |ring|] == o[|o| - |ring|]
  {
    ModuloBack(|o|, |ring|);
  }

  lemma ModuloBack(n: nat, m: nat)
    requires 0 < m <= n
    ensures n % m == (n - m) % m
  {
    var k := n / m - (n - m) / m - 1;
    MulBound(m, k);
    MulBound(m, -k);
    assert (n - n % m) - (n - m - (n - m) % m) - m == m * k;
  }

  // ---------- Matches ----------

  /** The whole characters `s[a..b]` lowercase to the term. */
  ghost predicate IsMatch(f: Lowering, w: string, s: string, a: int, b: int) {
    0 <= a <= b <= |s| && Lower(f, s[a..b]) == w
  }

  /** The first match among those that start at or after character `i`. */
  ghost predicate IsLeftmost(f: Lowering, w: string, s: string, i: nat, a: int, b: int) {
    i <= a && IsMatch(f, w, s, a, b) &&
    forall c, d :: i <= c && IsMatch(f, w, s, c, d) ==> a <= c
  }

  /** No match lies within `s[i..j]`. */
  ghost predicate NoneWithin(f: Lowering, w: string, s: string, i: int, j: int) {
    forall a, b :: i <= a && b <= j ==> !IsMatch(f, w, s, a, b)
  }

  /** The matcher's state after reading `s[i..j]`. */
  ghost predicate Reading(f: Lowering, w: string, s: string, i: nat, j: nat, ring: seq<Origin>, count: nat,
                          matched: nat) {
    i <= j <= |s| && |ring| == |w| && count == |Lower(f, s[i..j])| &&
    IsLongest(w, Lower(f, s[i..j]), matched) && Keeps(ring, Origins(f, s, i, j))
  }

  lemma StartReading(f: Lowering, w: string, s: string, i: nat, ring: seq<Origin>)
    requires i <= |s| && w != [] && |ring| == |w|
    ensures Reading(f, w, s, i, i, ring, 0, 0) && NoneWithin(f, w, s, i, i)
  {
    assert Lower(f, s[i..i]) == [] && IsLongest(w, [], 0);
    forall a, b | i <= a && b <= i
      ensures !IsMatch(f, w, s, a, b)
    {
      if a == b {
        assert s[a..b] == [];
      }
    }
  }

  /** The match found at the end of `s[i..j]`, and what its origin says. */
  lemma FoundMatch(f: Lowering, w: string, s: string, i: nat, j: nat, ring: seq<Origin>, count: nat) returns (a: nat)
    requires w != [] && Reading(f, w, s, i, j, ring, count, |w|) && ring[count % |w|].1
    ensures i <= a < j && IsMatch(f, w, s, a, j) && Bytes(s[..a]) == ring[count % |w|].0
  {
    var t := Lower(f, s[i..j]);
    OldestKept(ring, Origins(f, s, i, j));
    a := StartOfOrigin(f, s, i, j, |t| - |w|);
    LowerSplit(f, s, i, a, j);
    assert Lower(f, s[a..j]) == t[|t| - |w|..] == w[..|w|] == w;
  }

  lemma SuffixEnds(w: string, p: string)
    ensures Ends(w, p + w, |w|)
  {
    assert w[..|w|] == w == (p + w)[|p|..];
  }

  /** A match that ends with `s[i..j]` shows in the matcher's state. */
  lemma MatchShows(f: Lowering, w: string, s: string, i: nat, a: nat, j: nat, ring: seq<Origin>, count: nat,
                   matched: nat)
    requires i <= a < j && IsMatch(f, w, s, a, j) && Reading(f, w, s, i, j, ring, count, matched)
    ensures matched == |w| && ring[count % |w|].1
  {
    LowerSplit(f, s, i, a, j);
    SuffixEnds(w, Lower(f, s[i..a]));
    OriginOfStart(f, s, i, a, j);
    OldestKept(ring, Origins(f, s, i, j));
  }

  lemma NoMatchEnds(f: Lowering, w: string, s: string, i: nat, j: nat, ring: seq<Origin>, count: nat, matched: nat)
    requires i < j <= |s| && w != [] && NoneWithin(f, w, s, i, j - 1)
    requires Reading(f, w, s, i, j, ring, count, matched)
    requires !(matched == |w| && ring[count % |w|].1)
    ensures NoneWithin(f, w, s, i, j)
  {
    forall a, b | i <= a && b <= j
      ensures !IsMatch(f, w, s, a, b)
    {
      if IsMatch(f, w, s, a, b) && b == j {
        assert a < j;
        MatchShows(f, w, s, i, a, j, ring, count, matched);
      }
    }
  }

  /** The match that ends first starts first: every match has the same
      lowercased length. */
  lemma FirstEndIsLeftmost(f: Lowering, w: string, s: string, i: nat, a: nat, j: nat)
    requires i <= a < j && IsMatch(f, w, s, a, j) && NoneWithin(f, w, s, i, j - 1)
    ensures IsLeftmost(f, w, s, i, a, j)
  {
    forall c, d | i <= c && IsMatch(f, w, s, c, d)
      ensures a <= c
    {
      if c < a {
        assert j <= d;
        LowerSplit(f, s, c, a, d);
        LowerSplit(f, s, a, j, d);
      }
    }
  }

  ghost predicate Occurs(f: Lowering, w: string, s: string) {
    exists a, b :: IsMatch(f, w, s, a, b)
  }

  ghost function ScanEnd(at: seq<(nat, nat)>): nat {
    if at == [] then 0 else at[|at| - 1].1
  }

  /** Matches found one after the other. */
  ghost predicate IsScan(f: Lowering, w: string, s: string, at: seq<(nat, nat)>) {
    forall n :: 0 <= n < |at| ==> IsLeftmost(f, w, s, ScanEnd(at[..n]), at[n].0, at[n].1)
  }

  ghost function ByteRanges(s: string, at: seq<(nat, nat)>): seq<Range> {
    seq(|at|, n requires 0 <= n < |at| =>
      if at[n].0 <= at[n].1 <= |s| then Range(Bytes(s[..at[n].0]), Bytes(s[..at[n].1])) else Range(0, 0))
  }

  /** The ranges of matches, each the leftmost after the one before, with
      none left after the last. */
  ghost predicate IsWholeScan(f: Lowering, w: string, s: string, found: seq<Range>) {
    exists at :: IsScan(f, w, s, at) && NoneWithin(f, w, s, ScanEnd(at), |s|) && found == ByteRanges(s, at)
  }

  lemma StartScan(f: Lowering, w: string, s: string)
    ensures IsScan(f, w, s, []) && ByteRanges(s, []) == [] && Bytes(s[..0]) == 0
  {
  }

  lemma MatchIsNonempty(f: Lowering, w: string, s: string, a: nat, b: nat)
    requires w != [] && IsMatch(f, w, s, a, b)
    ensures a < b
  {
  }

  lemma ScanNext(f: Lowering, w: string, s: string, at: seq<(nat, nat)>, a: nat, b: nat)
    requires w != [] && IsScan(f, w, s, at) && IsLeftmost(f, w, s, ScanEnd(at), a, b)
    ensures IsScan(f, w, s, at + [(a, b)]) && ScanEnd(at) <= a < b <= |s|
    ensures ByteRanges(s, at + [(a, b)]) == ByteRanges(s, at) + [Range(Bytes(s[..a]), Bytes(s[..b]))]
  {
    hide Lower, Bytes;
    MatchIsNonempty(f, w, s, a, b);
    var next := at + [(a, b)];
    assert next[..|at|] == at;
    forall n | 0 <= n < |at|
      ensures next[..n] == at[..n]
    {
    }
  }

  lemma BytesInjective(s: string, i: nat, j: nat)
    requires i <= |s| && j <= |s| && Bytes(s[..i]) == Bytes(s[..j])
    ensures i == j
  {
    if i < j {
      BytesMonotone(s, i, j);
    } else if j < i {
      BytesMonotone(s, j, i);
    }
  }

  lemma ShortTextHasNoMatch(f: Lowering, w: string, s: string, i: nat)
    requires i <= |s| && 3 * (Bytes(s) - Bytes(s[..i])) < |w|
    ensures NoneWithin(f, w, s, i, |s|)
  {
    assert |s| - i <= Bytes(s) - Bytes(s[..i]) by {
      assert s[..|s|] == s;
      if i < |s| {
        BytesMonotone(s, i, |s|);
      }
    }
    forall a, b | i <= a <= b <= |s|
      ensures !IsMatch(f, w, s, a, b)
    {
      LowerBounded(f, s[a..b]);
    }
  }

  lemma LowerBounded(f: Lowering, s: string)
    ensures |Lower(f, s)| <= 3 * |s|
  {
  }

  // ---------- The query ----------

  /** A term, lowercased once, with its fallback table. */
  datatype Query = Query(folded: string, fallback: seq<nat>) {

    ghost predicate Valid() {
      folded != [] && |fallback| == |folded| && Borders(folded, fallback, |folded|)
    }

    /** `None` for an empty term. */
    static method New(f: Lowering, term: string) returns (q: Option<Query>)
      ensures q.None? <==> term == []
      ensures q.Some? ==> q.value.Valid() && q.value.folded == Lower(f, term)
    {
      hide Lower, Borders, IsLongest;
      var folded := Lower(f, term);
      if folded == [] {
        return None;
      }
      var fallback := seq(|folded|, _ => 0);
      var matched := 0;
      BordersStart(folded, fallback);
      for index := 1 to |folded|
        invariant |fallback| == |folded| && Borders(folded, fallback, index)
        invariant IsLongest(folded, folded[1..index], matched)
      {
        ghost var steps;
        BordersBefore(folded, fallback, index, matched);
        matched, steps := Advance(folded, fallback, folded[1..index], matched, folded[index]);
        BordersNext(folded, fallback, index, matched);
        fallback := fallback[index := matched];
      }
      return Some(Query(folded, fallback));
    }

    /** The first match that starts at or after byte `from`, as a byte range.
        `read` counts the lowercased characters read and `steps` the
        fallbacks: reading is linear. */
    method FindFrom(f: Lowering, text: string, from: nat)
      returns (r: Option<Range>, ghost a: nat, ghost b: nat, ghost read: nat, ghost steps: nat)
      requires Valid() && IsBoundary(text, from)
      ensures r.Some? ==> IsLeftmost(f, folded, text, CharIndex(text, from), a, b)
      ensures r.Some? ==> r.value == Range(Bytes(text[..a]), Bytes(text[..b]))
      ensures r.None? ==> NoneWithin(f, folded, text, CharIndex(text, from), |text|)
      ensures steps <= read <= |Lower(f, text[CharIndex(text, from)..])|
    {
      hide Lower, Bytes, Reading, Borders, IsLeftmost, IsMatch, NoneWithin, CharIndex, IsBoundary;
      var i := CharIndex(text, from);
      read, steps, a, b := 0, 0, 0, 0;
      if 3 * (Bytes(text) - from) < |folded| {
        ShortTextHasNoMatch(f, folded, text, i);
        return None, a, b, read, steps;
      }
      var origins := new Origin[|folded|](_ => (0, false));
      var count, matched, offset := 0, 0, from;
      StartReading(f, folded, text, i, origins[..]);
      for j := i to |text|
        invariant origins.Length == |folded| && fresh(origins)
        invariant offset == Bytes(text[..j])
        invariant Reading(f, folded, text, i, j, origins[..], count, matched)
        invariant NoneWithin(f, folded, text, i, j)
        invariant steps + matched <= count == read
      {
        ghost var used;
        count, matched, used := ReadCharacter(f, text, i, j, offset, origins, count, matched);
        steps, read := steps + used, count;
        BytesNext(text, j);
        offset := offset + Width(text[j]);
        if matched == |folded| {
          var (start, onBoundary) := origins[count % |folded|];
          if onBoundary {
            b := j + 1;
            a := FoundMatch(f, folded, text, i, b, origins[..], count);
            FirstEndIsLeftmost(f, folded, text, i, a, b);
            ReadWithin(f, folded, text, i, j + 1, origins[..], count, matched);
            return Some(Range(start, offset)), a, b, read, steps;
          }
        }
        NoMatchEnds(f, folded, text, i, j + 1, origins[..], count, matched);
      }
      ReadWithin(f, folded, text, i, |text|, origins[..], count, matched);
      return None, a, b, read, steps;
    }

    method IsIn(f: Lowering, text: string) returns (found: bool)
      requires Valid()
      ensures found <==> Occurs(f, folded, text)
    {
      assert text[..0] == [];
      assert Bytes(text[..0]) == 0;
      ghost var a, b, read, steps;
      var r;
      r, a, b, read, steps := FindFrom(f, text, 0);
      return r.Some?;
    }

    /** The matches, each the leftmost that starts where the one before it
        ended or later. */
    method Ranges(f: Lowering, text: string) returns (found: seq<Range>)
      requires Valid()
      ensures IsWholeScan(f, folded, text, found)
    {
      hide Lower, Bytes, IsScan, IsLeftmost, IsMatch, NoneWithin, CharIndex, ByteRanges, Borders;
      found := [];
      ghost var at := [];
      var from := 0;
      StartScan(f, folded, text);
      while true
        invariant IsScan(f, folded, text, at) && found == ByteRanges(text, at)
        invariant ScanEnd(at) <= |text| && Bytes(text[..ScanEnd(at)]) == from
        decreases |text| - ScanEnd(at)
      {
        ghost var a, b, read, steps;
        var r;
        r, a, b, read, steps := FindFrom(f, text, from);
        BytesInjective(text, CharIndex(text, from), ScanEnd(at));
        if r.None? {
          return;
        }
        ScanNext(f, folded, text, at, a, b);
        from := r.value.end;
        found := found + [r.value];
        at := at + [(a, b)];
      }
    }

    /** Reads the lowercase form of `text[j]`. */
    method ReadCharacter(f: Lowering, text: string, ghost i: nat, j: nat, offset: nat,
        origins: array<Origin>, count0: nat, matched0: nat)
      returns (count: nat, matched: nat, ghost steps: nat)
      requires Valid() && j < |text| && offset == Bytes(text[..j])
      requires Reading(f, folded, text, i, j, origins[..], count0, matched0)
      modifies origins
      ensures Reading(f, folded, text, i, j + 1, origins[..], count, matched)
      ensures steps + matched <= matched0 + (count - count0) && count0 <= count
    {
      hide Lower, Bytes, Origins, IsLongest, Borders, Keeps;
      var lower := f(text[j]);
      ghost var o, t := Origins(f, text, i, j), Lower(f, text[i..j]);
      ghost var block := seq(|lower|, p requires 0 <= p => (offset, p == 0));
      count, matched, steps := count0, matched0, 0;
      var first := true;
      assert o + block[..0] == o && t + lower[..0] == t;
      for p := 0 to |lower|
        invariant count == |t| + p && first == (p == 0)
        invariant Keeps(origins[..], o + block[..p])
        invariant IsLongest(folded, t + lower[..p], matched)
        invariant steps + matched <= matched0 + p
      {
        KeepsNext(origins[..], o + block[..p], (offset, first));
        origins[count % |folded|] := (offset, first);
        assert o + block[..p] + [block[p]] == o + block[..p + 1];
        first := false;
        count := count + 1;
        ghost var used;
        BordersUpTo(folded, fallback, t + lower[..p], matched);
        matched, used := Advance(folded, fallback, t + lower[..p], matched, lower[p]);
        assert t + lower[..p] + [lower[p]] == t + lower[..p + 1];
        steps := steps + used;
      }
      assert block[..|lower|] == block && lower[..|lower|] == lower;
      LowerNext(f, text, i, j);
      OriginsNext(f, text, i, j);
    }
  }

  lemma BordersUpTo(w: string, fallback: seq<nat>, t: string, k: nat)
    requires Borders(w, fallback, |w|) && IsLongest(w, t, k)
    ensures Borders(w, fallback, k)
  {
  }

  lemma OriginsNext(f: Lowering, s: string, i: nat, j: nat)
    requires i <= j < |s|
    ensures Origins(f, s, i, j + 1) ==
            Origins(f, s, i, j) + seq(|f(s[j])|, p requires 0 <= p => (Bytes(s[..j]), p == 0))
  {
  }

  lemma ReadWithin(f: Lowering, w: string, s: string, i: nat, j: nat, ring: seq<Origin>, count: nat, matched: nat)
    requires Reading(f, w, s, i, j, ring, count, matched)
    ensures count <= |Lower(f, s[i..])|
  {
    LowerSplit(f, s, i, j, |s|);
    assert s[i..|s|] == s[i..];
  }
}
