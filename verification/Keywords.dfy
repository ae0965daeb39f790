/** Where a message's keywords occur, as merged byte ranges, apart from the
    occurrences that overlap an excluded range. */
module Keywords {
  import opened Text
  import opened Slices
  import Search

  // ---------- Ranges ----------

  ghost predicate Covers(ranges: seq<Range>, x: int) {
    exists k :: 0 <= k < |ranges| && ranges[k].start <= x < ranges[k].end
  }

  /** Ascending, none empty, with a gap between each two. */
  ghost predicate Separated(ranges: seq<Range>) {
    (forall k :: 0 <= k < |ranges| ==> ranges[k].start < ranges[k].end) &&
    forall i, j :: 0 <= i < j < |ranges| ==> ranges[i].end < ranges[j].start
  }

  /** Ascending and disjoint, as excluded ranges are. */
  ghost predicate Disjoint(ranges: seq<Range>) {
    (forall k :: 0 <= k < |ranges| ==> ranges[k].start <= ranges[k].end) &&
    forall i, j :: 0 <= i < j < |ranges| ==> ranges[i].end <= ranges[j].start
  }

  predicate Overlap(a: Range, b: Range) {
    a.start < b.end && b.start < a.end
  }

  /** Whether `range` overlaps an excluded one, found by binary search. */
  predicate OverlapsAny(excluded: seq<Range>, range: Range)
    requires Disjoint(excluded)
  {
    EndsAscend(excluded, range.start);
    var next := PartitionPoint(excluded, (cut: Range) => cut.end <= range.start);
    next < |excluded| && excluded[next].start < range.end
  }

  lemma EndsAscend(excluded: seq<Range>, at: nat)
    requires Disjoint(excluded)
    ensures Partitioned(excluded, (cut: Range) => cut.end <= at)
  {
  }

  /** The search agrees with looking at every excluded range. */
  lemma OverlapsAnyIsExact(excluded: seq<Range>, range: Range)
    requires Disjoint(excluded)
    ensures OverlapsAny(excluded, range) <==> exists k :: 0 <= k < |excluded| && Overlap(excluded[k], range)
  {
    hide PartitionPoint;
    EndsAscend(excluded, range.start);
    var next := PartitionPoint(excluded, (cut: Range) => cut.end <= range.start);
    if k :| 0 <= k < |excluded| && Overlap(excluded[k], range) {
      assert next <= k;
    }
    if OverlapsAny(excluded, range) {
      assert Overlap(excluded[next], range);
    }
  }

  /** Adds a range that starts no earlier than every range before it. */
  function Merge(merged: seq<Range>, found: Range): seq<Range> {
    if merged != [] && merged[|merged| - 1].end >= found.start then
      var last := merged[|merged| - 1];
      merged[..|merged| - 1] + [last.(end := if last.end > found.end then last.end else found.end)]
    else merged + [found]
  }

  lemma MergeSeparates(merged: seq<Range>, found: Range)
    requires Separated(merged) && found.start < found.end
    requires forall k :: 0 <= k < |merged| ==> merged[k].start <= found.start
    ensures Separated(Merge(merged, found))
  {
  }

  lemma MergeCovers(merged: seq<Range>, found: Range)
    requires Separated(merged) && found.start < found.end
    requires forall k :: 0 <= k < |merged| ==> merged[k].start <= found.start
    ensures Separated(Merge(merged, found))
    ensures forall k :: 0 <= k < |Merge(merged, found)| ==> Merge(merged, found)[k].start <= found.start
    ensures forall x :: Covers(Merge(merged, found), x) <==> Covers(merged, x) || found.start <= x < found.end
  {
    MergeSeparates(merged, found);
    hide Separated;
    var next := Merge(merged, found);
    forall x
      ensures Covers(next, x) <==> Covers(merged, x) || found.start <= x < found.end
    {
      if k :| 0 <= k < |merged| && merged[k].start <= x < merged[k].end {
        assert next[k].start <= x < next[k].end;
      }
      if found.start <= x < found.end {
        assert next[|next| - 1].start <= x < next[|next| - 1].end;
      }
      if k :| 0 <= k < |next| && next[k].start <= x < next[k].end {
        if k < |merged| && merged[k].start <= x < merged[k].end {
          assert Covers(merged, x);
        }
      }
    }
  }

  // ---------- Occurrences ----------

  /** `word` is a beginning of the lowercase form of `s[i..j]`, and of no
      fewer characters. */
  ghost predicate Occurs(f: Lowering, word: string, s: string, i: int, j: int) {
    0 <= i < j <= |s| && word <= Lower(f, s[i..j]) && |Lower(f, s[i..j - 1])| < |word|
  }

  /** The lowercase form of some characters from `i` on is as long as the
      word. */
  ghost predicate EndsBetween(f: Lowering, word: string, s: string, i: int) {
    exists j :: 0 <= i <= j <= |s| && |Lower(f, s[i..j])| == |word|
  }

  /** The length in bytes of the occurrence at character `i`. */
  method MatchAt(f: Lowering, word: string, s: string, i: nat) returns (length: Option<nat>)
    requires i <= |s| && word != []
    ensures length.Some? <==> exists j :: Occurs(f, word, s, i, j)
    ensures forall j :: Occurs(f, word, s, i, j) ==> length.Some? && length.value == Bytes(s[..j]) - Bytes(s[..i])
    ensures (length.Some? && EndsBetween(f, word, s, i)) <==> exists j :: Search.IsMatch(f, word, s, i, j)
    ensures forall j :: Search.IsMatch(f, word, s, i, j) ==> length == Some(Bytes(s[..j]) - Bytes(s[..i]))
  {
    hide Bytes, Lower, Occurs, EndsBetween, Search.IsMatch;
    WholeMatch(f, word, s, i);
    var matched: nat, bytes: nat := 0, 0;
    LowerNothing(f, s, i);
    for k := i to |s|
      invariant matched == |Lower(f, s[i..k])| < |word| && word[..matched] == Lower(f, s[i..k])
      invariant bytes == Bytes(s[..k]) - Bytes(s[..i])
    {
      var lower := f(s[k]);
      LowerNext(f, s, i, k);
      BytesNext(s, k);
      for p := 0 to |lower|
        invariant matched == |Lower(f, s[i..k])| + p < |word|
        invariant word[..matched] == Lower(f, s[i..k]) + lower[..p]
      {
        if lower[p] != word[matched] {
          NoMatch(f, word, s, i, k, matched);
          return None;
        }
        assert word[..matched + 1] == word[..matched] + [word[matched]];
        assert lower[..p + 1] == lower[..p] + [lower[p]];
        matched := matched + 1;
        if matched == |word| {
          Matched(f, word, s, i, k, p + 1);
          return Some(bytes + Width(s[k]));
        }
      }
      assert lower[..|lower|] == lower;
      bytes := bytes + Width(s[k]);
    }
    TooShort(f, word, s, i);
    return None;
  }

  /** Unlike the search, a keyword may end inside the lowercase form of a
      character. It is a match of the search exactly when the lowercase form
      of some characters has the word's length. */
  lemma WholeMatch(f: Lowering, word: string, s: string, i: nat)
    requires word != []
    ensures forall j :: Search.IsMatch(f, word, s, i, j) <==> Occurs(f, word, s, i, j) && EndsBetween(f, word, s, i)
  {
    hide Lower;
    forall j | Search.IsMatch(f, word, s, i, j)
      ensures Occurs(f, word, s, i, j)
    {
      if i == j {
        LowerNothing(f, s, i);
      } else {
        LowerNext(f, s, i, j - 1);
      }
    }
    forall j, k | Occurs(f, word, s, i, j) && 0 <= i <= k <= |s| && |Lower(f, s[i..k])| == |word|
      ensures Search.IsMatch(f, word, s, i, j)
    {
      if k < j {
        LowerGrows(f, s, i, k, j - 1);
      } else {
        LowerGrows(f, s, i, j, k);
      }
    }
  }

  lemma LowerGrows(f: Lowering, s: string, i: nat, j: nat, k: nat)
    requires i <= j <= k <= |s|
    ensures Lower(f, s[i..j]) <= Lower(f, s[i..k])
  {
    LowerSplit(f, s, i, j, k);
  }

  lemma Matched(f: Lowering, word: string, s: string, i: nat, k: nat, p: nat)
    requires i <= k < |s| && 0 < p <= |f(s[k])| && word == Lower(f, s[i..k]) + f(s[k])[..p]
    ensures Occurs(f, word, s, i, k + 1) && forall j :: Occurs(f, word, s, i, j) ==> j == k + 1
  {
    hide Lower;
    LowerNext(f, s, i, k);
    forall j | Occurs(f, word, s, i, j) ensures j == k + 1 {
      OccursOnce(f, word, s, i, j, k + 1);
    }
  }

  /** At most one end fits a word and a start. */
  lemma OccursOnce(f: Lowering, word: string, s: string, i: nat, j: nat, k: nat)
    requires Occurs(f, word, s, i, j) && Occurs(f, word, s, i, k)
    ensures j == k
  {
    hide Lower;
    if j < k {
      LowerGrows(f, s, i, j, k - 1);
    } else if k < j {
      LowerGrows(f, s, i, k, j - 1);
    }
  }

  lemma NoMatch(f: Lowering, word: string, s: string, i: nat, k: nat, at: nat)
    requires i <= k < |s| && |Lower(f, s[i..k])| <= at < |word| && at < |Lower(f, s[i..k + 1])|
    requires word[at] != Lower(f, s[i..k + 1])[at]
    ensures forall j :: !Occurs(f, word, s, i, j)
  {
    hide Lower;
    forall j
      ensures !Occurs(f, word, s, i, j)
    {
      if i < j <= k {
        LowerGrows(f, s, i, j, k);
      } else if k < j <= |s| {
        LowerGrows(f, s, i, k + 1, j);
      }
    }
  }

  lemma TooShort(f: Lowering, word: string, s: string, i: nat)
    requires i <= |s| && |Lower(f, s[i..|s|])| < |word|
    ensures forall j :: !Occurs(f, word, s, i, j)
  {
    hide Lower;
    forall j
      ensures !Occurs(f, word, s, i, j)
    {
      if i < j <= |s| {
        LowerGrows(f, s, i, j, |s|);
      }
    }
  }

  // ---------- The keywords ----------

  /** The words looked for: trimmed, not empty, lowercased. */
  function Words(f: Lowering, keywords: seq<string>): (words: seq<string>)
    ensures forall w :: w in words <==> exists k :: k in keywords && Trim(k) != "" && w == Lower(f, Trim(k))
    ensures forall w :: w in words ==> w != []
  {
    if keywords == [] then []
    else
      var (front, last) := (keywords[..|keywords| - 1], keywords[|keywords| - 1]);
      assert keywords == front + [last];
      var words := Words(f, front);
      if Trim(last) == "" then words else words + [Lower(f, Trim(last))]
  }

  /** Byte `x` is in an occurrence that overlaps no excluded range, of one of
      the first `m` words at character `i`. */
  ghost predicate KeptAt(f: Lowering, words: seq<string>, m: int, s: string, excluded: seq<Range>, i: int, x: int) {
    exists n, j ::
      0 <= n < m && n < |words| && KeptOccurrence(f, words[n], s, excluded, i, j) && Bytes(s[..i]) <= x < Bytes(s[..j])
  }

  ghost predicate KeptOccurrence(f: Lowering, word: string, s: string, excluded: seq<Range>, i: int, j: int) {
    Occurs(f, word, s, i, j) &&
    forall k :: 0 <= k < |excluded| ==> !Overlap(excluded[k], Range(Bytes(s[..i]), Bytes(s[..j])))
  }

  /** The same for a start before character `i`. */
  ghost predicate KeptBefore(f: Lowering, words: seq<string>, s: string, excluded: seq<Range>, i: int, x: int) {
    exists a :: 0 <= a < i && KeptAt(f, words, |words|, s, excluded, a, x)
  }

  /** The ranges cover exactly the bytes of the keyword occurrences that
      overlap no excluded range. */
  method KeywordRangesOutside(f: Lowering, text: string, keywords: seq<string>, excluded: seq<Range>)
    returns (merged: seq<Range>)
    requires Disjoint(excluded)
    ensures Separated(merged)
    ensures forall x :: Covers(merged, x) <==> KeptBefore(f, Words(f, keywords), text, excluded, |text|, x)
  {
    hide Bytes, Lower, Covers, KeptAt, Separated, Words;
    var words := Words(f, keywords);
    merged := [];
    NothingCovered();
    if words == [] {
      NoWords(f, text, excluded);
      return;
    }
    var start := 0;
    assert Bytes(text[..0]) == 0 by {
      BytesOfNone();
      assert text[..0] == "";
    }
    for i := 0 to |text|
      invariant start == Bytes(text[..i]) && Separated(merged)
      invariant forall k :: 0 <= k < |merged| ==> merged[k].start <= start
      invariant forall x :: Covers(merged, x) <==> KeptBefore(f, words, text, excluded, i, x)
    {
      merged := AddAt(f, text, words, excluded, i, start, merged);
      KeptNext(f, words, text, excluded, i);
      BytesNext(text, i);
      start := start + Width(text[i]);
    }
  }

  /** The occurrences that start at character `i`. */
  method AddAt(f: Lowering, text: string, words: seq<string>, excluded: seq<Range>, i: nat, start: nat,
               merged0: seq<Range>)
    returns (merged: seq<Range>)
    requires i < |text| && start == Bytes(text[..i]) && Disjoint(excluded) && Separated(merged0)
    requires forall w :: w in words ==> w != []
    requires forall k :: 0 <= k < |merged0| ==> merged0[k].start <= start
    ensures Separated(merged) && forall k :: 0 <= k < |merged| ==> merged[k].start <= start
    ensures forall x :: Covers(merged, x) <==> Covers(merged0, x) || KeptAt(f, words, |words|, text, excluded, i, x)
  {
    hide Bytes, Lower, Occurs, Covers, Separated, Merge, OverlapsAny;
    merged := merged0;
    for n := 0 to |words|
      invariant Separated(merged) && forall k :: 0 <= k < |merged| ==> merged[k].start <= start
      invariant forall x :: Covers(merged, x) <==> Covers(merged0, x) || KeptAt(f, words, n, text, excluded, i, x)
    {
      assert words[n] in words;
      var length := MatchAt(f, words[n], text, i);
      if length.Some? {
        ghost var j :| Occurs(f, words[n], text, i, j);
        OccursGoesOn(f, words[n], text, i, j);
        var found := Range(start, start + length.value);
        OverlapsAnyIsExact(excluded, found);
        KeptNextWord(f, words, text, excluded, i, n, j);
        if !OverlapsAny(excluded, found) {
          MergeCovers(merged, found);
          merged := Merge(merged, found);
        }
      }
    }
  }

  lemma BytesOfNone()
    ensures Bytes("") == 0
  {
  }

  lemma NothingCovered()
    ensures Separated([]) && forall x :: !Covers([], x)
  {
  }

  lemma NoWords(f: Lowering, s: string, excluded: seq<Range>)
    ensures forall i, x :: !KeptBefore(f, [], s, excluded, i, x)
  {
  }

  lemma KeptNext(f: Lowering, words: seq<string>, s: string, excluded: seq<Range>, i: nat)
    ensures forall x :: KeptBefore(f, words, s, excluded, i + 1, x) <==>
                        KeptBefore(f, words, s, excluded, i, x) || KeptAt(f, words, |words|, s, excluded, i, x)
  {
    hide KeptAt;
  }

  lemma OccursGoesOn(f: Lowering, word: string, s: string, i: nat, j: int)
    requires Occurs(f, word, s, i, j)
    ensures i < j <= |s| && Bytes(s[..i]) < Bytes(s[..j])
  {
    hide Bytes, Lower;
    BytesMonotone(s, i, j);
  }

  lemma KeptNextWord(f: Lowering, words: seq<string>, s: string, excluded: seq<Range>, i: nat, n: nat, j: nat)
    requires n < |words| && Occurs(f, words[n], s, i, j)
    ensures forall x :: KeptAt(f, words, n + 1, s, excluded, i, x) <==>
                        KeptAt(f, words, n, s, excluded, i, x) ||
                        (KeptOccurrence(f, words[n], s, excluded, i, j) && Bytes(s[..i]) <= x < Bytes(s[..j]))
  {
    hide Bytes, Lower;
    var next := n + 1;
    forall x | KeptAt(f, words, next, s, excluded, i, x) && !KeptAt(f, words, n, s, excluded, i, x)
      ensures KeptOccurrence(f, words[n], s, excluded, i, j) && Bytes(s[..i]) <= x < Bytes(s[..j])
    {
      var m, k :| 0 <= m <= n && KeptOccurrence(f, words[m], s, excluded, i, k) && Bytes(s[..i]) <= x < Bytes(s[..k]);
      assert m == n;
      OccursOnce(f, words[n], s, i, j, k);
    }
    forall x
      ensures KeptOccurrence(f, words[n], s, excluded, i, j) && Bytes(s[..i]) <= x < Bytes(s[..j]) ==>
                KeptAt(f, words, next, s, excluded, i, x)
    {
    }
    forall x | KeptAt(f, words, n, s, excluded, i, x)
      ensures KeptAt(f, words, next, s, excluded, i, x)
    {
      var m, k :| 0 <= m < n && KeptOccurrence(f, words[m], s, excluded, i, k) && Bytes(s[..i]) <= x < Bytes(s[..k]);
    }
  }

  /** A keyword ends inside the lowercase form of a character. */
  lemma MayEndInside()
    ensures exists f: Lowering, word, s :: Occurs(f, word, s, 0, 1) && !Search.IsMatch(f, word, s, 0, 1)
  {
    var f: Lowering := c => if c == '\U{130}' then ['i', '\U{307}'] else [c];
    var (word, s) := ("i", "\U{130}");
    assert s[0..1] == s && s[0..0] == "";
    assert Lower(f, "") == "";
    assert s[..0] == "";
    assert Lower(f, s) == ['i', '\U{307}'];
    assert word <= Lower(f, s[0..1]);
    assert Occurs(f, word, s, 0, 1);
  }
}
