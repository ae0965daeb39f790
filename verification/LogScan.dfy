/** A search in progress over many logs, advanced in slices of a bounded cost
    and keeping only the newest hits. */
module LogScan {
  import opened Text
  import opened Sizes
  import opened Slices
  import opened Lists
  import Search

  const MAX_HITS := 10_000

  datatype Source = Conversation(conversation: nat) | Server(network: nat)
  datatype Line = Line(sequence: nat, text: string)
  /** A line of a log. */
  datatype Entry = Entry(source: Source, line: Line)
  datatype Hit = Hit(source: Source, sequence: nat)
  type Logs = map<Source, seq<Line>>

  /** The lines of a log; none when it is gone. */
  function Messages(logs: Logs, source: Source): seq<Line> {
    if source in logs then logs[source] else []
  }

  function TextCost(text: string): nat {
    1 + Bytes(text) / 64
  }

  // ---------- Lines in reading order ----------

  function EntriesOf(source: Source, lines: seq<Line>): (r: seq<Entry>)
    ensures |r| == |lines| && forall i :: 0 <= i < |r| ==> r[i] == Entry(source, lines[i])
  {
    seq(|lines|, i requires 0 <= i < |lines| => Entry(source, lines[i]))
  }

  /** The hits among the lines, in their order. */
  ghost function Matches(f: Lowering, term: string, entries: seq<Entry>): seq<Hit> {
    if entries == [] then []
    else
      var last := entries[|entries| - 1];
      Matches(f, term, entries[..|entries| - 1]) +
      if Search.Occurs(f, term, last.line.text) then [Hit(last.source, last.line.sequence)] else []
  }

  /** The lines of the first `n` sources. */
  ghost function EntriesBefore(logs: Logs, sources: seq<Source>, n: nat): seq<Entry>
    requires n <= |sources|
  {
    if n == 0 then []
    else EntriesBefore(logs, sources, n - 1) + EntriesOf(sources[n - 1], Messages(logs, sources[n - 1]))
  }

  ghost predicate Ascending(lines: seq<Line>) {
    forall i, j :: 0 <= i < j < |lines| ==> lines[i].sequence < lines[j].sequence
  }

  ghost predicate AllAscend(logs: Logs, sources: seq<Source>) {
    forall i :: 0 <= i < |sources| ==> Ascending(Messages(logs, sources[i]))
  }

  /** Each log ascends, and no two lines of different logs share a sequence. */
  ghost predicate UniqueLines(logs: Logs, sources: seq<Source>) {
    AllAscend(logs, sources) &&
    forall i, j, k, m ::
      0 <= i < j < |sources| && 0 <= k < |Messages(logs, sources[i])| && 0 <= m < |Messages(logs, sources[j])| ==>
        Messages(logs, sources[i])[k].sequence != Messages(logs, sources[j])[m].sequence
  }

  /** Each log ascends and holds only sequences that belong to it. Logs may
      change, but a sequence never moves to another log. */
  ghost predicate Owned(logs: Logs, sources: seq<Source>, owner: nat -> Source) {
    AllAscend(logs, sources) &&
    forall i, k :: 0 <= i < |sources| && 0 <= k < |Messages(logs, sources[i])| ==>
      owner(Messages(logs, sources[i])[k].sequence) == sources[i]
  }

  ghost predicate HoldsSequence(logs: Logs, source: Source, q: nat) {
    exists k :: 0 <= k < |Messages(logs, source)| && Messages(logs, source)[k].sequence == q
  }

  /** The source that holds the sequence, when one does. */
  ghost function OwnerOf(logs: Logs, sources: seq<Source>, q: nat): Source {
    if exists i :: 0 <= i < |sources| && HoldsSequence(logs, sources[i], q) then
      var i :| 0 <= i < |sources| && HoldsSequence(logs, sources[i], q);
      sources[i]
    else Server(0)
  }

  /** Logs that never change always assign each sequence to its log. */
  lemma UniqueIsOwned(logs: Logs, sources: seq<Source>)
    requires UniqueLines(logs, sources)
    ensures Owned(logs, sources, (q: nat) => OwnerOf(logs, sources, q))
  {
    forall i, k | 0 <= i < |sources| && 0 <= k < |Messages(logs, sources[i])|
      ensures OwnerOf(logs, sources, Messages(logs, sources[i])[k].sequence) == sources[i]
    {
      var q := Messages(logs, sources[i])[k].sequence;
      assert HoldsSequence(logs, sources[i], q);
    }
  }

  // ---------- What reading costs ----------

  ghost function CostOf(entries: seq<Entry>): (cost: nat)
    ensures |entries| <= cost
  {
    if entries == [] then 0
    else CostOf(entries[..|entries| - 1]) + TextCost(entries[|entries| - 1].line.text)
  }

  ghost function BytesOf(entries: seq<Entry>): nat {
    if entries == [] then 0
    else BytesOf(entries[..|entries| - 1]) + Bytes(entries[|entries| - 1].line.text)
  }

  /** A unit pays for a line, and one more for every 64 bytes it fills. So a
      slice reads fewer than 64 bytes a unit before its last line. */
  lemma {:induction false} CostMeans(entries: seq<Entry>)
    ensures 64 * (CostOf(entries) - |entries|) <= BytesOf(entries) <= 64 * CostOf(entries) - |entries|
    ensures forall budget: nat :: Affordable(entries, budget) && |entries| > 1 ==>
              BytesOf(entries[..|entries| - 1]) < 64 * budget
  {
    hide Bytes;
    if entries != [] {
      CostMeans(entries[..|entries| - 1]);
    }
  }

  /** What is left of a budget once the lines are read. */
  ghost function LeftOf(budget: nat, entries: seq<Entry>): nat {
    if CostOf(entries) < budget then budget - CostOf(entries) else 0
  }

  /** The lines before the last one did not use up the budget. */
  ghost predicate Affordable(entries: seq<Entry>, budget: nat) {
    entries != [] ==> CostOf(entries[..|entries| - 1]) < budget
  }

  lemma {:induction false} CostOfSum(a: seq<Entry>, b: seq<Entry>)
    ensures CostOf(a + b) == CostOf(a) + CostOf(b)
  {
    if b == [] {
      assert a + b == a;
    } else {
      assert (a + b)[..|a + b| - 1] == a + b[..|b| - 1];
      CostOfSum(a, b[..|b| - 1]);
    }
  }

  /** Reading on with what is left of a budget. */
  lemma AffordableSum(a: seq<Entry>, b: seq<Entry>, budget: nat)
    requires Affordable(a, budget) && Affordable(b, LeftOf(budget, a))
    ensures Affordable(a + b, budget) && LeftOf(budget, a + b) == LeftOf(LeftOf(budget, a), b)
  {
    hide CostOf;
    CostOfSum(a, b);
    if b == [] {
      NothingRead(budget);
      assert a + b == a;
    } else {
      assert (a + b)[..|a + b| - 1] == a + b[..|b| - 1];
      CostOfSum(a, b[..|b| - 1]);
    }
  }

  lemma NothingRead(budget: nat)
    ensures CostOf([]) == 0 && Affordable([], budget) && LeftOf(budget, []) == budget
  {
  }

  /** A budget is never exceeded by more than the last line. */
  lemma AffordableCount(entries: seq<Entry>, budget: nat)
    requires Affordable(entries, budget)
    ensures |entries| <= budget
  {
  }

  /** Reading one line more. */
  lemma ReadNext(f: Lowering, term: string, source: Source, lines: seq<Line>, k: nat, budget: nat)
    requires k < |lines| && LeftOf(budget, EntriesOf(source, lines[..k])) > 0
    ensures
      var (entries, more) := (EntriesOf(source, lines[..k]), EntriesOf(source, lines[..k + 1]));
      var (left, cost) := (LeftOf(budget, entries), TextCost(lines[k].text));
      && LeftOf(budget, more) == (if left < cost then 0 else left - cost)
      && Affordable(more, budget)
      && Matches(f, term, more) ==
         Matches(f, term, entries) +
         if Search.Occurs(f, term, lines[k].text) then [Hit(source, lines[k].sequence)] else []
  {
    hide TextCost, Search.Occurs;
    var more := EntriesOf(source, lines[..k + 1]);
    assert more[..k] == EntriesOf(source, lines[..k]) && more[k] == Entry(source, lines[k]);
  }

  // ---------- Distinct and sorted hits ----------

  ghost predicate Sorted(s: seq<Hit>) {
    forall i, j :: 0 <= i < j < |s| ==> s[i].sequence < s[j].sequence
  }

  /** No sequence names two of them. */
  ghost predicate OnePerSequence(m: multiset<Hit>) {
    (forall x :: m[x] <= 1) && forall x, y :: x in m && y in m && x.sequence == y.sequence ==> x == y
  }

  function BySequence(): Hit -> int {
    (h: Hit) => h.sequence
  }

  /** Sorting leaves no choice then. */
  lemma SortSorted(s: seq<Hit>)
    requires OnePerSequence(multiset(s))
    ensures Sorted(SortBy(s, BySequence()))
  {
    hide SortBy;
    var r := SortBy(s, BySequence());
    forall i, j | 0 <= i < j < |r|
      ensures r[i].sequence < r[j].sequence
    {
      assert BySequence()(r[i]) <= BySequence()(r[j]);
      assert r[i] in multiset(r) && r[j] in multiset(r);
      if r[i].sequence == r[j].sequence {
        HeldTwice(r, i, j);
      }
    }
  }

  // ---------- The newest hits ----------

  /** `hits` are the newest of `found`, `dropped` the older ones. */
  ghost predicate Newest(hits: seq<Hit>, dropped: seq<Hit>, found: seq<Hit>) {
    Sorted(hits) && multiset(found) == multiset(dropped) + multiset(hits) &&
    (forall d, h :: d in dropped && h in hits ==> d.sequence < h.sequence) &&
    |hits| <= MAX_HITS && (dropped != [] ==> |hits| == MAX_HITS)
  }

  ghost function Elements(s: seq<Hit>): set<Hit> {
    set h | h in s
  }

  lemma FrontElements(s: seq<Hit>)
    requires Sorted(s) && s != []
    ensures Elements(s[..|s| - 1]) == Elements(s) - {s[|s| - 1]}
  {
    assert s == s[..|s| - 1] + [s[|s| - 1]];
  }

  lemma {:induction false} SortedSize(s: seq<Hit>)
    requires Sorted(s)
    ensures |Elements(s)| == |s|
  {
    if s != [] {
      FrontElements(s);
      SortedSize(s[..|s| - 1]);
    }
  }

  lemma {:induction false} SortedSame(a: seq<Hit>, b: seq<Hit>)
    requires Sorted(a) && Sorted(b) && Elements(a) == Elements(b)
    ensures a == b
    decreases |a|
  {
    SortedSize(a);
    SortedSize(b);
    if a != [] {
      FrontElements(a);
      FrontElements(b);
      assert a[|a| - 1] in Elements(b) && b[|b| - 1] in Elements(a);
      SortedSame(a[..|a| - 1], b[..|b| - 1]);
      assert a == a[..|a| - 1] + [a[|a| - 1]];
    }
  }

  lemma KeptInBoth(found: seq<Hit>, h1: seq<Hit>, d1: seq<Hit>, h2: seq<Hit>, d2: seq<Hit>, x: Hit)
    requires Newest(h1, d1, found) && Newest(h2, d2, found) && x in h1
    ensures x in h2
  {
    if x !in h2 {
      assert x in multiset(h1) && x in multiset(found) && x in multiset(d2);
      forall y | y in h2
        ensures y in h1 && y != x
      {
        assert y in multiset(h2) && y in multiset(found);
        assert y in multiset(d1) || y in multiset(h1);
      }
      SortedCount(h2, h1, x);
    }
  }

  /** A sorted list within another, and without one of its elements, is
      shorter. */
  lemma SortedCount(a: seq<Hit>, b: seq<Hit>, x: Hit)
    requires Sorted(a) && Sorted(b) && x in b
    requires forall y :: y in a ==> y in b && y != x
    ensures |a| < |b|
  {
    SortedSize(a);
    SortedSize(b);
    SubsetSize(Elements(a), Elements(b) - {x});
  }

  /** What was found decides which hits are kept and whether any is missing. */
  lemma NewestIsUnique(found: seq<Hit>, h1: seq<Hit>, d1: seq<Hit>, h2: seq<Hit>, d2: seq<Hit>)
    requires Newest(h1, d1, found) && Newest(h2, d2, found)
    ensures h1 == h2 && (d1 == [] <==> d2 == [])
    ensures |h1| == if |found| < MAX_HITS then |found| else MAX_HITS
    ensures d1 != [] <==> |found| > MAX_HITS
  {
    forall x ensures x in Elements(h1) <==> x in Elements(h2) {
      if x in h1 {
        KeptInBoth(found, h1, d1, h2, d2, x);
      }
      if x in h2 {
        KeptInBoth(found, h2, d2, h1, d1, x);
      }
    }
    SortedSame(h1, h2);
    assert |multiset(found)| == |found|;
    assert |found| == |d1| + |h1| && |found| == |d2| + |h2|;
  }

  /** Dropping the oldest of the kept and the new hits keeps the newest. */
  lemma KeepNewest(hits: seq<Hit>, dropped: seq<Hit>, found: seq<Hit>, more: seq<Hit>, s: seq<Hit>, c: nat)
    requires Newest(hits, dropped, found)
    requires Sorted(s) && multiset(s) == multiset(hits) + multiset(more)
    requires c == if |s| > MAX_HITS then |s| - MAX_HITS else 0
    ensures Newest(s[c..], dropped + s[..c], found + more)
  {
    KeptOrder(hits, dropped, found, s, c);
    KeptBag(hits, dropped, found, more, s, c);
    assert Sorted(s[c..]);
  }

  lemma CutKeeps(hits: seq<Hit>, dropped: seq<Hit>, found: seq<Hit>, more: seq<Hit>, s: seq<Hit>)
    requires Newest(hits, dropped, found)
    requires Sorted(s) && multiset(s) == multiset(hits) + multiset(more)
    ensures |s| <= MAX_HITS ==> Newest(s, dropped, found + more)
    ensures |s| > MAX_HITS ==> Newest(s[|s| - MAX_HITS..], dropped + s[..|s| - MAX_HITS], found + more)
  {
    hide Newest, Sorted;
    if |s| <= MAX_HITS {
      KeepNewest(hits, dropped, found, more, s, 0);
      assert s[0..] == s && dropped + s[..0] == dropped;
    } else {
      KeepNewest(hits, dropped, found, more, s, |s| - MAX_HITS);
    }
  }

  lemma KeptBag(hits: seq<Hit>, dropped: seq<Hit>, found: seq<Hit>, more: seq<Hit>, s: seq<Hit>, c: nat)
    requires multiset(found) == multiset(dropped) + multiset(hits)
    requires multiset(s) == multiset(hits) + multiset(more) && c <= |s|
    ensures multiset(found + more) == multiset(dropped + s[..c]) + multiset(s[c..])
    ensures |s| == |hits| + |more|
  {
    assert s == s[..c] + s[c..];
    assert multiset(s) == multiset(s[..c]) + multiset(s[c..]);
    assert |multiset(s)| == |s|;
    var low, high := s[..c], s[c..];
    assert multiset(dropped + low) == multiset(dropped) + multiset(low);
    assert multiset(found + more) == multiset(found) + multiset(more);
    Regroup(multiset(dropped), multiset(low), multiset(high), multiset(hits), multiset(more));
  }

  lemma Regroup<T>(d: multiset<T>, l: multiset<T>, h: multiset<T>, a: multiset<T>, m: multiset<T>)
    requires l + h == a + m
    ensures d + l + h == d + a + m
  {
    forall x ensures (d + l + h)[x] == (d + a + m)[x] {
      assert (l + h)[x] == (a + m)[x];
    }
  }

  lemma KeptOrder(hits: seq<Hit>, dropped: seq<Hit>, found: seq<Hit>, s: seq<Hit>, c: nat)
    requires Newest(hits, dropped, found)
    requires Sorted(s) && multiset(hits) <= multiset(s) && c <= |s| <= c + MAX_HITS
    ensures forall d, h :: d in dropped + s[..c] && h in s[c..] ==> d.sequence < h.sequence
  {
    forall d, h | d in dropped + s[..c] && h in s[c..]
      ensures d.sequence < h.sequence
    {
      if d in dropped {
        KeptIsNewer(hits, dropped, found, s, c, d, h);
      }
    }
  }

  lemma KeptIsNewer(hits: seq<Hit>, dropped: seq<Hit>, found: seq<Hit>, s: seq<Hit>, c: nat, d: Hit, h: Hit)
    requires Newest(hits, dropped, found) && d in dropped
    requires Sorted(s) && multiset(hits) <= multiset(s)
    requires c <= |s| <= c + MAX_HITS && h in s[c..]
    ensures d.sequence < h.sequence
  {
    var k :| c <= k < |s| && s[k] == h;
    if h.sequence <= d.sequence {
      TooMany(hits, s, k);
    }
  }

  /** Not every hit can come after position `k` of a list that ends with
      the `MAX_HITS` newest. */
  lemma TooMany(hits: seq<Hit>, s: seq<Hit>, k: nat)
    requires k < |s| && Sorted(s) && multiset(hits) <= multiset(s)
    requires forall x :: x in hits ==> s[k].sequence < x.sequence
    ensures |hits| < |s| - k
  {
    var low, high := s[..k + 1], s[k + 1..];
    assert s == low + high;
    forall x ensures multiset(hits)[x] <= multiset(high)[x] {
      if x in multiset(hits) {
        assert x in hits;
        assert x !in low;
      }
    }
    assert multiset(hits) <= multiset(high);
    MultisetSize(multiset(hits), multiset(high));
  }

  lemma MultisetSize<T>(a: multiset<T>, b: multiset<T>)
    requires a <= b
    ensures |a| <= |b|
  {
    assert b == a + (b - a);
  }

  // ---------- Where a scan stands ----------

  /** The first line of `lines` with sequence `next` or later. */
  function StartOf(lines: seq<Line>, next: nat): (at: nat)
    requires Ascending(lines)
    ensures at <= |lines|
    ensures forall i :: 0 <= i < at ==> lines[i].sequence < next
    ensures forall i :: at <= i < |lines| ==> next <= lines[i].sequence
  {
    PartitionPoint(lines, (line: Line) => line.sequence < next)
  }

  lemma StartIs(lines: seq<Line>, next: nat, at: nat)
    requires Ascending(lines) && at <= |lines|
    requires at > 0 ==> lines[at - 1].sequence < next
    requires at < |lines| ==> next <= lines[at].sequence
    ensures StartOf(lines, next) == at
  {
    hide StartOf;
    var p := StartOf(lines, next);
  }

  /** The lines of the first `c` sources and those of the next one before
      `next`. */
  ghost function EntriesAt(logs: Logs, sources: seq<Source>, c: nat, next: nat): seq<Entry>
    requires c <= |sources| && AllAscend(logs, sources)
  {
    EntriesBefore(logs, sources, c) +
    if c == |sources| then []
    else
      var lines := Messages(logs, sources[c]);
      EntriesOf(sources[c], lines[..StartOf(lines, next)])
  }

  /** Lines and sources left from source `c` on. */
  ghost function Left(logs: Logs, sources: seq<Source>, c: nat): nat
    requires c <= |sources|
    decreases |sources| - c
  {
    if c == |sources| then 0 else 1 + |Messages(logs, sources[c])| + Left(logs, sources, c + 1)
  }

  ghost function LeftAt(logs: Logs, sources: seq<Source>, c: nat, next: nat): nat
    requires c <= |sources| && AllAscend(logs, sources)
  {
    if c == |sources| then 0
    else Left(logs, sources, c) - StartOf(Messages(logs, sources[c]), next)
  }

  lemma AscendsAt(logs: Logs, sources: seq<Source>, i: nat)
    requires AllAscend(logs, sources) && i < |sources|
    ensures Ascending(Messages(logs, sources[i]))
  {
  }

  /** Stopping before line `at` of source `c`. */
  lemma EntriesWithin(logs: Logs, sources: seq<Source>, c: nat, next: nat, at: nat)
    requires c < |sources| && AllAscend(logs, sources)
    requires StartOf(Messages(logs, sources[c]), next) <= at < |Messages(logs, sources[c])|
    ensures
      var lines := Messages(logs, sources[c]);
      var start := StartOf(lines, next);
      && EntriesAt(logs, sources, c, lines[at].sequence) ==
         EntriesAt(logs, sources, c, next) + EntriesOf(sources[c], lines[start..at])
      && LeftAt(logs, sources, c, lines[at].sequence) == LeftAt(logs, sources, c, next) - (at - start)
  {
    hide StartOf, EntriesBefore;
    var lines := Messages(logs, sources[c]);
    StartIs(lines, lines[at].sequence, at);
  }

  /** Reading source `c` to its end. */
  lemma EntriesWhole(logs: Logs, sources: seq<Source>, c: nat, next: nat)
    requires c < |sources| && AllAscend(logs, sources)
    ensures
      var lines := Messages(logs, sources[c]);
      && EntriesAt(logs, sources, c + 1, 0) ==
         EntriesAt(logs, sources, c, next) + EntriesOf(sources[c], lines[StartOf(lines, next)..])
      && LeftAt(logs, sources, c + 1, 0) < LeftAt(logs, sources, c, next)
  {
    hide StartOf, EntriesBefore, EntriesOf;
    var lines := Messages(logs, sources[c]);
    EntriesFromStart(logs, sources, c + 1);
    EntriesBeforeNext(logs, sources, c);
    EntriesOfSum(sources[c], lines, StartOf(lines, next));
    Associative(EntriesBefore(logs, sources, c), EntriesOf(sources[c], lines[..StartOf(lines, next)]),
                EntriesOf(sources[c], lines[StartOf(lines, next)..]));
  }

  lemma EntriesOfSum(source: Source, lines: seq<Line>, at: nat)
    requires at <= |lines|
    ensures EntriesOf(source, lines) == EntriesOf(source, lines[..at]) + EntriesOf(source, lines[at..])
  {
  }

  lemma EntriesBeforeNext(logs: Logs, sources: seq<Source>, c: nat)
    requires c < |sources|
    ensures EntriesBefore(logs, sources, c + 1) == EntriesBefore(logs, sources, c) +
            EntriesOf(sources[c], Messages(logs, sources[c]))
  {
  }

  lemma EntriesFromStart(logs: Logs, sources: seq<Source>, c: nat)
    requires c <= |sources| && AllAscend(logs, sources)
    ensures EntriesAt(logs, sources, c, 0) == EntriesBefore(logs, sources, c)
    ensures LeftAt(logs, sources, c, 0) == Left(logs, sources, c)
  {
    hide StartOf, EntriesBefore;
    if c < |sources| {
      StartIs(Messages(logs, sources[c]), 0, 0);
    }
  }

  lemma EntriesWhenDone(logs: Logs, sources: seq<Source>, next: nat)
    requires AllAscend(logs, sources)
    ensures EntriesAt(logs, sources, |sources|, next) == EntriesBefore(logs, sources, |sources|)
  {
  }

  // ---------- Which lines these are ----------

  ghost predicate IsLine(logs: Logs, sources: seq<Source>, e: Entry) {
    e.source in sources && e.line in Messages(logs, e.source)
  }

  /** Whether the line comes before sequence `next` of source `c`. */
  ghost predicate Passed(sources: seq<Source>, e: Entry, c: nat, next: nat) {
    var i := Position(sources, e.source);
    i < c || (i == c && e.line.sequence < next)
  }

  ghost predicate Earlier(sources: seq<Source>, a: Entry, b: Entry) {
    var i, j := Position(sources, a.source), Position(sources, b.source);
    i < j || (i == j && a.line.sequence < b.line.sequence)
  }

  /** By source and then by sequence: no line is there twice. */
  ghost predicate InOrder(sources: seq<Source>, entries: seq<Entry>) {
    forall i, j :: 0 <= i < j < |entries| ==> Earlier(sources, entries[i], entries[j])
  }

  /** The part of one source before line `n`. */
  lemma EntriesOfAre(logs: Logs, sources: seq<Source>, c: nat, n: nat)
    requires c < |sources| && Position(sources, sources[c]) == c
    requires Ascending(Messages(logs, sources[c])) && n <= |Messages(logs, sources[c])|
    ensures
      var (lines, part) := (Messages(logs, sources[c]), EntriesOf(sources[c], Messages(logs, sources[c])[..n]));
      && InOrder(sources, part)
      && (forall e :: e in part ==> e.source == sources[c] && exists k :: 0 <= k < n && lines[k] == e.line)
      && forall k :: 0 <= k < n ==> Entry(sources[c], lines[k]) in part
  {
    hide Position;
    var lines, part := Messages(logs, sources[c]), EntriesOf(sources[c], Messages(logs, sources[c])[..n]);
    forall e | e in part
      ensures e.source == sources[c] && exists k :: 0 <= k < n && lines[k] == e.line
    {
      var k :| 0 <= k < |part| && part[k] == e;
      assert lines[k] == e.line;
    }
    forall k | 0 <= k < n
      ensures Entry(sources[c], lines[k]) in part
    {
      assert part[k] == Entry(sources[c], lines[k]);
    }
  }

  lemma InOrderSum(sources: seq<Source>, a: seq<Entry>, b: seq<Entry>, c: nat, next: nat)
    requires InOrder(sources, a) && InOrder(sources, b)
    requires forall e :: e in a ==> Passed(sources, e, c, next)
    requires forall e :: e in b ==> !Passed(sources, e, c, next)
    ensures InOrder(sources, a + b)
  {
    hide Position;
    forall i, j | 0 <= i < j < |a + b|
      ensures Earlier(sources, (a + b)[i], (a + b)[j])
    {
      if i < |a| <= j {
        assert (a + b)[i] in a && (a + b)[j] in b;
      }
    }
  }

  lemma OwnPosition(sources: seq<Source>, c: nat)
    requires Distinct(sources) && c < |sources|
    ensures Position(sources, sources[c]) == c
  {
    hide Position;
    var at := Position(sources, sources[c]);
  }

  /** The lines of the first sources are in order, and exactly those. */
  lemma {:induction false} EntriesBeforeAre(logs: Logs, sources: seq<Source>, n: nat)
    requires n <= |sources| && Distinct(sources) && AllAscend(logs, sources)
    ensures InOrder(sources, EntriesBefore(logs, sources, n))
    ensures forall e :: e in EntriesBefore(logs, sources, n) <==> IsLine(logs, sources, e) && Passed(sources, e, n, 0)
  {
    hide Position, InOrder, Messages, AllAscend;
    if n == 0 {
      NothingInOrder(sources);
    } else {
      var lines := Messages(logs, sources[n - 1]);
      EntriesBeforeAre(logs, sources, n - 1);
      AscendsAt(logs, sources, n - 1);
      OwnPosition(sources, n - 1);
      EntriesOfAre(logs, sources, n - 1, |lines|);
      assert lines[..|lines|] == lines;
      InOrderSum(sources, EntriesBefore(logs, sources, n - 1), EntriesOf(sources[n - 1], lines), n - 1, 0);
    }
  }

  lemma NothingInOrder(sources: seq<Source>)
    ensures InOrder(sources, [])
  {
  }

  lemma EntriesAtAre(logs: Logs, sources: seq<Source>, c: nat, next: nat)
    requires c <= |sources| && Distinct(sources) && AllAscend(logs, sources)
    ensures InOrder(sources, EntriesAt(logs, sources, c, next))
    ensures forall e ::
              e in EntriesAt(logs, sources, c, next) <==> IsLine(logs, sources, e) && Passed(sources, e, c, next)
  {
    hide Position, InOrder, Messages, AllAscend, EntriesBefore, StartOf;
    EntriesBeforeAre(logs, sources, c);
    if c < |sources| {
      var lines := Messages(logs, sources[c]);
      AscendsAt(logs, sources, c);
      OwnPosition(sources, c);
      EntriesOfAre(logs, sources, c, StartOf(lines, next));
      InOrderSum(sources, EntriesBefore(logs, sources, c), EntriesOf(sources[c], lines[..StartOf(lines, next)]), c, 0);
    } else {
      assert EntriesAt(logs, sources, c, next) == EntriesBefore(logs, sources, c);
    }
  }

  // ---------- What was read so far ----------

  /** What was read, from logs that may have changed since: in order, and all
      of it before where the scan stands. */
  ghost predicate ReadSoFar(sources: seq<Source>, owner: nat -> Source, read: seq<Entry>, c: nat, next: nat) {
    InOrder(sources, read) &&
    forall e :: e in read ==> e.source in sources && owner(e.line.sequence) == e.source && Passed(sources, e, c, next)
  }

  /** Reading on adds exactly the lines between the two places. */
  ghost predicate ReadBetween(logs: Logs, sources: seq<Source>, more: seq<Entry>, c: nat, next: nat, d: nat,
                              last: nat) {
    forall e :: e in more <==> IsLine(logs, sources, e) && !Passed(sources, e, c, next) && Passed(sources, e, d, last)
  }

  lemma NotTwice(sources: seq<Source>, a: seq<Entry>, b: seq<Entry>)
    requires InOrder(sources, a + b)
    ensures forall e :: e in b ==> e !in a
  {
    hide Position;
    forall i, j | 0 <= i < |a| && 0 <= j < |b|
      ensures a[i] != b[j]
    {
      assert (a + b)[i] == a[i] && (a + b)[|a| + j] == b[j];
    }
  }

  lemma MoreIsBetween(logs: Logs, sources: seq<Source>, more: seq<Entry>, c: nat, next: nat, d: nat, last: nat)
    requires c <= |sources| && d <= |sources| && Distinct(sources) && AllAscend(logs, sources)
    requires EntriesAt(logs, sources, d, last) == EntriesAt(logs, sources, c, next) + more
    ensures ReadBetween(logs, sources, more, c, next, d, last) && InOrder(sources, more)
  {
    hide Position, EntriesAt, AllAscend, IsLine, Passed;
    var a, b := EntriesAt(logs, sources, c, next), EntriesAt(logs, sources, d, last);
    EntriesAtAre(logs, sources, c, next);
    EntriesAtAre(logs, sources, d, last);
    NotTwice(sources, a, more);
    assert forall e :: e in more <==> e in b && e !in a;
    forall i, j | 0 <= i < j < |more|
      ensures Earlier(sources, more[i], more[j])
    {
      assert b[|a| + i] == more[i] && b[|a| + j] == more[j];
    }
  }

  /** So what was read stays in order, whatever happened to the logs before. */
  lemma ReadOn(logs: Logs, sources: seq<Source>, owner: nat -> Source, read: seq<Entry>, more: seq<Entry>, c: nat,
               next: nat, d: nat, last: nat)
    requires ReadSoFar(sources, owner, read, c, next) && Owned(logs, sources, owner)
    requires ReadBetween(logs, sources, more, c, next, d, last) && InOrder(sources, more)
    requires c < d || (c == d && next <= last)
    ensures ReadSoFar(sources, owner, read + more, d, last)
  {
    hide Position, InOrder, Messages, AllAscend;
    InOrderSum(sources, read, more, c, next);
    forall e | e in more
      ensures e.source in sources && owner(e.line.sequence) == e.source && Passed(sources, e, d, last)
    {
      OwnedLine(logs, sources, owner, e);
    }
  }

  lemma OwnedLine(logs: Logs, sources: seq<Source>, owner: nat -> Source, e: Entry)
    requires Owned(logs, sources, owner) && IsLine(logs, sources, e)
    ensures owner(e.line.sequence) == e.source
  {
    var i :| 0 <= i < |sources| && sources[i] == e.source;
    var k :| 0 <= k < |Messages(logs, sources[i])| && Messages(logs, sources[i])[k] == e.line;
  }

  // ---------- The hits among what was read ----------

  /** No two of the lines share a sequence. */
  ghost predicate SequencesDiffer(entries: seq<Entry>) {
    forall i, j :: 0 <= i < j < |entries| ==> entries[i].line.sequence != entries[j].line.sequence
  }

  ghost predicate SequencesAscend(entries: seq<Entry>) {
    forall i, j :: 0 <= i < j < |entries| ==> entries[i].line.sequence < entries[j].line.sequence
  }

  lemma SequencesRead(sources: seq<Source>, owner: nat -> Source, read: seq<Entry>, c: nat, next: nat)
    requires ReadSoFar(sources, owner, read, c, next)
    ensures SequencesDiffer(read) && (|sources| <= 1 ==> SequencesAscend(read))
  {
    hide Position, Passed;
    forall i, j | 0 <= i < j < |read|
      ensures read[i].line.sequence != read[j].line.sequence
      ensures |sources| <= 1 ==> read[i].line.sequence < read[j].line.sequence
    {
      assert read[i] in read && read[j] in read;
      assert Earlier(sources, read[i], read[j]);
    }
  }

  lemma {:induction false} MatchesSum(f: Lowering, term: string, a: seq<Entry>, b: seq<Entry>)
    ensures Matches(f, term, a + b) == Matches(f, term, a) + Matches(f, term, b)
  {
    if b == [] {
      assert a + b == a;
    } else {
      assert (a + b)[..|a + b| - 1] == a + b[..|b| - 1];
      MatchesSum(f, term, a, b[..|b| - 1]);
    }
  }

  /** A hit is a line in which the term occurs. */
  lemma {:induction false} MatchFrom(f: Lowering, term: string, entries: seq<Entry>, h: Hit)
    ensures h in Matches(f, term, entries) <==>
              exists k :: 0 <= k < |entries| && h == Hit(entries[k].source, entries[k].line.sequence) &&
                          Search.Occurs(f, term, entries[k].line.text)
  {
    hide Search.Occurs;
    if entries != [] {
      var n := |entries| - 1;
      MatchFrom(f, term, entries[..n], h);
      assert forall k :: 0 <= k < n ==> entries[..n][k] == entries[k];
      if Search.Occurs(f, term, entries[n].line.text) && h == Hit(entries[n].source, entries[n].line.sequence) {
        assert h in Matches(f, term, entries);
      }
    }
  }

  lemma MatchesNext(f: Lowering, term: string, entries: seq<Entry>)
    requires entries != []
    ensures
      var (hits, last) := (Matches(f, term, entries[..|entries| - 1]), entries[|entries| - 1]);
      Matches(f, term, entries) in {hits, hits + [Hit(last.source, last.line.sequence)]}
  {
    hide Search.Occurs;
    assert Matches(f, term, entries[..|entries| - 1]) + [] == Matches(f, term, entries[..|entries| - 1]);
  }

  lemma {:induction false} MatchesDiffer(f: Lowering, term: string, entries: seq<Entry>)
    requires SequencesDiffer(entries)
    ensures OnePerSequence(multiset(Matches(f, term, entries)))
  {
    hide Matches, OnePerSequence;
    if entries == [] {
      NoMatches(f, term);
      OneOfNone();
    } else {
      var last := entries[|entries| - 1];
      MatchesDiffer(f, term, entries[..|entries| - 1]);
      MatchesBefore(f, term, entries);
      MatchesNext(f, term, entries);
      OneMore(Matches(f, term, entries[..|entries| - 1]), Hit(last.source, last.line.sequence));
    }
  }

  lemma {:induction false} MatchesSorted(f: Lowering, term: string, entries: seq<Entry>)
    requires SequencesDiffer(entries) && SequencesAscend(entries)
    ensures Sorted(Matches(f, term, entries))
  {
    hide Matches;
    if entries == [] {
      NoMatches(f, term);
    } else {
      MatchesSorted(f, term, entries[..|entries| - 1]);
      MatchesBefore(f, term, entries);
      MatchesNext(f, term, entries);
    }
  }

  lemma MatchesBefore(f: Lowering, term: string, entries: seq<Entry>)
    requires entries != [] && SequencesDiffer(entries)
    ensures
      var (front, last) := (entries[..|entries| - 1], entries[|entries| - 1].line.sequence);
      forall h ::
        h in Matches(f, term, front) ==> h.sequence != last && (SequencesAscend(entries) ==> h.sequence < last)
  {
    hide Matches;
    var front := entries[..|entries| - 1];
    forall h | h in Matches(f, term, front)
      ensures exists k :: 0 <= k < |front| && h.sequence == entries[k].line.sequence
    {
      MatchFrom(f, term, front, h);
      var k :| 0 <= k < |front| && h == Hit(front[k].source, front[k].line.sequence);
      assert front[k] == entries[k];
    }
  }

  lemma OneOfNone()
    ensures OnePerSequence(multiset([]))
  {
  }

  lemma OneMore(hits: seq<Hit>, h: Hit)
    requires OnePerSequence(multiset(hits)) && forall x :: x in hits ==> x.sequence != h.sequence
    ensures OnePerSequence(multiset(hits + [h]))
  {
    var m := multiset(hits);
    assert multiset(hits + [h]) == m + multiset{h};
    assert h !in hits;
    assert forall x :: x in m <==> x in hits;
  }

  /** Hits read from one log need no sorting. */
  lemma AlreadySorted(hits: seq<Hit>, dropped: seq<Hit>, found: seq<Hit>, more: seq<Hit>)
    requires Newest(hits, dropped, found) && Sorted(found + more)
    ensures Sorted(hits + more)
  {
    forall i, j | 0 <= i < j < |hits + more|
      ensures (hits + more)[i].sequence < (hits + more)[j].sequence
    {
      if i < |hits| <= j {
        assert hits[i] in multiset(hits) && hits[i] in multiset(found);
        var k :| 0 <= k < |found| && found[k] == hits[i];
        assert (found + more)[k] == hits[i] && (found + more)[|found| + (j - |hits|)] == more[j - |hits|];
      } else if |hits| <= i {
        assert (found + more)[|found| + (i - |hits|)] == more[i - |hits|];
        assert (found + more)[|found| + (j - |hits|)] == more[j - |hits|];
      }
    }
  }

  lemma DistinctKept(hits: seq<Hit>, dropped: seq<Hit>, found: seq<Hit>, more: seq<Hit>)
    requires Newest(hits, dropped, found) && OnePerSequence(multiset(found + more))
    ensures OnePerSequence(multiset(hits + more))
  {
    assert multiset(found + more) == multiset(dropped) + multiset(hits + more);
    forall x ensures multiset(hits + more)[x] <= multiset(found + more)[x] {}
  }

  /** Whether or not the appended hits are sorted again, they then are. */
  lemma Arranged(f: Lowering, term: string, sources: seq<Source>, owner: nat -> Source, read: seq<Entry>,
                 more: seq<Entry>,
                 c: nat, next: nat, hits: seq<Hit>, dropped: seq<Hit>)
    requires ReadSoFar(sources, owner, read + more, c, next) && Newest(hits, dropped, Matches(f, term, read))
    ensures
      var all := hits + Matches(f, term, more);
      && Matches(f, term, read + more) == Matches(f, term, read) + Matches(f, term, more)
      && Sorted(SortBy(all, BySequence())) && (Matches(f, term, more) == [] || |sources| <= 1 ==> Sorted(all))
  {
    hide Matches, ReadSoFar, Newest, OnePerSequence, Sorted, SortBy, BySequence;
    MatchesSum(f, term, read, more);
    SequencesRead(sources, owner, read + more, c, next);
    MatchesDiffer(f, term, read + more);
    if |sources| <= 1 {
      MatchesSorted(f, term, read + more);
    }
    DistinctKept(hits, dropped, Matches(f, term, read), Matches(f, term, more));
    SortSorted(hits + Matches(f, term, more));
    if Matches(f, term, more) == [] {
      assert hits + Matches(f, term, more) == hits;
      NewestSorted(hits, dropped, Matches(f, term, read));
    } else if |sources| <= 1 {
      AlreadySorted(hits, dropped, Matches(f, term, read), Matches(f, term, more));
    }
  }

  lemma NewestSorted(hits: seq<Hit>, dropped: seq<Hit>, found: seq<Hit>)
    requires Newest(hits, dropped, found)
    ensures Sorted(hits)
  {
  }

  // ---------- The scan ----------

  class Scan {
    const f: Lowering
    const query: Search.Query
    const sources: seq<Source>
    /** The source being read, and the first sequence of it not read yet. */
    var cursor: nat
    var nextSequence: nat
    var hits: seq<Hit>
    var truncated: bool
    /** The log each sequence belongs to, every line read, and the hits given
        up. */
    ghost const owner: nat -> Source
    ghost var read: seq<Entry>
    ghost var dropped: seq<Hit>

    /** No line was read twice, and the hits are the newest of what was read. */
    ghost predicate Valid()
      reads this
    {
      && query.Valid() && cursor <= |sources| && Distinct(sources)
      && ReadSoFar(sources, owner, read, cursor, nextSequence)
      && Newest(hits, dropped, Matches(f, query.folded, read))
      && (truncated <==> dropped != [])
    }

    /** The lines of `logs` before where the scan stands. */
    ghost function Before(logs: Logs): seq<Entry>
      reads this`cursor, this`nextSequence
      requires cursor <= |sources| && AllAscend(logs, sources)
    {
      EntriesAt(logs, sources, cursor, nextSequence)
    }

    /** Lines and sources of `logs` not read yet. */
    ghost function Remaining(logs: Logs): nat
      reads this`cursor, this`nextSequence
      requires cursor <= |sources| && AllAscend(logs, sources)
    {
      LeftAt(logs, sources, cursor, nextSequence)
    }

    ghost predicate HasPassed(e: Entry)
      reads this`cursor, this`nextSequence
    {
      Passed(sources, e, cursor, nextSequence)
    }

    constructor (f: Lowering, query: Search.Query, sources: seq<Source>, ghost owner: nat -> Source)
      requires query.Valid() && Distinct(sources)
      ensures this.f == f && this.query == query && this.sources == sources && this.owner == owner
      ensures Valid() && read == [] && cursor == 0 && nextSequence == 0 && hits == [] && !truncated
    {
      this.f, this.query, this.sources, this.owner := f, query, sources, owner;
      cursor, nextSequence, hits, truncated, read, dropped := 0, 0, [], false, [], [];
    }

    predicate IsDone()
      reads this
    {
      cursor >= |sources|
    }

    /** Reads `lines` of `source` while `budget` lasts; `count` says how many. */
    method Read(source: Source, lines: seq<Line>, budget: nat) returns (finished: bool, left: nat, ghost count: nat)
      requires query.Valid()
      modifies this`hits, this`nextSequence
      ensures count <= |lines| && (finished <==> count == |lines|)
      ensures hits == old(hits) + Matches(f, query.folded, EntriesOf(source, lines[..count]))
      ensures nextSequence == if finished then old(nextSequence) else lines[count].sequence
      ensures left == LeftOf(budget, EntriesOf(source, lines[..count])) &&
              Affordable(EntriesOf(source, lines[..count]), budget)
      ensures !finished ==> left == 0 && (budget > 0 ==> count > 0)
    {
      hide Bytes, TextCost, LeftOf, Affordable, Search.Occurs;
      NothingRead(budget);
      assert EntriesOf(source, lines[..0]) == [];
      left := budget;
      for k := 0 to |lines|
        invariant hits == old(hits) + Matches(f, query.folded, EntriesOf(source, lines[..k]))
        invariant nextSequence == old(nextSequence)
        invariant left == LeftOf(budget, EntriesOf(source, lines[..k])) &&
                  Affordable(EntriesOf(source, lines[..k]), budget)
        invariant k == 0 ==> left == budget
      {
        if left == 0 {
          nextSequence := lines[k].sequence;
          return false, left, k;
        }
        left := if left < TextCost(lines[k].text) then 0 else left - TextCost(lines[k].text);
        var found := query.IsIn(f, lines[k].text);
        ReadNext(f, query.folded, source, lines, k, budget);
        if found {
          hits := hits + [Hit(source, lines[k].sequence)];
        }
      }
      assert lines[..|lines|] == lines;
      return true, left, |lines|;
    }

    /** Reads on in the current source. */
    method ReadSource(logs: Logs, budget: nat) returns (left: nat, ghost more: seq<Entry>)
      requires query.Valid() && cursor < |sources| && AllAscend(logs, sources) && budget > 0
      modifies this`hits, this`nextSequence, this`cursor
      ensures cursor == old(cursor) + 1 || (cursor == old(cursor) && old(nextSequence) <= nextSequence && left == 0)
      ensures hits == old(hits) + Matches(f, query.folded, more) && Before(logs) == old(Before(logs)) + more
      ensures Remaining(logs) < old(Remaining(logs))
      ensures Affordable(more, budget) && left == LeftOf(budget, more)
    {
      hide AllAscend, EntriesAt, Matches, StartOf, LeftAt, Affordable, LeftOf;
      var source := sources[cursor];
      var lines := Messages(logs, source);
      AscendsAt(logs, sources, cursor);
      var start := StartOf(lines, nextSequence);
      ghost var count, next := 0, nextSequence;
      var finished;
      finished, left, count := Read(source, lines[start..], budget);
      more := EntriesOf(source, lines[start..][..count]);
      if finished {
        assert lines[start..][..count] == lines[start..];
        EntriesWhole(logs, sources, cursor, next);
        cursor := cursor + 1;
        nextSequence := 0;
      } else {
        assert lines[start..][..count] == lines[start..start + count];
        EntriesWithin(logs, sources, cursor, next, start + count);
      }
    }

    /** Reads the sources while `budget` lasts. The new hits are appended in
        reading order. */
    method ReadSources(logs: Logs, budget: nat) returns (ghost more: seq<Entry>)
      requires query.Valid() && cursor <= |sources| && AllAscend(logs, sources)
      modifies this`hits, this`nextSequence, this`cursor
      ensures cursor <= |sources| &&
              (old(cursor) < cursor || (cursor == old(cursor) && old(nextSequence) <= nextSequence))
      ensures hits == old(hits) + Matches(f, query.folded, more) && Before(logs) == old(Before(logs)) + more
      ensures Remaining(logs) <= old(Remaining(logs))
      ensures budget > 0 && !old(IsDone()) ==> Remaining(logs) < old(Remaining(logs))
      ensures Affordable(more, budget) && (!IsDone() ==> budget <= CostOf(more))
    {
      hide AllAscend, EntriesAt, LeftAt, Affordable, CostOf, Matches;
      var left := budget;
      more := [];
      NothingRead(budget);
      NoMatches(f, query.folded);
      while cursor < |sources| && left > 0
        invariant cursor <= |sources| &&
                  (old(cursor) < cursor || (cursor == old(cursor) && old(nextSequence) <= nextSequence))
        invariant hits == old(hits) + Matches(f, query.folded, more) && Before(logs) == old(Before(logs)) + more
        invariant Affordable(more, budget) && left == LeftOf(budget, more)
        invariant Remaining(logs) <= old(Remaining(logs))
        invariant (left == budget && cursor == old(cursor)) || Remaining(logs) < old(Remaining(logs))
        decreases |sources| - cursor, left
      {
        ghost var entries;
        left, entries := ReadSource(logs, left);
        AffordableSum(more, entries, budget);
        MatchesSum(f, query.folded, more, entries);
        more := more + entries;
      }
    }

    /** Reads more lines, `more`, until `budget` is spent: exactly those of
        `logs` between where the scan stood and where it stands then, however
        the logs changed since the last step. Returns whether the scan is
        done. */
    method Step(logs: Logs, budget: nat) returns (done: bool, ghost more: seq<Entry>)
      requires Valid() && Owned(logs, sources, owner)
      modifies this
      ensures Valid() && done == IsDone()
      ensures read == old(read) + more && Before(logs) == old(Before(logs)) + more
      ensures forall e :: e in more <==> IsLine(logs, sources, e) && !old(HasPassed(e)) && HasPassed(e)
      ensures forall e :: old(HasPassed(e)) ==> HasPassed(e)
      ensures Remaining(logs) <= old(Remaining(logs))
      ensures budget > 0 && !old(IsDone()) ==> Remaining(logs) < old(Remaining(logs))
      ensures Affordable(more, budget) && |more| <= budget && (!done ==> budget <= CostOf(more))
    {
      hide AllAscend, EntriesAt, LeftAt, Affordable, CostOf, Newest, SortBy, BySequence, Sorted, Matches, ReadSoFar,
           InOrder, Passed,
           IsLine, Distinct;
      var before := |hits|;
      more := ReadSources(logs, budget);
      AffordableCount(more, budget);
      MoreIsBetween(logs, sources, more, old(cursor), old(nextSequence), cursor, nextSequence);
      ReadOn(logs, sources, owner, read, more, old(cursor), old(nextSequence), cursor, nextSequence);
      PassedStays(sources, old(cursor), old(nextSequence), cursor, nextSequence);
      Arranged(f, query.folded, sources, owner, read, more, cursor, nextSequence, old(hits), dropped);
      if |sources| > 1 && |hits| != before {
        hits := SortBy(hits, BySequence());
      }
      CutKeeps(old(hits), dropped, Matches(f, query.folded, read), Matches(f, query.folded, more), hits);
      if |hits| > MAX_HITS {
        var cut := |hits| - MAX_HITS;
        dropped := dropped + hits[..cut];
        hits := hits[cut..];
        truncated := true;
      }
      read := read + more;
      done := IsDone();
    }

    /** Over logs that stay as they are, enough steps read every line once,
        whatever the budgets are. */
    method Run(logs: Logs, budgets: nat -> nat) returns (steps: nat)
      requires Valid() && Owned(logs, sources, owner) && read == Before(logs) && forall n :: budgets(n) > 0
      modifies this
      ensures Valid() && IsDone() && steps <= old(Remaining(logs))
      ensures read == EntriesBefore(logs, sources, |sources|)
    {
      hide AllAscend, EntriesAt, LeftAt, Affordable, CostOf, Newest, Matches, ReadSoFar, IsLine, Passed, Distinct;
      steps := 0;
      var done := IsDone();
      while !done
        invariant Valid() && done == IsDone() && read == Before(logs)
        invariant steps + Remaining(logs) <= old(Remaining(logs))
        decreases Remaining(logs)
      {
        ghost var more;
        done, more := Step(logs, budgets(steps));
        steps := steps + 1;
      }
      EntriesWhenDone(logs, sources, nextSequence);
    }

    /** Where the scan stands. */
    function Stands(): Place
      reads this`cursor, this`nextSequence
    {
      Place(cursor, nextSequence)
    }

    /** Over logs that change between the slices; `slices` are what each of
        them read and `places` where the scan stood before and after it. */
    method RunOver(logsAt: nat -> Logs, budgets: nat -> nat, steps: nat)
      returns (done: bool, ghost places: seq<Place>, ghost slices: seq<seq<Entry>>)
      requires Valid() && forall n :: Owned(logsAt(n), sources, owner)
      modifies this
      ensures Valid() && done == IsDone() && |slices| == steps && read == old(read) + Joined(slices)
      ensures Transcript(logsAt, sources, places, slices) && places[0] == old(Stands()) && places[steps] == Stands()
      ensures forall e :: e in read && e !in old(read) ==> exists n :: 0 <= n < steps && IsLine(logsAt(n), sources, e)
      ensures forall e ::
                (forall n :: 0 <= n < steps ==> IsLine(logsAt(n), sources, e)) && !old(HasPassed(e)) && HasPassed(e) ==>
                  e in read
    {
      hide AllAscend, EntriesAt, LeftAt, Affordable, CostOf, Newest, Matches, ReadSoFar, IsLine, Passed, Distinct,
           Owned, Joined, Transcript;
      done, places, slices := IsDone(), [Stands()], [];
      NothingJoined(logsAt, sources, Stands());
      for k := 0 to steps
        invariant Valid() && done == IsDone() && |slices| == k && read == old(read) + Joined(slices)
        invariant Transcript(logsAt, sources, places, slices) && |places| == k + 1
        invariant places[0] == old(Stands()) && places[k] == Stands()
        invariant forall e :: e in read && e !in old(read) ==> exists n :: 0 <= n < k && IsLine(logsAt(n), sources, e)
        invariant forall e ::
                    (forall n :: 0 <= n < k ==> IsLine(logsAt(n), sources, e)) && !old(HasPassed(e)) && HasPassed(e) ==>
                      e in read
      {
        ghost var more;
        ghost var before := Stands();
        done, more := Step(logsAt(k), budgets(k));
        assert (places + [Stands()])[k] == before && (places + [Stands()])[k + 1] == Stands();
        forall e ensures IsBehind(sources, e, before) ==> IsBehind(sources, e, Stands()) {
          assert HasPassed(e) <==> IsBehind(sources, e, Stands());
        }
        TranscriptNext(logsAt, sources, places, slices, more, Stands());
        places, slices := places + [Stands()], slices + [more];
      }
    }

    /** The logs change once: `first` is what was read of `early` before and
        `second` what is read of `late` after, to the end. A line that is `a`
        before and `b` after is read exactly once if and only if the scan, at
        the change, had passed both or neither. */
    method RunAcross(early: Logs, late: Logs, budgets: nat -> nat, steps: nat)
      returns (ghost change: Place, ghost first: seq<Entry>, ghost second: seq<Entry>)
      requires Valid() && Owned(early, sources, owner) && Owned(late, sources, owner) && forall n :: budgets(n) > 0
      modifies this
      ensures Valid() && IsDone() && read == old(read) + first + second
      ensures steps == 0 ==> change == old(Stands()) && first == []
      ensures forall a ::
                a in first <==> IsLine(early, sources, a) && !old(HasPassed(a)) && IsBehind(sources, a, change)
      ensures forall b :: b in second <==> IsLine(late, sources, b) && !IsBehind(sources, b, change)
      ensures forall a, b :: IsLine(early, sources, a) && IsLine(late, sources, b) && !old(HasPassed(a)) ==>
                ((a in first <==> b !in second) <==> (IsBehind(sources, a, change) <==> IsBehind(sources, b, change)))
    {
      hide AllAscend, EntriesAt, LeftAt, Affordable, CostOf, Newest, Matches, ReadSoFar, IsLine, Passed, Distinct,
           Position;
      first, second := [], [];
      for k := 0 to steps
        invariant Valid() && read == old(read) + first && (k == 0 ==> Stands() == old(Stands()) && first == [])
        invariant forall e :: old(HasPassed(e)) ==> HasPassed(e)
        invariant forall a :: a in first <==> IsLine(early, sources, a) && !old(HasPassed(a)) && HasPassed(a)
      {
        ghost var more;
        var done;
        done, more := Step(early, budgets(k));
        first := first + more;
      }
      change := Stands();
      var done, k := IsDone(), 0;
      while !done
        invariant Valid() && done == IsDone() && read == old(read) + first + second
        invariant forall e :: IsBehind(sources, e, change) ==> HasPassed(e)
        invariant forall b ::
                    b in second <==> IsLine(late, sources, b) && !IsBehind(sources, b, change) && HasPassed(b)
        decreases Remaining(late)
      {
        ghost var more;
        done, more := Step(late, budgets(k));
        second, k := second + more, k + 1;
      }
      AllPassed(late, sources, cursor, nextSequence);
    }
  }

  lemma AllPassed(logs: Logs, sources: seq<Source>, c: nat, next: nat)
    requires c == |sources|
    ensures forall e :: IsLine(logs, sources, e) ==> Passed(sources, e, c, next)
  {
    hide Position;
  }

  // ---------- Runs over logs that change ----------

  datatype Place = Place(cursor: nat, next: nat)

  ghost predicate IsBehind(sources: seq<Source>, e: Entry, p: Place) {
    Passed(sources, e, p.cursor, p.next)
  }

  /** What the slices of a run read: each everything between two places of the
      logs of its moment. */
  ghost predicate Transcript(logsAt: nat -> Logs, sources: seq<Source>, places: seq<Place>,
                             slices: seq<seq<Entry>>) {
    |places| == |slices| + 1 &&
    forall n :: 0 <= n < |slices| ==> IsSlice(logsAt(n), sources, slices[n], places[n], places[n + 1])
  }

  ghost predicate IsSlice(logs: Logs, sources: seq<Source>, slice: seq<Entry>, from: Place, to: Place) {
    && (forall e ::
          e in slice <==> IsLine(logs, sources, e) && !IsBehind(sources, e, from) && IsBehind(sources, e, to))
    && forall e :: IsBehind(sources, e, from) ==> IsBehind(sources, e, to)
  }

  ghost function Joined(slices: seq<seq<Entry>>): seq<Entry> {
    if slices == [] then [] else Joined(slices[..|slices| - 1]) + slices[|slices| - 1]
  }

  lemma NothingJoined(logsAt: nat -> Logs, sources: seq<Source>, p: Place)
    ensures Joined([]) == [] && Transcript(logsAt, sources, [p], [])
  {
  }

  lemma TranscriptNext(logsAt: nat -> Logs, sources: seq<Source>, places: seq<Place>, slices: seq<seq<Entry>>,
                       more: seq<Entry>, p: Place)
    requires Transcript(logsAt, sources, places, slices)
    requires IsSlice(logsAt(|slices|), sources, more, places[|slices|], p)
    ensures Transcript(logsAt, sources, places + [p], slices + [more])
    ensures Joined(slices + [more]) == Joined(slices) + more
  {
    hide IsSlice;
    assert (slices + [more])[..|slices|] == slices;
  }

  /** In how many of the slices from `m` to `n` a message was read that was the
      line `at(k)` when slice `k` was read. */
  ghost function Reads(at: nat -> Entry, slices: seq<seq<Entry>>, m: nat, n: nat): nat
    requires m <= n <= |slices|
  {
    if m == n then 0 else Reads(at, slices, m, n - 1) + if at(n - 1) in slices[n - 1] then 1 else 0
  }

  /** How often it was put back before the scan, which had passed it. */
  ghost function PutBack(sources: seq<Source>, at: nat -> Entry, places: seq<Place>, m: nat, n: nat): nat
    requires m < n < |places|
  {
    if m + 1 == n then 0
    else
      PutBack(sources, at, places, m, n - 1) +
      if IsBehind(sources, at(n - 2), places[n - 1]) && !IsBehind(sources, at(n - 1), places[n - 1]) then 1 else 0
  }

  /** How often it was put behind the scan, which had not passed it. */
  ghost function PutBehind(sources: seq<Source>, at: nat -> Entry, places: seq<Place>, m: nat, n: nat): nat
    requires m < n < |places|
  {
    if m + 1 == n then 0
    else
      PutBehind(sources, at, places, m, n - 1) +
      if !IsBehind(sources, at(n - 2), places[n - 1]) && IsBehind(sources, at(n - 1), places[n - 1]) then 1 else 0
  }

  /** Over any changes of the logs, a message that is there from slice `m` up
      to slice `n` was read once for every time it was put back, and once more
      if it was ahead at first and is behind at last, less once for every time
      it was put behind. */
  lemma {:induction false} ReadsBalance(logsAt: nat -> Logs, sources: seq<Source>, places: seq<Place>,
                                        slices: seq<seq<Entry>>, at: nat -> Entry, m: nat, n: nat)
    requires Transcript(logsAt, sources, places, slices) && m < n <= |slices|
    requires forall k :: m <= k < n ==> IsLine(logsAt(k), sources, at(k))
    ensures Reads(at, slices, m, n) + PutBehind(sources, at, places, m, n) +
            (if IsBehind(sources, at(m), places[m]) then 1 else 0) ==
            PutBack(sources, at, places, m, n) + if IsBehind(sources, at(n - 1), places[n]) then 1 else 0
  {
    hide IsBehind, IsLine;
    assert IsSlice(logsAt(n - 1), sources, slices[n - 1], places[n - 1], places[n]);
    if m + 1 < n {
      ReadsBalance(logsAt, sources, places, slices, at, m, n - 1);
    } else {
      assert Reads(at, slices, m, m) == 0;
    }
  }

  /** In a whole run, a message that is always there is read exactly once if
      and only if it was put back as often as it was put behind. */
  lemma ReadOnce(logsAt: nat -> Logs, sources: seq<Source>, places: seq<Place>, slices: seq<seq<Entry>>,
                 at: nat -> Entry)
    requires Transcript(logsAt, sources, places, slices) && slices != []
    requires places[0] == Place(0, 0) && places[|slices|].cursor == |sources|
    requires forall k :: 0 <= k < |slices| ==> IsLine(logsAt(k), sources, at(k))
    ensures Reads(at, slices, 0, |slices|) ==
            1 + PutBack(sources, at, places, 0, |slices|) - PutBehind(sources, at, places, 0, |slices|)
    ensures Reads(at, slices, 0, |slices|) == 1 <==>
              PutBack(sources, at, places, 0, |slices|) == PutBehind(sources, at, places, 0, |slices|)
  {
    hide Position, Reads, PutBack, PutBehind, Transcript;
    ReadsBalance(logsAt, sources, places, slices, at, 0, |slices|);
    assert IsLine(logsAt(0), sources, at(0)) && IsLine(logsAt(|slices| - 1), sources, at(|slices| - 1));
  }

  /** A line that arrives before slice `m` and keeps its sequence is read once,
      if it arrives ahead of the scan and is passed later, else never. */
  lemma {:induction false} ArrivalIsRead(logsAt: nat -> Logs, sources: seq<Source>, places: seq<Place>,
                                         slices: seq<seq<Entry>>, e: Entry, m: nat, n: nat)
    requires Transcript(logsAt, sources, places, slices) && m < n <= |slices|
    requires forall k :: m <= k < n ==> IsLine(logsAt(k), sources, e)
    ensures Reads((k: nat) => e, slices, m, n) ==
              if !IsBehind(sources, e, places[m]) && IsBehind(sources, e, places[n]) then 1 else 0
  {
    hide IsBehind, IsLine;
    assert IsSlice(logsAt(n - 1), sources, slices[n - 1], places[n - 1], places[n]);
    if m + 1 < n {
      ArrivalIsRead(logsAt, sources, places, slices, e, m, n - 1);
      BehindStays(logsAt, sources, places, slices, e, m, n - 1);
    } else {
      assert Reads((k: nat) => e, slices, m, m) == 0;
    }
  }

  lemma {:induction false} BehindStays(logsAt: nat -> Logs, sources: seq<Source>, places: seq<Place>,
                                       slices: seq<seq<Entry>>, e: Entry, m: nat, n: nat)
    requires Transcript(logsAt, sources, places, slices) && m <= n <= |slices|
    ensures IsBehind(sources, e, places[m]) ==> IsBehind(sources, e, places[n])
  {
    hide IsBehind, IsLine;
    if m < n {
      BehindStays(logsAt, sources, places, slices, e, m, n - 1);
      assert IsSlice(logsAt(n - 1), sources, slices[n - 1], places[n - 1], places[n]);
    }
  }

  /** Where a scan of one source stands, by lines. */
  ghost function LinesPassed(lines: seq<Line>, c: nat, next: nat): (n: nat)
    requires Ascending(lines)
    ensures n <= |lines|
  {
    if c == 0 then StartOf(lines, next) else |lines|
  }

  lemma OnlySource(logs: Logs, source: Source, c: nat, next: nat)
    requires c <= 1 && AllAscend(logs, [source]) && Ascending(Messages(logs, source))
    ensures
      var lines := Messages(logs, source);
      && EntriesAt(logs, [source], c, next) == EntriesOf(source, lines[..LinesPassed(lines, c, next)])
      && LeftAt(logs, [source], c, next) == if c == 0 then 1 + |lines| - LinesPassed(lines, c, next) else 0
  {
    hide StartOf;
    var lines := Messages(logs, source);
    assert [source][0] == source;
    assert EntriesBefore(logs, [source], 0) == [] && Left(logs, [source], 1) == 0;
    assert EntriesBefore(logs, [source], 1) == EntriesOf(source, lines) && lines[..|lines|] == lines;
  }

  /** Reading one line of the only source. */
  lemma OneLineRead(logs: Logs, source: Source, next: nat, more: seq<Entry>, c: nat, last: nat)
    requires c <= 1 && AllAscend(logs, [source]) && Ascending(Messages(logs, source)) && |more| <= 1
    requires EntriesAt(logs, [source], c, last) == EntriesAt(logs, [source], 0, next) + more
    requires LeftAt(logs, [source], c, last) < LeftAt(logs, [source], 0, next)
    requires StartOf(Messages(logs, source), next) < |Messages(logs, source)|
    ensures
      var lines := Messages(logs, source);
      var at := StartOf(lines, next);
      && more == [Entry(source, lines[at])]
      && (at + 1 < |lines| ==> c == 0 && lines[at].sequence < last <= lines[at + 1].sequence)
  {
    hide StartOf, EntriesAt, LeftAt, Messages;
    var lines := Messages(logs, source);
    OnlySource(logs, source, 0, next);
    OnlySource(logs, source, c, last);
    var at, end := StartOf(lines, next), LinesPassed(lines, c, last);
    assert |more| == end - at;
    assert more[0] == EntriesOf(source, lines[..end])[at];
  }

  lemma NoMatches(f: Lowering, term: string)
    ensures Matches(f, term, []) == []
  {
  }

  lemma PassedStays(sources: seq<Source>, c: nat, next: nat, d: nat, last: nat)
    requires c < d || (c == d && next <= last)
    ensures forall e :: Passed(sources, e, c, next) ==> Passed(sources, e, d, last)
  {
    hide Position;
  }
}
