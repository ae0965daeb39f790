/** Searches over a log that the timeline changes meanwhile. */
module SearchRuns {
  import opened Text
  import opened Duplicates
  import opened Lists
  import opened ServerTime
  import opened Timeline
  import LogScan
  import Search

  /** How the bytes of a text read. */
  type Decoding = seq<Byte> -> string

  const SOURCE := LogScan.Conversation(1)

  ghost predicate Numberable(log: Log) {
    forall i :: 0 <= i < |log| ==> log[i].sequence >= 0
  }

  /** What a search sees of a log. */
  function Shown(d: Decoding, log: Log): (lines: seq<LogScan.Line>)
    requires Numberable(log)
    ensures |lines| == |log| &&
            forall i :: 0 <= i < |lines| ==> lines[i] == LogScan.Line(log[i].sequence, d(log[i].text))
  {
    seq(|log|, i requires 0 <= i < |log| => LogScan.Line(log[i].sequence, d(log[i].text)))
  }

  /** A log of the conversation alone. */
  function Alone(d: Decoding, log: Log): (logs: LogScan.Logs)
    requires Numberable(log)
    ensures LogScan.Messages(logs, SOURCE) == Shown(d, log)
  {
    map[SOURCE := Shown(d, log)]
  }

  lemma AloneIsOwned(d: Decoding, log: Log)
    requires Numberable(log) && Ascending(log)
    ensures LogScan.Owned(Alone(d, log), [SOURCE], (q: nat) => SOURCE)
    ensures LogScan.Ascending(LogScan.Messages(Alone(d, log), SOURCE))
  {
    assert forall i :: 0 <= i < |[SOURCE]| ==> [SOURCE][i] == SOURCE;
  }

  /** Two lines streamed in the reverse of their server times change places
      when their page settles. */
  lemma SettlingSwaps(a: Message, b: Message, rest: Log, q: nat)
    requires a.timestamp.Some? && b.timestamp.Some? && b.timestamp.value < a.timestamp.value
    requires Ascending(rest) && forall i :: 0 <= i < |rest| ==> rest[i].sequence >= q + HISTORY_RESERVE
    ensures
      var log := [a.(sequence := q), b.(sequence := q + 1)] + rest;
      && Ascending(log)
      && Settled(log, q, q + HISTORY_RESERVE) == [b.(sequence := q), a.(sequence := q + 1)] + rest
  {
    hide InTimeOrder, Numbered, LinesBefore;
    var page := [a.(sequence := q), b.(sequence := q + 1)];
    var log, end := page + rest, q + HISTORY_RESERVE;
    assert Ascending(log);
    BoundIs(log, q, 0);
    BoundIs(log, end, 2);
    assert log[0..2] == page && log[2..] == rest;
    SwappedPage(a, b, q);
  }

  lemma SettledSwap(a: Message, b: Message, rest: Log, q: nat)
    requires a.timestamp.Some? && b.timestamp.Some? && b.timestamp.value < a.timestamp.value
    requires Ascending(rest) && forall i :: 0 <= i < |rest| ==> rest[i].sequence >= q + HISTORY_RESERVE
    ensures
      var log := [a.(sequence := q), b.(sequence := q + 1)] + rest;
      && Ascending(log) && Numberable(log)
      && Settled(log, q, q + HISTORY_RESERVE) == [b.(sequence := q), a.(sequence := q + 1)] + rest
      && Ascending(Settled(log, q, q + HISTORY_RESERVE)) && Numberable(Settled(log, q, q + HISTORY_RESERVE))
  {
    hide Ascending, Settled;
    SettlingSwaps(a, b, rest, q);
    SettledAscends([a.(sequence := q), b.(sequence := q + 1)] + rest, q, q + HISTORY_RESERVE);
  }

  lemma SwappedPage(a: Message, b: Message, q: nat)
    requires a.timestamp.Some? && b.timestamp.Some? && b.timestamp.value < a.timestamp.value
    ensures Numbered(InTimeOrder([a.(sequence := q), b.(sequence := q + 1)]), q) ==
            [b.(sequence := q), a.(sequence := q + 1)]
  {
    hide TimeOrder;
    SwappedOrder([a.(sequence := q), b.(sequence := q + 1)]);
  }

  lemma SwappedOrder(page: Log)
    requires |page| == 2 && page[0].timestamp.Some? && page[1].timestamp.Some?
    requires page[1].timestamp.value < page[0].timestamp.value
    ensures TimeOrder(Stamps(page)) == [1, 0]
  {
    hide TimeOrder;
    var times := Times(Stamps(page));
    OrderIsUnique(times, TimeOrder(Stamps(page)), [1, 0]);
  }

  /** What is behind a scan of the conversation alone. */
  lemma BehindAlone(c: nat, next: nat)
    ensures forall line: LogScan.Line ::
              LogScan.Passed([SOURCE], LogScan.Entry(SOURCE, line), c, next) <==>
                c > 0 || line.sequence < next
  {
    assert Position([SOURCE], SOURCE) == 0;
  }

  lemma LineAt(d: Decoding, log: Log, e: LogScan.Entry)
    requires Numberable(log) && Ascending(log)
    ensures LogScan.IsLine(Alone(d, log), [SOURCE], e) <==>
              e.source == SOURCE && exists i :: 0 <= i < |log| && Shown(d, log)[i] == e.line
    ensures forall k ::
              0 <= k < |log| && LogScan.IsLine(Alone(d, log), [SOURCE], e) && e.line.sequence == log[k].sequence ==>
                e.line == Shown(d, log)[k]
  {
  }

  /** A page settles between two slices: the line `a` is read under both of its
      sequences and `b`, already passed, under none. */
  method PageSettledMeanwhile(f: Lowering, d: Decoding, query: Search.Query, a: Message, b: Message, rest: Log, q: nat)
    returns (scan: LogScan.Scan)
    requires query.Valid()
    requires a.timestamp.Some? && b.timestamp.Some? && b.timestamp.value < a.timestamp.value
    requires Ascending(rest) && forall i :: 0 <= i < |rest| ==> rest[i].sequence >= q + HISTORY_RESERVE
    ensures fresh(scan) && scan.Valid() && scan.IsDone()
    ensures LogScan.Entry(SOURCE, LogScan.Line(q, d(a.text))) in scan.read
    ensures LogScan.Entry(SOURCE, LogScan.Line(q + 1, d(a.text))) in scan.read
    ensures forall e :: e in scan.read && e.line.sequence in {q, q + 1} ==> e.line.text == d(a.text)
  {
    hide LogScan.EntriesAt, LogScan.LeftAt, LogScan.StartOf, LogScan.ReadSoFar, LogScan.Newest, LogScan.Matches,
         LogScan.Affordable, LogScan.CostOf, LogScan.Owned, LogScan.IsLine, LogScan.Passed, LogScan.AllAscend,
         LogScan.Ascending, LogScan.Messages, Ascending, Settled, Alone, Position;
    SettledSwap(a, b, rest, q);
    var log := [a.(sequence := q), b.(sequence := q + 1)] + rest;
    var settled := Settled(log, q, q + HISTORY_RESERVE);
    AloneIsOwned(d, log);
    AloneIsOwned(d, settled);
    scan := new LogScan.Scan(f, query, [SOURCE], (q: nat) => SOURCE);
    ghost var more, change, none, others;
    var done;
    done, more := scan.Step(Alone(d, log), 1);
    FirstLineRead(d, log, more, scan.cursor, scan.nextSequence);
    change, none, others := scan.RunAcross(Alone(d, settled), Alone(d, settled), n => 1, 0);
    RestRead(d, settled, q + 1, others);
    assert settled[1] == a.(sequence := q + 1);
  }

  /** The first slice of budget one reads the first line. */
  lemma FirstLineRead(d: Decoding, log: Log, more: seq<LogScan.Entry>, c: nat, next: nat)
    requires |log| > 1 && Ascending(log) && Numberable(log) && c <= 1 && |more| <= 1
    requires LogScan.AllAscend(Alone(d, log), [SOURCE])
    requires LogScan.EntriesAt(Alone(d, log), [SOURCE], c, next) ==
             LogScan.EntriesAt(Alone(d, log), [SOURCE], 0, 0) + more
    requires LogScan.LeftAt(Alone(d, log), [SOURCE], c, next) < LogScan.LeftAt(Alone(d, log), [SOURCE], 0, 0)
    ensures more == [LogScan.Entry(SOURCE, Shown(d, log)[0])]
    ensures c == 0 && log[0].sequence < next <= log[1].sequence
  {
    hide LogScan.EntriesAt, LogScan.LeftAt, LogScan.StartOf, LogScan.AllAscend, Alone;
    AloneIsOwned(d, log);
    LogScan.StartIs(Shown(d, log), 0, 0);
    LogScan.OneLineRead(Alone(d, log), SOURCE, 0, more, c, next);
  }

  /** Then everything from sequence `from` on is read. */
  lemma RestRead(d: Decoding, log: Log, from: nat, read: seq<LogScan.Entry>)
    requires Numberable(log) && Ascending(log)
    requires forall e :: e in read <==> LogScan.IsLine(Alone(d, log), [SOURCE], e) &&
                                        !LogScan.IsBehind([SOURCE], e, LogScan.Place(0, from))
    ensures forall k :: 0 <= k < |log| && log[k].sequence >= from ==> LogScan.Entry(SOURCE, Shown(d, log)[k]) in read
    ensures forall e :: e in read ==> e.source == SOURCE && e.line.sequence >= from
    ensures forall e, k ::
              e in read && 0 <= k < |log| && e.line.sequence == log[k].sequence ==> e.line == Shown(d, log)[k]
  {
    hide LogScan.IsLine, LogScan.Passed, Alone, Ascending;
    BehindAlone(0, from);
    forall e ensures e in read ==> e.source == SOURCE && e.line.sequence >= from {
      LineAt(d, log, e);
    }
    forall k | 0 <= k < |log| && log[k].sequence >= from
      ensures LogScan.Entry(SOURCE, Shown(d, log)[k]) in read
    {
      LineAt(d, log, LogScan.Entry(SOURCE, Shown(d, log)[k]));
    }
    forall e, k | e in read && 0 <= k < |log| && e.line.sequence == log[k].sequence
      ensures e.line == Shown(d, log)[k]
    {
      LineAt(d, log, e);
    }
  }

  /** An older page streams in below where the scan stands: its line, which is
      in the log and keeps its sequence, is never read. */
  method StreamedMeanwhile(f: Lowering, d: Decoding, query: Search.Query, log: Log, m: Message, budgets: nat -> nat)
    returns (scan: LogScan.Scan)
    requires query.Valid() && log != [] && Ascending(log) && 0 <= m.sequence < log[0].sequence
    requires forall n :: budgets(n) > 0
    ensures fresh(scan) && scan.Valid() && scan.IsDone() && m in Placed(log, m)
    ensures LogScan.Entry(SOURCE, LogScan.Line(m.sequence, d(m.text))) !in scan.read
  {
    hide LogScan.EntriesAt, LogScan.LeftAt, LogScan.StartOf, LogScan.ReadSoFar, LogScan.Newest, LogScan.Matches,
         LogScan.Affordable, LogScan.CostOf, LogScan.Owned, LogScan.IsLine, LogScan.Passed, LogScan.AllAscend,
         LogScan.Ascending, LogScan.Messages, Ascending, Placed, Alone, Position;
    PlacedFirst(log, m);
    AloneIsOwned(d, log);
    AloneIsOwned(d, Placed(log, m));
    scan := new LogScan.Scan(f, query, [SOURCE], (q: nat) => SOURCE);
    ghost var more, change, none, others;
    var done;
    done, more := scan.Step(Alone(d, log), budgets(0));
    SomethingPassed(d, log, scan.cursor, scan.nextSequence);
    BehindAlone(scan.cursor, scan.nextSequence);
    LineAt(d, log, LogScan.Entry(SOURCE, LogScan.Line(m.sequence, d(m.text))));
    change, none, others := scan.RunAcross(Alone(d, Placed(log, m)), Alone(d, Placed(log, m)), budgets, 0);
  }

  lemma PlacedFirst(log: Log, m: Message)
    requires Ascending(log) && log != [] && 0 <= m.sequence < log[0].sequence
    ensures Numberable(log) && Placed(log, m) == [m] + log && Ascending([m] + log) && Numberable([m] + log)
  {
    hide LinesBefore;
    BoundIs(log, m.sequence, 0);
  }

  /** A slice of any budget passes the first line at least. */
  lemma SomethingPassed(d: Decoding, log: Log, c: nat, next: nat)
    requires log != [] && Ascending(log) && Numberable(log) && c <= 1
    requires LogScan.AllAscend(Alone(d, log), [SOURCE])
    requires LogScan.LeftAt(Alone(d, log), [SOURCE], c, next) < LogScan.LeftAt(Alone(d, log), [SOURCE], 0, 0)
    ensures c > 0 || log[0].sequence < next
  {
    hide LogScan.EntriesAt, LogScan.LeftAt, LogScan.StartOf, LogScan.AllAscend, Alone;
    AloneIsOwned(d, log);
    LogScan.OnlySource(Alone(d, log), SOURCE, c, next);
    LogScan.OnlySource(Alone(d, log), SOURCE, 0, 0);
    LogScan.StartIs(Shown(d, log), 0, 0);
  }
}
