/** The sequences of every log: live lines count up, older pages stream into
    blocks set aside below everything held and are sorted when they end. */
module Timeline {
  import opened Text
  import opened Slices
  import opened Duplicates
  import opened Lists
  import opened ServerTime
  import LogScan

  const SEQUENCE_ORIGIN: int := 0x4000_0000_0000_0000
  const HISTORY_RESERVE: int := 256
  const MAX_RETAINED := 2_000
  const DROPPED := 1_000
  const OLDER_PAGE_LIMIT := 50

  type Source = LogScan.Source
  type Log = seq<Message>
  type Logs = map<Source, Log>

  /** The sequences an older page fills: `start..start + HISTORY_RESERVE`. */
  datatype Block = Block(start: int, next: int, request: nat, room: nat, nearTop: seq<Key>)
  type Blocks = map<nat, Block>
  type Owners = map<int, Source>

  datatype Paging = Paging(inFlight: Option<nat>, finished: bool)
  datatype Request = Request(request: nat, nativeId: Option<string>, timestamp: Option<int>, limit: nat)

  // ---------- One log ----------

  ghost predicate Ascending(log: Log) {
    forall i, j :: 0 <= i < j < |log| ==> log[i].sequence < log[j].sequence
  }

  ghost predicate Between(log: Log, floor: int, next: int) {
    forall i :: 0 <= i < |log| ==> floor <= log[i].sequence <= next
  }

  /** Ascending, between the bounds, and within the retention limit. */
  ghost predicate Kept(log: Log, floor: int, next: int) {
    Ascending(log) && Between(log, floor, next) && |log| <= MAX_RETAINED
  }

  ghost predicate Clear(log: Log, low: int, high: int) {
    forall i :: 0 <= i < |log| ==> !(low <= log[i].sequence < high)
  }

  ghost predicate Strangers(a: Log, b: Log) {
    forall i, j :: 0 <= i < |a| && 0 <= j < |b| ==> a[i].sequence != b[j].sequence
  }

  /** Every sequence of `after` is one of `before` or lies in `low..high`. */
  ghost predicate Drawn(after: Log, before: Log, low: int, high: int) {
    forall i :: 0 <= i < |after| ==> low <= after[i].sequence < high || HasSequence(before, after[i].sequence)
  }

  ghost predicate HasSequence(log: Log, sequence: int) {
    exists j :: 0 <= j < |log| && log[j].sequence == sequence
  }

  /** The number of lines before `sequence`. */
  function LinesBefore(log: Log, sequence: int): (at: nat)
    requires Ascending(log)
    ensures at <= |log|
    ensures forall i :: 0 <= i < at ==> log[i].sequence < sequence
    ensures forall i :: at <= i < |log| ==> log[i].sequence >= sequence
  {
    PartitionPoint(log, (m: Message) => m.sequence < sequence)
  }

  // ---------- Retention ----------

  /** What is retained of a log: the oldest 1,000 lines go until it fits. */
  function Trimmed(log: Log): Log {
    if |log| > MAX_RETAINED then Trimmed(log[DROPPED..]) else log
  }

  /** What is retained is the newest lines: all of them when they fit, and
      never so few that more than the surplus and 1,000 went. */
  lemma {:induction false} TrimmedIsTail(log: Log)
    ensures |Trimmed(log)| <= |log| && Trimmed(log) == log[|log| - |Trimmed(log)|..] && |Trimmed(log)| <= MAX_RETAINED
    ensures |log| <= MAX_RETAINED ==> Trimmed(log) == log
    ensures |log| > MAX_RETAINED ==> |Trimmed(log)| > MAX_RETAINED - DROPPED
  {
    if |log| > MAX_RETAINED {
      TrimmedIsTail(log[DROPPED..]);
    }
  }

  method TrimRetained(log: Log) returns (r: Log, trimmed: bool)
    ensures r == Trimmed(log) && (trimmed <==> |log| > MAX_RETAINED)
  {
    trimmed := |log| > MAX_RETAINED;
    r := log;
    while |r| > MAX_RETAINED
      invariant |r| <= |log| && Trimmed(r) == Trimmed(log)
      invariant trimmed <==> |log| > MAX_RETAINED
    {
      r := r[DROPPED..];
    }
  }

  /** What is retained keeps its order and brings nothing new. */
  lemma TrimmedKeeps(log: Log, before: Log, floor: int, next: int, low: int, high: int)
    requires Ascending(log) && Between(log, floor, next) && Drawn(log, before, low, high)
    ensures Kept(Trimmed(log), floor, next) && Drawn(Trimmed(log), before, low, high)
  {
    hide Trimmed, Ascending, Between, Drawn;
    TrimmedIsTail(log);
    var d := |log| - |Trimmed(log)|;
    SuffixAscends(log, d);
    SuffixDraws(log, before, floor, next, low, high, d);
  }

  lemma SuffixAscends(log: Log, d: nat)
    requires Ascending(log) && d <= |log|
    ensures Ascending(log[d..])
  {
  }

  lemma SuffixDraws(log: Log, before: Log, floor: int, next: int, low: int, high: int, d: nat)
    requires Between(log, floor, next) && Drawn(log, before, low, high) && d <= |log|
    ensures Between(log[d..], floor, next) && Drawn(log[d..], before, low, high)
  {
    hide HasSequence;
  }

  // ---------- One line at its place ----------

  /** `log` with `m` where its sequence belongs. */
  function Placed(log: Log, m: Message): (r: Log)
    requires Ascending(log)
    ensures |r| == |log| + 1
  {
    var at := LinesBefore(log, m.sequence);
    log[..at] + [m] + log[at..]
  }

  lemma PlacedLines(log: Log, m: Message)
    requires Ascending(log)
    ensures forall i :: 0 <= i < LinesBefore(log, m.sequence) ==> Placed(log, m)[i] == log[i]
    ensures Placed(log, m)[LinesBefore(log, m.sequence)] == m
    ensures forall i :: LinesBefore(log, m.sequence) < i <= |log| ==> Placed(log, m)[i] == log[i - 1]
  {
    hide LinesBefore, Ascending;
  }

  lemma SequenceAt(log: Log, j: nat)
    requires j < |log|
    ensures HasSequence(log, log[j].sequence)
  {
  }

  lemma PlacedAscends(log: Log, m: Message)
    requires Ascending(log) && !HasSequence(log, m.sequence)
    ensures Ascending(Placed(log, m))
  {
    hide LinesBefore, Placed;
    PlacedLines(log, m);
    var at := LinesBefore(log, m.sequence);
    if at < |log| {
      SequenceAt(log, at);
    }
    assert forall i :: at <= i < |log| ==> log[i].sequence > m.sequence;
  }

  lemma PlacedDraws(log: Log, m: Message, floor: int, next: int)
    requires Ascending(log) && Between(log, floor, next) && floor <= m.sequence <= next
    ensures Between(Placed(log, m), floor, next) && Drawn(Placed(log, m), log, m.sequence, m.sequence + 1)
  {
    hide HasSequence, LinesBefore, Placed, Ascending;
    PlacedLines(log, m);
    forall i | 0 <= i < |log| ensures HasSequence(log, log[i].sequence) {
      SequenceAt(log, i);
    }
  }

  /** A log with a new line at its place still ascends, within the limit and
      with no other new sequence. */
  lemma PlacedKeeps(log: Log, m: Message, floor: int, next: int)
    requires Ascending(log) && Between(log, floor, next) && floor <= m.sequence <= next && !HasSequence(log, m.sequence)
    ensures Kept(Trimmed(Placed(log, m)), floor, next)
    ensures Drawn(Trimmed(Placed(log, m)), log, m.sequence, m.sequence + 1)
  {
    hide HasSequence, Ascending, Between, Drawn, Placed, Trimmed;
    PlacedAscends(log, m);
    PlacedDraws(log, m, floor, next);
    TrimmedKeeps(Placed(log, m), log, floor, next, m.sequence, m.sequence + 1);
  }

  /** A live line belongs at the end. */
  lemma AppendIsPlaced(log: Log, m: Message, floor: int, next: int)
    requires Kept(log, floor, next) && m.sequence > next
    ensures Placed(log, m) == log + [m] && !HasSequence(log, m.sequence) && Between(log, floor, m.sequence)
  {
  }

  lemma AppendKeeps(log: Log, m: Message, floor: int, next: int)
    requires Kept(log, floor, next) && floor <= m.sequence == next + 1
    ensures Kept(Trimmed(log + [m]), floor, next + 1) && Drawn(Trimmed(log + [m]), log, next + 1, next + 2)
  {
    hide Ascending, Between, Trimmed, Placed, HasSequence, Drawn;
    AppendIsPlaced(log, m, floor, next);
    PlacedKeeps(log, m, floor, next + 1);
  }

  // ---------- Settling a page ----------

  function Stamps(lines: Log): (r: seq<Stamp>)
    ensures |r| == |lines| && forall i :: 0 <= i < |r| ==> r[i] == lines[i].timestamp
  {
    seq(|lines|, i requires 0 <= i < |lines| => lines[i].timestamp)
  }

  /** `lines` with the sequences `first`, `first + 1`, and so on. */
  function Numbered(lines: Log, first: int): (r: Log)
    ensures |r| == |lines| && forall i :: 0 <= i < |r| ==> r[i] == lines[i].(sequence := first + i)
  {
    seq(|lines|, i requires 0 <= i < |lines| => lines[i].(sequence := first + i))
  }

  function InTimeOrder(lines: Log): (r: Log)
    ensures |r| == |lines|
  {
    Pick(lines, TimeOrder(Stamps(lines)))
  }

  /** The lines of `log` with sequences in `first..end`. */
  function Page(log: Log, first: int, end: int): (page: Log)
    requires Ascending(log) && first <= end
    ensures LinesBefore(log, first) + |page| == LinesBefore(log, end)
  {
    BoundsOrdered(log, first, end);
    log[LinesBefore(log, first)..LinesBefore(log, end)]
  }

  /** `log` with the lines of `first..end` in server-time order, the sequences
      handed out again. */
  function Settled(log: Log, first: int, end: int): (r: Log)
    requires Ascending(log) && first <= end
    ensures |r| == |log|
  {
    log[..LinesBefore(log, first)] + Numbered(InTimeOrder(Page(log, first, end)), first) + log[LinesBefore(log, end)..]
  }

  lemma BoundsOrdered(log: Log, first: int, end: int)
    requires Ascending(log) && first <= end
    ensures LinesBefore(log, first) <= LinesBefore(log, end)
  {
    var low := LinesBefore(log, first);
    assert low > 0 ==> log[low - 1].sequence < end;
  }

  /** A page holds at most as many lines as it has sequences, so handing the
      sequences out again never runs past its end and cuts nothing off. */
  lemma {:induction false} PageFits(page: Log, first: int, end: int)
    requires Ascending(page) && first <= end
    requires forall i :: 0 <= i < |page| ==> first <= page[i].sequence < end
    ensures |page| <= end - first
  {
    if page != [] {
      PageFits(page[..|page| - 1], first, page[|page| - 1].sequence);
    }
  }

  lemma SettledLines(log: Log, first: int, end: int)
    requires Ascending(log) && first <= end
    ensures
      var low, high, r := LinesBefore(log, first), LinesBefore(log, end), Settled(log, first, end);
      forall k :: 0 <= k < |r| ==> if low <= k < high then r[k].sequence == first + (k - low) else r[k] == log[k]
  {
    hide LinesBefore, Ascending, TimeOrder, InTimeOrder;
  }

  lemma SettledAscends(log: Log, first: int, end: int)
    requires Ascending(log) && first <= end
    ensures Ascending(Settled(log, first, end)) && LinesBefore(log, end) - LinesBefore(log, first) <= end - first
  {
    hide LinesBefore, Settled;
    SettledLines(log, first, end);
    PageFits(Page(log, first, end), first, end);
  }

  /** Settling keeps the log ascending, leaves everything outside the page
      where and as it was, and only uses the page's own sequences. */
  lemma SettledKeeps(log: Log, first: int, end: int, floor: int, next: int)
    requires Kept(log, floor, next) && floor <= first <= end <= next
    ensures Kept(Settled(log, first, end), floor, next) && Drawn(Settled(log, first, end), log, first, end)
    ensures Settled(log, first, end)[..LinesBefore(log, first)] == log[..LinesBefore(log, first)]
    ensures Settled(log, first, end)[LinesBefore(log, end)..] == log[LinesBefore(log, end)..]
  {
    hide HasSequence, LinesBefore, Settled, Ascending;
    SettledAscends(log, first, end);
    SettledLines(log, first, end);
    forall i | 0 <= i < |log| ensures HasSequence(log, log[i].sequence) {
      SequenceAt(log, i);
    }
  }

  /** The lines without their sequences. */
  function Unnumbered(lines: Log): (r: Log)
    ensures |r| == |lines| && forall i :: 0 <= i < |r| ==> r[i] == lines[i].(sequence := 0)
  {
    seq(|lines|, i requires 0 <= i < |lines| => lines[i].(sequence := 0))
  }

  /** `settled` is `page` stably sorted by carried time: line `order[k]` of
      the page goes to place `k`, earlier carried times first, equal ones in
      arrival order, and a line without a time directly after the line it
      arrived after. */
  ghost predicate SortedPage(page: Log, settled: Log, order: seq<nat>) {
    && |settled| == |page| && Permutes(order, |page|)
    && (forall k :: 0 <= k < |order| ==> order[k] < |page|)
    && (forall k :: 0 <= k < |page| ==> settled[k].(sequence := 0) == page[order[k]].(sequence := 0))
    && Stable(Times(Stamps(page)), order)
    && (forall k ::
          0 <= k < |page| && order[k] > 0 && page[order[k]].timestamp.None? ==> k > 0 && order[k - 1] == order[k] - 1)
  }

  /** Settling is a stable sort of exactly the page. */
  lemma SettlingSorts(log: Log, first: int, end: int)
    requires Ascending(log) && first <= end
    ensures SortedPage(Page(log, first, end), Settled(log, first, end)[LinesBefore(log, first)..LinesBefore(log, end)],
                       TimeOrder(Stamps(Page(log, first, end))))
  {
    hide TimeOrder, LinesBefore, SortedPage, Ascending, InTimeOrder, Page;
    var page := Page(log, first, end);
    assert Settled(log, first, end)[LinesBefore(log, first)..LinesBefore(log, end)] ==
             Numbered(InTimeOrder(page), first);
    SettlingSortsPage(page, first);
  }

  /** Settling loses and repeats no line. */
  lemma SettlingConserves(log: Log, first: int, end: int)
    requires Ascending(log) && first <= end
    ensures multiset(Unnumbered(Settled(log, first, end))) == multiset(Unnumbered(log))
  {
    hide TimeOrder, LinesBefore, SortedPage, Ascending, InTimeOrder;
    var page := Page(log, first, end);
    var head, tail := log[..LinesBefore(log, first)], log[LinesBefore(log, end)..];
    var settled := Numbered(InTimeOrder(page), first);
    SettlingSortsPage(page, first);
    assert log == head + page + tail;
    UnnumberedParts(head, page, tail);
    UnnumberedParts(head, settled, tail);
  }

  lemma UnnumberedParts(a: Log, b: Log, c: Log)
    ensures Unnumbered(a + b + c) == Unnumbered(a) + Unnumbered(b) + Unnumbered(c)
  {
  }

  lemma SettlingSortsPage(page: Log, first: int)
    ensures SortedPage(page, Numbered(InTimeOrder(page), first), TimeOrder(Stamps(page)))
    ensures multiset(Unnumbered(Numbered(InTimeOrder(page), first))) == multiset(Unnumbered(page))
  {
    hide StableOrder, Stable;
    var stamps := Stamps(page);
    var order := TimeOrder(stamps);
    assert Unnumbered(Numbered(InTimeOrder(page), first)) == Pick(Unnumbered(page), order);
    PickKeeps(Unnumbered(page), Times(stamps), |page|);
    assert Unnumbered(page)[..|page|] == Unnumbered(page);
    forall k | 0 <= k < |page| && order[k] > 0 && page[order[k]].timestamp.None?
      ensures k > 0 && order[k - 1] == order[k] - 1
    {
      UntimedStays(stamps, k);
    }
  }

  // ---------- All the logs ----------

  /** Every log is kept between the bounds, no two logs share a sequence, the
      blocks lie apart between the floor and the origin, and only a block's
      own conversation has lines in it, all before the block's next one. */
  ghost predicate Sound(logs: Logs, blocks: Blocks, floor: int, next: int) {
    && floor <= SEQUENCE_ORIGIN <= next
    && (forall s :: s in logs ==> Kept(logs[s], floor, next))
    && (forall s, t :: s in logs && t in logs && s != t ==> Strangers(logs[s], logs[t]))
    && (forall id :: id in blocks ==> BlockFits(blocks[id], floor))
    && (forall i, j :: i in blocks && j in blocks && i != j ==> Apart(blocks[i], blocks[j]))
    && (forall id, s :: id in blocks && s in logs ==> Reserved(id, blocks[id], s, logs[s]))
  }

  ghost predicate BlockFits(b: Block, floor: int) {
    floor <= b.start <= b.next <= b.start + b.room && b.room <= HISTORY_RESERVE &&
    b.start + HISTORY_RESERVE <= SEQUENCE_ORIGIN
  }

  ghost predicate Apart(a: Block, b: Block) {
    a.start + HISTORY_RESERVE <= b.start || b.start + HISTORY_RESERVE <= a.start
  }

  ghost predicate Reserved(id: nat, b: Block, s: Source, log: Log) {
    Clear(log, if s == LogScan.Conversation(id) then b.next else b.start, b.start + HISTORY_RESERVE)
  }

  /** Replacing one log by one drawn from it and from a range that no other
      log, no other block uses. */
  lemma LogReplaced(logs: Logs, blocks: Blocks, floor: int, next: int, s: Source, log: Log, low: int, high: int,
                    next': int)
    requires Sound(logs, blocks, floor, next) && s in logs && next <= next'
    requires Kept(log, floor, next') && Drawn(log, logs[s], low, high)
    requires forall t :: t in logs && t != s ==> Clear(logs[t], low, high)
    requires forall id :: id in blocks ==> if s == LogScan.Conversation(id) then Reserved(id, blocks[id], s, log)
                                           else high <= blocks[id].start || blocks[id].start + HISTORY_RESERVE <= low
    ensures Sound(logs[s := log], blocks, floor, next')
  {
    hide Kept, Strangers, BlockFits, Apart, Reserved, Drawn, Clear;
    forall t | t in logs ensures Kept(logs[s := log][t], floor, next') {
      KeptLonger(logs[t], floor, next, next');
    }
    forall t | t in logs && t != s ensures Strangers(logs[t], log) && Strangers(log, logs[t]) {
      DrawnStrangers(log, logs[s], logs[t], low, high);
    }
    forall id, t | id in blocks && t in logs ensures Reserved(id, blocks[id], t, logs[s := log][t]) {
      if t == s && s != LogScan.Conversation(id) {
        DrawnReserved(log, logs[s], low, high, id, blocks[id], s);
      }
    }
  }

  lemma KeptLonger(log: Log, floor: int, next: int, next': int)
    requires Kept(log, floor, next) && next <= next'
    ensures Kept(log, floor, next')
  {
  }

  lemma DrawnStrangers(after: Log, before: Log, other: Log, low: int, high: int)
    requires Drawn(after, before, low, high) && Strangers(before, other) && Clear(other, low, high)
    ensures Strangers(other, after) && Strangers(after, other)
  {
  }

  lemma DrawnReserved(after: Log, before: Log, low: int, high: int, id: nat, b: Block, s: Source)
    requires Drawn(after, before, low, high) && Reserved(id, b, s, before) && s != LogScan.Conversation(id)
    requires high <= b.start || b.start + HISTORY_RESERVE <= low
    ensures Reserved(id, b, s, after)
  {
  }

  /** A live line goes at the end of its log. */
  lemma LineAppended(logs: Logs, blocks: Blocks, floor: int, next: int, s: Source, m: Message)
    requires Sound(logs, blocks, floor, next) && s in logs && m.sequence == next + 1
    ensures Sound(logs[s := Trimmed(logs[s] + [m])], blocks, floor, next + 1)
  {
    hide Sound, Trimmed, Kept, Drawn, Reserved, Clear;
    SoundAt(logs, blocks, floor, next, s);
    AppendKeeps(logs[s], m, floor, next);
    var log := Trimmed(logs[s] + [m]);
    BeyondAll(logs, blocks, floor, next, s, log);
    LogReplaced(logs, blocks, floor, next, s, log, next + 1, next + 2, next + 1);
  }

  lemma SoundAt(logs: Logs, blocks: Blocks, floor: int, next: int, s: Source)
    requires Sound(logs, blocks, floor, next) && s in logs
    ensures Kept(logs[s], floor, next) && floor <= SEQUENCE_ORIGIN <= next
    ensures forall id :: id in blocks ==> Reserved(id, blocks[id], s, logs[s])
  {
  }

  lemma BeyondAll(logs: Logs, blocks: Blocks, floor: int, next: int, s: Source, log: Log)
    requires Sound(logs, blocks, floor, next) && s in logs && Drawn(log, logs[s], next + 1, next + 2)
    ensures forall t :: t in logs ==> Clear(logs[t], next + 1, next + 2)
    ensures forall id :: id in blocks ==> blocks[id].start + HISTORY_RESERVE <= next + 1
    ensures forall id :: id in blocks && s == LogScan.Conversation(id) ==> Reserved(id, blocks[id], s, log)
  {
    hide Strangers, Apart, HasSequence;
    forall id | id in blocks && s == LogScan.Conversation(id) ensures Reserved(id, blocks[id], s, log) {
      assert BlockFits(blocks[id], floor) && Reserved(id, blocks[id], s, logs[s]);
      DrawnClear(log, logs[s], next + 1, next + 2, blocks[id].next, blocks[id].start + HISTORY_RESERVE);
    }
  }

  lemma DrawnClear(after: Log, before: Log, low: int, high: int, from: int, to: int)
    requires Drawn(after, before, low, high) && Clear(before, from, to) && (high <= from || to <= low)
    ensures Clear(after, from, to)
  {
  }

  /** A page's next line goes at its place in its block. */
  lemma LineStreamed(logs: Logs, blocks: Blocks, floor: int, next: int, id: nat, m: Message, b: Block)
    requires Sound(logs, blocks, floor, next) && LogScan.Conversation(id) in logs && id in blocks
    requires m.sequence == blocks[id].next && blocks[id].next - blocks[id].start < blocks[id].room
    requires b.start == blocks[id].start && b.room == blocks[id].room && b.next == blocks[id].next + 1
    ensures
      var s := LogScan.Conversation(id);
      Ascending(logs[s]) && Sound(logs[s := Trimmed(Placed(logs[s], m))], blocks[id := b], floor, next)
  {
    hide Sound, Trimmed, Placed, Ascending, Between, Drawn, HasSequence, Reserved, Clear;
    var s := LogScan.Conversation(id);
    SoundAt(logs, blocks, floor, next, s);
    BlockAdvanced(logs, blocks, floor, next, id, b);
    PlacedKeeps(logs[s], m, floor, next);
    var log := Trimmed(Placed(logs[s], m));
    InBlock(logs, blocks[id := b], floor, next, id, log, m.sequence, m.sequence + 1);
    LogReplaced(logs, blocks[id := b], floor, next, s, log, m.sequence, m.sequence + 1, next);
  }

  /** Everything holds again once the block took `m` as its next line. */
  lemma Streamed(logs: Logs, blocks: Blocks, pages: map<nat, CheckedPage>, floor: int, next: int, id: nat, m: Message)
    requires Sound(logs, blocks, floor, next) && AllChecked(blocks, pages) && LogScan.Conversation(id) in logs &&
             id in blocks && id in pages
    requires blocks[id].next - blocks[id].start < blocks[id].room && !Overlaps(pages[id], m)
    ensures blocks[id].next < SEQUENCE_ORIGIN && Ascending(logs[LogScan.Conversation(id)])
    ensures
      var line := m.(sequence := blocks[id].next);
      var b := blocks[id].(next := blocks[id].next + 1, nearTop := Remember(blocks[id].nearTop, m));
      && Sound(logs[LogScan.Conversation(id) := Trimmed(Placed(logs[LogScan.Conversation(id)], line))], blocks[id := b],
               floor, next)
      && AllChecked(blocks[id := b], pages[id := pages[id].(added := pages[id].added + [line])])
  {
    hide Sound, AllChecked, Ascending, Remember, Overlaps, Placed, Trimmed, Checked, KeyOf, Recognized, LinesBefore,
         Window, Keys;
    var line := m.(sequence := blocks[id].next);
    var b := blocks[id].(next := blocks[id].next + 1, nearTop := Remember(blocks[id].nearTop, m));
    BlockEndsBelow(logs, blocks, floor, next, id);
    KeyIgnoresSequence(m, blocks[id].next);
    LineStreamed(logs, blocks, floor, next, id, line, b);
    CheckedAt(blocks, pages, id);
    PageGrows(blocks[id], pages[id], m, line);
    PageChecked(blocks, pages, id, b, pages[id].(added := pages[id].added + [line]));
  }

  lemma BlockAdvanced(logs: Logs, blocks: Blocks, floor: int, next: int, id: nat, b: Block)
    requires Sound(logs, blocks, floor, next) && LogScan.Conversation(id) in logs && id in blocks
    requires blocks[id].next - blocks[id].start < blocks[id].room
    requires b.start == blocks[id].start && b.room == blocks[id].room && b.next == blocks[id].next + 1
    ensures Sound(logs, blocks[id := b], floor, next)
    ensures floor <= b.start <= blocks[id].next <= next && !HasSequence(logs[LogScan.Conversation(id)], blocks[id].next)
  {
    hide Strangers, Kept;
    assert BlockFits(blocks[id], floor) &&
           Reserved(id, blocks[id], LogScan.Conversation(id), logs[LogScan.Conversation(id)]);
  }

  /** Sequences of a block lie in no other log and no other block. */
  lemma InBlock(logs: Logs, blocks: Blocks, floor: int, next: int, id: nat, log: Log, low: int, high: int)
    requires Sound(logs, blocks, floor, next) && LogScan.Conversation(id) in logs && id in blocks
    requires Drawn(log, logs[LogScan.Conversation(id)], low, high)
    requires blocks[id].start <= low <= high <= blocks[id].next
    ensures forall t :: t in logs && t != LogScan.Conversation(id) ==> Clear(logs[t], low, high)
    ensures forall j :: j in blocks ==> if j == id then Reserved(id, blocks[id], LogScan.Conversation(id), log)
                                        else high <= blocks[j].start || blocks[j].start + HISTORY_RESERVE <= low
  {
    hide Strangers, Kept, HasSequence, Drawn;
    var b := blocks[id];
    assert BlockFits(b, floor);
    forall t | t in logs && t != LogScan.Conversation(id) ensures Clear(logs[t], low, high) {
      assert Reserved(id, b, t, logs[t]);
    }
    assert Reserved(id, b, LogScan.Conversation(id), logs[LogScan.Conversation(id)]);
    DrawnClear(log, logs[LogScan.Conversation(id)], low, high, b.next, b.start + HISTORY_RESERVE);
    forall j | j in blocks && j != id ensures high <= blocks[j].start || blocks[j].start + HISTORY_RESERVE <= low {
      assert Apart(blocks[j], b);
    }
  }

  /** A new block goes below everything given out so far. */
  lemma BlockOpened(logs: Logs, blocks: Blocks, floor: int, next: int, id: nat, b: Block)
    requires Sound(logs, blocks, floor, next) && b.room <= HISTORY_RESERVE
    requires b.start == b.next == floor - HISTORY_RESERVE
    ensures Sound(logs, blocks[id := b], b.start, next)
  {
    hide Strangers, Ascending;
    forall s | s in logs ensures Kept(logs[s], b.start, next) && Reserved(id, b, s, logs[s]) {
      assert Kept(logs[s], floor, next);
    }
  }

  /** The page's lines are settled once its block is given up. */
  lemma BlockSettled(logs: Logs, blocks: Blocks, floor: int, next: int, id: nat)
    requires Sound(logs, blocks, floor, next) && LogScan.Conversation(id) in logs && id in blocks
    ensures
      var s := LogScan.Conversation(id);
      Ascending(logs[s]) &&
      Sound(logs[s := Settled(logs[s], blocks[id].start, blocks[id].start + HISTORY_RESERVE)], blocks - {id}, floor,
            next)
  {
    hide Sound, Settled, Ascending, Between, Drawn, Clear, Reserved, LinesBefore, Page;
    var s, b := LogScan.Conversation(id), blocks[id];
    SoundAt(logs, blocks, floor, next, s);
    BlockWithin(logs, blocks, floor, next, id);
    var log := Settled(logs[s], b.start, b.start + HISTORY_RESERVE);
    SettledKeeps(logs[s], b.start, b.start + HISTORY_RESERVE, floor, next);
    OthersClear(logs, blocks, floor, next, id);
    LogReplaced(logs, blocks - {id}, floor, next, s, log, b.start, b.start + HISTORY_RESERVE, next);
  }

  lemma BlockWithin(logs: Logs, blocks: Blocks, floor: int, next: int, id: nat)
    requires Sound(logs, blocks, floor, next) && id in blocks
    ensures floor <= blocks[id].start && blocks[id].start + HISTORY_RESERVE <= next && BlockFits(blocks[id], floor)
    ensures Sound(logs, blocks - {id}, floor, next)
  {
    hide Strangers, Kept, Reserved, Apart;
  }

  lemma BlockEndsBelow(logs: Logs, blocks: Blocks, floor: int, next: int, id: nat)
    requires Sound(logs, blocks, floor, next) && id in blocks && blocks[id].next - blocks[id].start < blocks[id].room
    ensures blocks[id].next < SEQUENCE_ORIGIN
  {
    assert BlockFits(blocks[id], floor);
  }

  lemma OthersClear(logs: Logs, blocks: Blocks, floor: int, next: int, id: nat)
    requires Sound(logs, blocks, floor, next) && id in blocks
    ensures forall t ::
              t in logs && t != LogScan.Conversation(id) ==>
                Clear(logs[t], blocks[id].start, blocks[id].start + HISTORY_RESERVE)
    ensures forall j :: j in blocks && j != id ==>
              blocks[id].start + HISTORY_RESERVE <= blocks[j].start ||
              blocks[j].start + HISTORY_RESERVE <= blocks[id].start
  {
    hide Strangers, Kept, BlockFits, Clear;
    forall t | t in logs && t != LogScan.Conversation(id)
      ensures Clear(logs[t], blocks[id].start, blocks[id].start + HISTORY_RESERVE)
    {
      assert Reserved(id, blocks[id], t, logs[t]);
    }
    forall j | j in blocks && j != id
      ensures blocks[id].start + HISTORY_RESERVE <= blocks[j].start ||
              blocks[j].start + HISTORY_RESERVE <= blocks[id].start
    {
      assert Apart(blocks[id], blocks[j]);
    }
  }

  lemma BlockDropped(logs: Logs, blocks: Blocks, floor: int, next: int, ids: set<nat>)
    requires Sound(logs, blocks, floor, next)
    ensures Sound(logs, blocks - ids, floor, next)
  {
    hide Strangers, Kept, Reserved, Apart, BlockFits;
  }

  lemma LogsDropped(logs: Logs, blocks: Blocks, floor: int, next: int, sources: set<Source>)
    requires Sound(logs, blocks, floor, next)
    ensures Sound(logs - sources, blocks, floor, next)
  {
    hide Strangers, Kept, Reserved, Apart, BlockFits;
  }

  lemma LogAdded(logs: Logs, blocks: Blocks, floor: int, next: int, s: Source)
    requires Sound(logs, blocks, floor, next) && s !in logs
    ensures Sound(logs[s := []], blocks, floor, next)
  {
    hide Apart, BlockFits;
    forall id | id in blocks ensures Reserved(id, blocks[id], s, []) {
    }
    assert Kept([], floor, next);
    forall t | t in logs ensures Strangers(logs[t], []) && Strangers([], logs[t]) {
    }
  }

  /** What a search over the logs asks of them always holds: every log ascends
      and a sequence names one line. */
  lemma SearchMayScan(logs: Logs, blocks: Blocks, floor: int, next: int, sources: seq<Source>, shown: LogScan.Logs)
    requires Sound(logs, blocks, floor, next)
    requires forall i, j :: 0 <= i < j < |sources| ==> sources[i] != sources[j]
    requires forall s :: s in shown ==> s in logs && |shown[s]| == |logs[s]|
    requires forall s, i :: s in shown && 0 <= i < |shown[s]| ==> shown[s][i].sequence == logs[s][i].sequence
    ensures LogScan.UniqueLines(shown, sources)
    ensures LogScan.Owned(shown, sources, (q: nat) => LogScan.OwnerOf(shown, sources, q))
  {
    hide Apart, BlockFits, Reserved;
    forall s | s in shown ensures LogScan.Ascending(shown[s]) {
      assert Kept(logs[s], floor, next);
    }
    forall i, j, k, m | 0 <= i < j < |sources| && 0 <= k < |LogScan.Messages(shown, sources[i])| &&
      0 <= m < |LogScan.Messages(shown, sources[j])|
      ensures LogScan.Messages(shown, sources[i])[k].sequence != LogScan.Messages(shown, sources[j])[m].sequence
    {
      assert Strangers(logs[sources[i]], logs[sources[j]]);
    }
    LogScan.UniqueIsOwned(shown, sources);
  }

  // ---------- Lines through the duplicate filter ----------

  /** A log, what its filter remembers, and the newest sequence. */
  datatype Feed = Feed(log: Log, window: seq<Key>, next: int)

  /** One line appended unless the filter recognizes it. */
  function Fed(f: Feed, m: Message): Feed {
    if Recognized(f.window, m) then f
    else Feed(Trimmed(f.log + [m.(sequence := f.next + 1)]), Remember(f.window, m), f.next + 1)
  }

  function FedAll(f: Feed, lines: Log): Feed {
    if lines == [] then f else Fed(FedAll(f, lines[..|lines| - 1]), lines[|lines| - 1])
  }

  /** The lines the filter lets through. */
  ghost function Accepted(f: Feed, lines: Log): (r: Log) {
    if lines == [] then []
    else
      var before, last := lines[..|lines| - 1], lines[|lines| - 1];
      Accepted(f, before) + if Recognized(FedAll(f, before).window, last) then [] else [last]
  }

  /** A finished reply ends the log with the accepted lines in their order
      under ordinary sequences, and only the oldest lines may have gone. */
  lemma {:induction false} FeedAppends(f: Feed, lines: Log)
    requires |f.log| <= MAX_RETAINED
    ensures FedAll(f, lines).next == f.next + |Accepted(f, lines)|
    ensures |FedAll(f, lines).log| <= MAX_RETAINED
    ensures IsTail(FedAll(f, lines).log, f.log + Numbered(Accepted(f, lines), f.next + 1))
  {
    hide Recognized, Remember, Numbered, Trimmed, IsTail, Fed;
    if lines == [] {
      assert f.log + Numbered([], f.next + 1) == f.log;
      WholeIsTail(f.log);
    } else {
      var before, last := lines[..|lines| - 1], lines[|lines| - 1];
      FeedAppends(f, before);
      FeedStep(f, FedAll(f, before), Accepted(f, before), last);
    }
  }

  lemma FeedStep(f: Feed, g: Feed, accepted: Log, last: Message)
    requires g.next == f.next + |accepted| && |g.log| <= MAX_RETAINED &&
             IsTail(g.log, f.log + Numbered(accepted, f.next + 1))
    ensures
      var all := accepted + if Recognized(g.window, last) then [] else [last];
      && Fed(g, last).next == f.next + |all| && |Fed(g, last).log| <= MAX_RETAINED
      && IsTail(Fed(g, last).log, f.log + Numbered(all, f.next + 1))
  {
    hide Recognized, Remember, Numbered, Trimmed, IsTail;
    if Recognized(g.window, last) {
      assert accepted + [] == accepted;
    } else {
      NumberedNext(f.log, accepted, last, f.next + 1);
      TailGrows(g.log, f.log + Numbered(accepted, f.next + 1), last.(sequence := g.next + 1));
    }
  }

  lemma WholeIsTail(a: Log)
    ensures IsTail(a, a)
  {
  }

  ghost predicate IsTail(a: Log, b: Log) {
    |a| <= |b| && a == b[|b| - |a|..]
  }

  lemma TailGrows(a: Log, b: Log, m: Message)
    requires IsTail(a, b)
    ensures IsTail(Trimmed(a + [m]), b + [m]) && |Trimmed(a + [m])| <= MAX_RETAINED
  {
    hide Trimmed;
    TrimmedIsTail(a + [m]);
    assert a + [m] == (b + [m])[|b| - |a|..];
  }

  lemma NumberedNext(log: Log, lines: Log, last: Message, first: int)
    ensures log + Numbered(lines + [last], first) == log + Numbered(lines, first) + [last.(sequence := first + |lines|)]
  {
  }

  // ---------- A page checked for overlap ----------

  /** The topmost lines a page was opened over and the lines it added. */
  datatype CheckedPage = CheckedPage(top: Log, added: Log)

  function Backwards(lines: Log): (r: Log)
    ensures |r| == |lines| && forall i :: 0 <= i < |r| ==> r[i] == lines[|lines| - 1 - i]
  {
    seq(|lines|, i requires 0 <= i < |lines| => lines[|lines| - 1 - i])
  }

  function Top(log: Log): (r: Log)
    ensures |r| <= HISTORY_RESERVE && r <= log
    ensures r == log || |r| == HISTORY_RESERVE
  {
    if |log| <= HISTORY_RESERVE then log else log[..HISTORY_RESERVE]
  }

  /** No added line shares a key with a topmost line or an earlier one of the
      page. */
  ghost predicate AllNew(page: CheckedPage) {
    forall i :: 0 <= i < |page.added| && KeyOf(page.added[i]).Some? ==>
      KeyOf(page.added[i]).value !in Keys(page.top) + Keys(page.added[..i])
  }

  /** The block's window has forgotten none of the lines it is to catch. */
  ghost predicate Checked(b: Block, page: CheckedPage) {
    && |page.top| <= HISTORY_RESERVE && |page.added| == b.next - b.start <= b.room <= HISTORY_RESERVE
    && b.nearTop == Window(Backwards(page.top) + page.added) && AllNew(page)
  }

  /** The page knows a line exactly when it shares a key with a topmost line
      or a line of the page. */
  ghost predicate Overlaps(page: CheckedPage, m: Message) {
    KeyOf(m).Some? && KeyOf(m).value in Keys(page.top) + Keys(page.added)
  }

  ghost predicate AllChecked(blocks: Blocks, pages: map<nat, CheckedPage>) {
    forall id :: id in blocks ==> id in pages && Checked(blocks[id], pages[id])
  }

  lemma CheckedAt(blocks: Blocks, pages: map<nat, CheckedPage>, id: nat)
    requires AllChecked(blocks, pages) && id in blocks
    ensures id in pages && Checked(blocks[id], pages[id])
  {
    hide Checked;
  }

  lemma PageChecked(blocks: Blocks, pages: map<nat, CheckedPage>, id: nat, b: Block, page: CheckedPage)
    requires AllChecked(blocks, pages) && Checked(b, page)
    ensures AllChecked(blocks[id := b], pages[id := page])
  {
    hide Checked;
  }

  lemma PagesDropped(blocks: Blocks, pages: map<nat, CheckedPage>, ids: set<nat>)
    requires AllChecked(blocks, pages)
    ensures AllChecked(blocks - ids, pages)
  {
    hide Checked;
  }

  lemma BackwardsKeys(lines: Log)
    ensures Keys(Backwards(lines)) == Keys(lines)
  {
    hide KeyOf;
    forall m | m in lines ensures m in Backwards(lines) {
      var i :| 0 <= i < |lines| && lines[i] == m;
      assert Backwards(lines)[|lines| - 1 - i] == m;
    }
  }

  lemma PageRecognizes(b: Block, page: CheckedPage, m: Message)
    requires Checked(b, page) && m.history
    ensures Recognized(b.nearTop, m) <==> Overlaps(page, m)
  {
    hide Window, Keys;
    OverlapIsExact(Backwards(page.top), page.added, m);
    BackwardsKeys(page.top);
  }

  lemma PageOpened(top: Log, b: Block)
    requires b.next == b.start && b.room <= HISTORY_RESERVE && |top| <= HISTORY_RESERVE &&
             b.nearTop == Window(Backwards(top))
    ensures Checked(b, CheckedPage(top, []))
  {
    hide Keys, KeyOf, Window, Remember;
    assert Backwards(top) + [] == Backwards(top);
  }

  lemma PageGrows(b: Block, page: CheckedPage, m: Message, line: Message)
    requires Checked(b, page) && b.next - b.start < b.room && !Overlaps(page, m) && KeyOf(line) == KeyOf(m)
    ensures Checked(b.(next := b.next + 1, nearTop := Remember(b.nearTop, m)), page.(added := page.added + [line]))
  {
    hide KeyOf, Keys, Remember, Window, Distinct, AllNew;
    RememberKeyOnly(b.nearTop, m, line);
    var run := Backwards(page.top) + page.added;
    assert Backwards(page.top) + (page.added + [line]) == run + [line];
    WindowNext(run, line);
    NewNext(page, line);
  }

  lemma RememberKeyOnly(order: seq<Key>, m: Message, line: Message)
    requires KeyOf(line) == KeyOf(m)
    ensures Remember(order, m) == Remember(order, line)
  {
    hide KeyOf, Distinct;
  }

  lemma WindowNext(run: Log, line: Message)
    ensures Window(run + [line]) == Remember(Window(run), line)
  {
    hide KeyOf, Remember, Distinct;
    assert (run + [line])[..|run|] == run;
  }

  lemma NewNext(page: CheckedPage, line: Message)
    requires AllNew(page) && !Overlaps(page, line)
    ensures AllNew(page.(added := page.added + [line]))
  {
    hide KeyOf, Keys;
    assert forall i :: 0 <= i <= |page.added| ==> (page.added + [line])[..i] == page.added[..i];
  }

  // ---------- What a block holds of its page ----------

  /** The lines of a block are the page's lines as they came, except for
      oldest ones that retention dropped. */
  ghost predicate Holds(log: Log, b: Block, page: CheckedPage) {
    Ascending(log) && IsTail(Page(log, b.start, b.start + HISTORY_RESERVE), page.added)
  }

  ghost predicate AllHeld(logs: Logs, blocks: Blocks, pages: map<nat, CheckedPage>) {
    forall id :: id in blocks && LogScan.Conversation(id) in logs ==>
      id in pages && Holds(logs[LogScan.Conversation(id)], blocks[id], pages[id])
  }

  lemma HeldAt(logs: Logs, blocks: Blocks, pages: map<nat, CheckedPage>, id: nat)
    requires AllHeld(logs, blocks, pages) && id in blocks && LogScan.Conversation(id) in logs
    ensures id in pages && Holds(logs[LogScan.Conversation(id)], blocks[id], pages[id])
  {
    hide Holds;
  }

  lemma BoundIs(log: Log, sequence: int, at: nat)
    requires Ascending(log) && at <= |log|
    requires forall i :: 0 <= i < at ==> log[i].sequence < sequence
    requires forall i :: at <= i < |log| ==> log[i].sequence >= sequence
    ensures LinesBefore(log, sequence) == at
  {
    hide LinesBefore, Ascending;
    var b := LinesBefore(log, sequence);
    assert b < |log| ==> log[b].sequence >= sequence;
    assert at < |log| ==> log[at].sequence >= sequence;
  }

  lemma SuffixBound(log: Log, d: nat, sequence: int)
    requires Ascending(log) && d <= |log|
    ensures Ascending(log[d..])
    ensures LinesBefore(log[d..], sequence) ==
              if LinesBefore(log, sequence) <= d then 0 else LinesBefore(log, sequence) - d
  {
    hide LinesBefore, Ascending;
    SuffixAscends(log, d);
    var at := LinesBefore(log, sequence);
    BoundIs(log[d..], sequence, if at <= d then 0 else at - d);
  }

  /** Dropping oldest lines leaves the newest of a page. */
  lemma PageOfSuffix(log: Log, d: nat, first: int, end: int)
    requires Ascending(log) && d <= |log| && first <= end
    ensures Ascending(log[d..]) && IsTail(Page(log[d..], first, end), Page(log, first, end))
  {
    hide LinesBefore, Ascending;
    SuffixBound(log, d, first);
    SuffixBound(log, d, end);
    BoundsOrdered(log, first, end);
    var low, high := LinesBefore(log, first), LinesBefore(log, end);
    var page := log[low..high];
    var kept := Page(log[d..], first, end);
    assert kept == page[|page| - |kept|..];
  }

  lemma TailOfTail(a: Log, b: Log, c: Log)
    requires IsTail(a, b) && IsTail(b, c)
    ensures IsTail(a, c)
  {
  }

  lemma TailWithLast(a: Log, b: Log, m: Message)
    requires IsTail(a, b)
    ensures IsTail(a + [m], b + [m])
  {
    assert a + [m] == (b + [m])[|b| - |a|..];
  }

  lemma HoldsTrimmed(log: Log, b: Block, page: CheckedPage)
    requires Holds(log, b, page)
    ensures Holds(Trimmed(log), b, page)
  {
    hide Ascending, IsTail, Page, Trimmed, LinesBefore;
    var end := b.start + HISTORY_RESERVE;
    TrimmedIsTail(log);
    var d := |log| - |Trimmed(log)|;
    assert Trimmed(log) == log[d..];
    PageOfSuffix(log, d, b.start, end);
    TailOfTail(Page(log[d..], b.start, end), Page(log, b.start, end), page.added);
  }

  /** A line above a block leaves what it holds. */
  lemma HoldsAppended(log: Log, b: Block, page: CheckedPage, m: Message, floor: int, next: int)
    requires Holds(log, b, page) && Kept(log, floor, next) && m.sequence == next + 1 &&
             b.start + HISTORY_RESERVE <= next
    ensures Holds(Trimmed(log + [m]), b, page)
  {
    hide LinesBefore, Trimmed, IsTail;
    var end := b.start + HISTORY_RESERVE;
    BoundIs(log + [m], b.start, LinesBefore(log, b.start));
    BoundIs(log + [m], end, LinesBefore(log, end));
    BoundsOrdered(log, b.start, end);
    assert Page(log + [m], b.start, end) == Page(log, b.start, end);
    HoldsTrimmed(log + [m], b, page);
  }

  /** The page's next line is the last one of its block. */
  lemma PageOfPlaced(log: Log, m: Message, first: int, end: int)
    requires Ascending(log) && first <= m.sequence < end && Clear(log, m.sequence, end)
    ensures Ascending(Placed(log, m)) && Page(Placed(log, m), first, end) == Page(log, first, end) + [m]
  {
    hide LinesBefore, Ascending, Placed;
    assert !HasSequence(log, m.sequence);
    PlacedAscends(log, m);
    PlacedLines(log, m);
    BoundsOrdered(log, first, m.sequence);
    BoundsOrdered(log, first, end);
    var low, at := LinesBefore(log, first), LinesBefore(log, m.sequence);
    BoundIs(log, end, at);
    BoundIs(Placed(log, m), first, low);
    BoundIs(Placed(log, m), end, at + 1);
    assert Placed(log, m)[low..at + 1] == log[low..at] + [m];
  }

  lemma HoldsStreamed(log: Log, b: Block, page: CheckedPage, m: Message, b': Block, page': CheckedPage)
    requires Holds(log, b, page) && m.sequence == b.next && b.start <= b.next < b.start + HISTORY_RESERVE
    requires Clear(log, b.next, b.start + HISTORY_RESERVE) && b'.start == b.start && page'.added == page.added + [m]
    ensures Holds(Trimmed(Placed(log, m)), b', page')
  {
    hide Ascending, Placed, Trimmed, Page, Clear, IsTail, LinesBefore;
    PageOfPlaced(log, m, b.start, b.start + HISTORY_RESERVE);
    TailWithLast(Page(log, b.start, b.start + HISTORY_RESERVE), page.added, m);
    HoldsTrimmed(Placed(log, m), b', page');
  }

  lemma HoldsNothing(log: Log, b: Block, page: CheckedPage)
    requires Ascending(log) && Clear(log, b.start, b.start + HISTORY_RESERVE)
    ensures Holds(log, b, page)
  {
    hide LinesBefore, Ascending;
    var low, high := LinesBefore(log, b.start), LinesBefore(log, b.start + HISTORY_RESERVE);
    BoundsOrdered(log, b.start, b.start + HISTORY_RESERVE);
    assert low < |log| ==> log[low].sequence >= b.start;
  }

  lemma HeldAppended(logs: Logs, blocks: Blocks, pages: map<nat, CheckedPage>, floor: int, next: int, s: Source,
                     m: Message)
    requires Sound(logs, blocks, floor, next) && AllHeld(logs, blocks, pages) && s in logs && m.sequence == next + 1
    ensures AllHeld(logs[s := Trimmed(logs[s] + [m])], blocks, pages)
  {
    hide Holds, Trimmed, Kept, Strangers, Apart, Reserved;
    forall id | id in blocks && LogScan.Conversation(id) == s
      ensures id in pages && Holds(Trimmed(logs[s] + [m]), blocks[id], pages[id])
    {
      assert Kept(logs[s], floor, next) && BlockFits(blocks[id], floor);
      HoldsAppended(logs[s], blocks[id], pages[id], m, floor, next);
    }
  }

  lemma HeldStreamed(logs: Logs, blocks: Blocks, pages: map<nat, CheckedPage>, floor: int, next: int, id: nat,
                     m: Message, b: Block)
    requires Sound(logs, blocks, floor, next) && AllHeld(logs, blocks, pages) && LogScan.Conversation(id) in logs &&
             id in blocks && id in pages
    requires Ascending(logs[LogScan.Conversation(id)]) && blocks[id].next - blocks[id].start < blocks[id].room
    requires m.sequence == blocks[id].next && b.start == blocks[id].start
    ensures AllHeld(logs[LogScan.Conversation(id) := Trimmed(Placed(logs[LogScan.Conversation(id)], m))],
                    blocks[id := b],
                    pages[id := pages[id].(added := pages[id].added + [m])])
  {
    hide Holds, Trimmed, Placed, Kept, Strangers, Apart, Ascending;
    var s := LogScan.Conversation(id);
    assert BlockFits(blocks[id], floor) && Reserved(id, blocks[id], s, logs[s]);
    HoldsStreamed(logs[s], blocks[id], pages[id], m, b, pages[id].(added := pages[id].added + [m]));
  }

  lemma HeldOpened(logs: Logs, blocks: Blocks, pages: map<nat, CheckedPage>, floor: int, next: int, id: nat, b: Block,
                   page: CheckedPage)
    requires Sound(logs, blocks, floor, next) && AllHeld(logs, blocks, pages) && b.start == floor - HISTORY_RESERVE
    ensures AllHeld(logs, blocks[id := b], pages[id := page])
  {
    hide Holds, Strangers, Apart, BlockFits, Reserved;
    var s := LogScan.Conversation(id);
    if s in logs {
      assert Kept(logs[s], floor, next);
      HoldsNothing(logs[s], b, page);
    }
  }

  lemma HeldDropped(logs: Logs, blocks: Blocks, pages: map<nat, CheckedPage>, sources: set<Source>, ids: set<nat>)
    requires AllHeld(logs, blocks, pages)
    ensures AllHeld(logs - sources, blocks - ids, pages)
  {
    hide Holds;
  }

  lemma HeldWithNew(logs: Logs, blocks: Blocks, pages: map<nat, CheckedPage>, s: Source)
    requires AllHeld(logs, blocks, pages) && AllChecked(blocks, pages) && s !in logs
    ensures AllHeld(logs[s := []], blocks, pages)
  {
    hide Holds, Checked;
    forall id | id in blocks && LogScan.Conversation(id) == s ensures Holds([], blocks[id], pages[id]) {
      HoldsNothing([], blocks[id], pages[id]);
    }
  }

  /** A log of which no block has lines is replaced. */
  lemma HeldElsewhere(logs: Logs, blocks: Blocks, pages: map<nat, CheckedPage>, id: nat, log: Log)
    requires AllHeld(logs, blocks, pages) && id !in blocks
    ensures AllHeld(logs[LogScan.Conversation(id) := log], blocks, pages)
  {
    hide Holds;
  }

  // ---------- Everything together ----------

  /** The logs are sound, every open page was checked line by line, and its
      block holds what it streamed. */
  ghost predicate Good(logs: Logs, blocks: Blocks, pages: map<nat, CheckedPage>, floor: int, next: int) {
    Sound(logs, blocks, floor, next) && AllChecked(blocks, pages) && AllHeld(logs, blocks, pages)
  }

  lemma GoodAt(logs: Logs, blocks: Blocks, pages: map<nat, CheckedPage>, floor: int, next: int, id: nat)
    requires Good(logs, blocks, pages, floor, next) && id in blocks
    ensures id in pages && Checked(blocks[id], pages[id])
  {
    hide Sound, Checked, AllHeld;
  }

  lemma GoodWithNew(logs: Logs, blocks: Blocks, pages: map<nat, CheckedPage>, floor: int, next: int, s: Source)
    requires Good(logs, blocks, pages, floor, next) && s !in logs
    ensures Good(logs[s := []], blocks, pages, floor, next)
  {
    hide Sound, AllChecked, AllHeld;
    LogAdded(logs, blocks, floor, next, s);
    HeldWithNew(logs, blocks, pages, s);
  }

  lemma GoodDropped(logs: Logs, blocks: Blocks, pages: map<nat, CheckedPage>, floor: int, next: int,
                    sources: set<Source>, ids: set<nat>)
    requires Good(logs, blocks, pages, floor, next)
    ensures Good(logs - sources, blocks - ids, pages, floor, next)
  {
    hide Sound, AllChecked, AllHeld;
    BlockDropped(logs, blocks, floor, next, ids);
    PagesDropped(blocks, pages, ids);
    LogsDropped(logs, blocks - ids, floor, next, sources);
    HeldDropped(logs, blocks, pages, sources, ids);
  }

  /** When the conversation's block is the request's, the lines it holds, the
      newest it streamed, are settled under the page's sequences; otherwise
      the logs stay. */
  ghost predicate PageSettled(before: Logs, blocks: Blocks, pages: map<nat, CheckedPage>, id: nat, request: nat,
                              after: Logs, added: nat) {
    var s := LogScan.Conversation(id);
    if id in blocks && blocks[id].request == request && s in before then
      var (first, end) := (blocks[id].start, blocks[id].start + HISTORY_RESERVE);
      && Ascending(before[s]) && added == |Page(before[s], first, end)|
      && id in pages && IsTail(Page(before[s], first, end), pages[id].added)
      && after == before[s := Settled(before[s], first, end)]
    else after == before && added == 0
  }

  lemma BlockGivenUp(logs: Logs, blocks: Blocks, pages: map<nat, CheckedPage>, floor: int, next: int, id: nat)
    requires Good(logs, blocks, pages, floor, next)
    ensures Good(logs, blocks - {id}, pages, floor, next)
  {
    hide Good;
    GoodDropped(logs, blocks, pages, floor, next, {}, {id});
    assert logs - {} == logs;
  }

  lemma GoodAppended(logs: Logs, blocks: Blocks, pages: map<nat, CheckedPage>, floor: int, next: int, s: Source,
                     m: Message)
    requires Good(logs, blocks, pages, floor, next) && s in logs && m.sequence == next + 1
    ensures Good(logs[s := Trimmed(logs[s] + [m])], blocks, pages, floor, next + 1)
  {
    hide Sound, AllChecked, AllHeld, Trimmed;
    LineAppended(logs, blocks, floor, next, s, m);
    HeldAppended(logs, blocks, pages, floor, next, s, m);
  }

  lemma GoodOpened(logs: Logs, blocks: Blocks, pages: map<nat, CheckedPage>, floor: int, next: int, id: nat, top: Log,
                   b: Block)
    requires Good(logs, blocks, pages, floor, next) && b.start == b.next == floor - HISTORY_RESERVE
    requires b.room <= HISTORY_RESERVE && |top| <= HISTORY_RESERVE && b.nearTop == Window(Backwards(top))
    ensures Good(logs, blocks[id := b], pages[id := CheckedPage(top, [])], b.start, next)
  {
    hide Sound, AllChecked, AllHeld, Checked;
    BlockOpened(logs, blocks, floor, next, id, b);
    PageOpened(top, b);
    PageChecked(blocks, pages, id, b, CheckedPage(top, []));
    HeldOpened(logs, blocks, pages, floor, next, id, b, CheckedPage(top, []));
  }

  /** Everything holds again once the block took `m` as its next line. */
  lemma GoodStreamed(logs: Logs, blocks: Blocks, pages: map<nat, CheckedPage>, floor: int, next: int, id: nat,
                     m: Message)
    requires Good(logs, blocks, pages, floor, next) && LogScan.Conversation(id) in logs && id in blocks && id in pages
    requires blocks[id].next - blocks[id].start < blocks[id].room && !Overlaps(pages[id], m)
    ensures blocks[id].next < SEQUENCE_ORIGIN && Ascending(logs[LogScan.Conversation(id)])
    ensures
      var line := m.(sequence := blocks[id].next);
      var b := blocks[id].(next := blocks[id].next + 1, nearTop := Remember(blocks[id].nearTop, m));
      Good(logs[LogScan.Conversation(id) := Trimmed(Placed(logs[LogScan.Conversation(id)], line))], blocks[id := b],
           pages[id := pages[id].(added := pages[id].added + [line])], floor, next)
  {
    hide Sound, AllChecked, AllHeld, Ascending, Remember, Overlaps, Placed, Trimmed;
    var line := m.(sequence := blocks[id].next);
    var b := blocks[id].(next := blocks[id].next + 1, nearTop := Remember(blocks[id].nearTop, m));
    Streamed(logs, blocks, pages, floor, next, id, m);
    HeldStreamed(logs, blocks, pages, floor, next, id, line, b);
  }

  /** A page settles: what it held is the newest of what it streamed. */
  lemma GoodSettled(logs: Logs, blocks: Blocks, pages: map<nat, CheckedPage>, floor: int, next: int, id: nat)
    requires Good(logs, blocks, pages, floor, next) && LogScan.Conversation(id) in logs && id in blocks
    ensures
      var log, b := logs[LogScan.Conversation(id)], blocks[id];
      && id in pages && Holds(log, b, pages[id])
      && Good(logs[LogScan.Conversation(id) := Settled(log, b.start, b.start + HISTORY_RESERVE)], blocks - {id}, pages,
              floor, next)
  {
    hide Sound, AllChecked, AllHeld, Settled, Page, IsTail, Ascending;
    HeldAt(logs, blocks, pages, id);
    BlockSettled(logs, blocks, floor, next, id);
    PagesDropped(blocks, pages, {id});
    HeldDropped(logs, blocks, pages, {}, {id});
    assert logs - {} == logs;
    HeldElsewhere(logs, blocks - {id}, pages, id,
                  Settled(logs[LogScan.Conversation(id)], blocks[id].start, blocks[id].start + HISTORY_RESERVE));
  }

  /** The line an older page is asked for before: the oldest by source time
      near the top, else the first one its source identified. */
  function Oldest(head: Log): (r: Option<Message>)
    ensures r.Some? ==> r.value in head && (r.value.timestamp.Some? || r.value.nativeId.Some?)
    ensures r.Some? && r.value.timestamp.Some? ==>
              forall m :: m in head && m.timestamp.Some? ==> r.value.timestamp.value <= m.timestamp.value
    ensures (r.None? || r.value.timestamp.None?) ==> forall m :: m in head ==> m.timestamp.None?
    ensures r.None? ==> forall m :: m in head ==> m.nativeId.None?
    ensures r.Some? ==>
              exists i :: 0 <= i < |head| && head[i] == r.value && forall j :: 0 <= j < i ==>
                if r.value.timestamp.None? then head[j].nativeId.None?
                else head[j].timestamp.Some? ==> r.value.timestamp.value < head[j].timestamp.value
  {
    if head == [] then None
    else
      var last := head[|head| - 1];
      assert head == head[..|head| - 1] + [last];
      match Oldest(head[..|head| - 1])
      case None => if last.timestamp.Some? || last.nativeId.Some? then Some(last) else None
      case Some(m) =>
        if last.timestamp.Some? && (m.timestamp.None? || last.timestamp.value < m.timestamp.value) then Some(last)
        else Some(m)
  }

  // ---------- The log each sequence belongs to ----------

  ghost predicate Owns(owners: Owners, sequence: int, s: Source) {
    sequence in owners && owners[sequence] == s
  }

  ghost predicate LinesOwned(log: Log, owners: Owners, s: Source) {
    forall i :: 0 <= i < |log| ==> Owns(owners, log[i].sequence, s)
  }

  ghost predicate BlockOwned(b: Block, owners: Owners, id: nat) {
    forall q :: b.start <= q < b.start + HISTORY_RESERVE ==> Owns(owners, q, LogScan.Conversation(id))
  }

  /** `owners` says to which log each sequence given out so far went. Every
      line stands in the log of its sequence, and all sequences of a block are
      its conversation's. */
  ghost predicate Claimed(logs: Logs, blocks: Blocks, owners: Owners, floor: int, next: int) {
    && (forall q :: q in owners ==> floor <= q <= next)
    && (forall s :: s in logs ==> LinesOwned(logs[s], owners, s))
    && forall id :: id in blocks ==> BlockOwned(blocks[id], owners, id)
  }

  /** No sequence went to another log since. */
  ghost predicate StillOwned(before: Owners, after: Owners) {
    forall q :: q in before ==> q in after && after[q] == before[q]
  }

  lemma DrawnOwned(after: Log, before: Log, low: int, high: int, owners: Owners, s: Source)
    requires Drawn(after, before, low, high) && LinesOwned(before, owners, s)
    requires forall q :: low <= q < high ==> Owns(owners, q, s)
    ensures LinesOwned(after, owners, s)
  {
    hide Owns;
    forall i | 0 <= i < |after| && HasSequence(before, after[i].sequence)
      ensures Owns(owners, after[i].sequence, s)
    {
      var j :| 0 <= j < |before| && before[j].sequence == after[i].sequence;
    }
  }

  lemma ClaimDropped(logs: Logs, blocks: Blocks, owners: Owners, floor: int, next: int, sources: set<Source>,
                     ids: set<nat>)
    requires Claimed(logs, blocks, owners, floor, next)
    ensures Claimed(logs - sources, blocks - ids, owners, floor, next)
  {
    hide LinesOwned, BlockOwned;
  }

  lemma ClaimWithNew(logs: Logs, blocks: Blocks, owners: Owners, floor: int, next: int, s: Source)
    requires Claimed(logs, blocks, owners, floor, next) && s !in logs
    ensures Claimed(logs[s := []], blocks, owners, floor, next)
  {
    hide BlockOwned;
    assert LinesOwned([], owners, s);
  }

  lemma MoreOwned(logs: Logs, blocks: Blocks, owners: Owners, floor: int, next: int, owners': Owners, floor': int,
                  next': int)
    requires Claimed(logs, blocks, owners, floor, next) && StillOwned(owners, owners')
    requires forall q :: q in owners' ==> floor' <= q <= next'
    ensures Claimed(logs, blocks, owners', floor', next')
  {
    hide LinesOwned, BlockOwned;
    forall s | s in logs ensures LinesOwned(logs[s], owners', s) {
      LinesStillOwned(logs[s], owners, owners', s);
    }
    forall id | id in blocks ensures BlockOwned(blocks[id], owners', id) {
      BlockStillOwned(blocks[id], owners, owners', id);
    }
  }

  lemma LinesStillOwned(log: Log, before: Owners, after: Owners, s: Source)
    requires LinesOwned(log, before, s) && StillOwned(before, after)
    ensures LinesOwned(log, after, s)
  {
  }

  lemma BlockStillOwned(b: Block, before: Owners, after: Owners, id: nat)
    requires BlockOwned(b, before, id) && StillOwned(before, after)
    ensures BlockOwned(b, after, id)
  {
    forall q | b.start <= q < b.start + HISTORY_RESERVE
      ensures Owns(after, q, LogScan.Conversation(id))
    {
      assert Owns(before, q, LogScan.Conversation(id));
    }
  }

  lemma ClaimAppended(logs: Logs, blocks: Blocks, pages: map<nat, CheckedPage>, owners: Owners, floor: int, next: int,
                      s: Source, m: Message)
    requires Good(logs, blocks, pages, floor, next) && Claimed(logs, blocks, owners, floor, next)
    requires s in logs && m.sequence == next + 1
    ensures Claimed(logs[s := Trimmed(logs[s] + [m])], blocks, owners[next + 1 := s], floor, next + 1)
    ensures StillOwned(owners, owners[next + 1 := s])
  {
    hide Good, Sound, Trimmed, Kept, Drawn, LinesOwned, BlockOwned;
    GoodIsSound(logs, blocks, pages, floor, next);
    SoundAt(logs, blocks, floor, next, s);
    AppendKeeps(logs[s], m, floor, next);
    assert StillOwned(owners, owners[next + 1 := s]);
    MoreOwned(logs, blocks, owners, floor, next, owners[next + 1 := s], floor, next + 1);
    DrawnOwned(Trimmed(logs[s] + [m]), logs[s], next + 1, next + 2, owners[next + 1 := s], s);
  }

  lemma GoodIsSound(logs: Logs, blocks: Blocks, pages: map<nat, CheckedPage>, floor: int, next: int)
    requires Good(logs, blocks, pages, floor, next)
    ensures Sound(logs, blocks, floor, next)
  {
  }

  /** The log of a sequence. */
  ghost function OwnerIn(owners: Owners): nat -> Source {
    (q: nat) => if q in owners then owners[q] else LogScan.Server(0)
  }

  /** So a search may go on while the logs change: no sequence is ever in
      another log than the one it has `later`. */
  lemma SearchMayGoOn(logs: Logs, blocks: Blocks, pages: map<nat, CheckedPage>, owners: Owners, floor: int, next: int,
                      later: Owners, sources: seq<Source>, shown: LogScan.Logs)
    requires Good(logs, blocks, pages, floor, next) && Claimed(logs, blocks, owners, floor, next)
    requires StillOwned(owners, later)
    requires forall s :: s in shown ==> s in logs && |shown[s]| == |logs[s]|
    requires forall s, i :: s in shown && 0 <= i < |shown[s]| ==> shown[s][i].sequence == logs[s][i].sequence
    ensures LogScan.Owned(shown, sources, OwnerIn(later))
  {
    hide BlockOwned, AllChecked, AllHeld, Strangers, Apart, BlockFits, Reserved;
    forall s | s in shown
      ensures LogScan.Ascending(shown[s])
      ensures forall i :: 0 <= i < |shown[s]| ==> OwnerIn(later)(shown[s][i].sequence) == s
    {
      assert Kept(logs[s], floor, next);
      LinesStillOwned(logs[s], owners, later, s);
      assert forall i :: 0 <= i < |shown[s]| ==> Owns(later, logs[s][i].sequence, s);
    }
  }

  /** A new block's sequences are its conversation's from the start. */
  ghost function WithBlock(owners: Owners, start: int, id: nat): Owners {
    owners + map q: int | start <= q < start + HISTORY_RESERVE && OfBlock(start, q) :: LogScan.Conversation(id)
  }

  ghost predicate OfBlock(start: int, sequence: int) {
    start <= sequence < start + HISTORY_RESERVE
  }

  lemma ClaimOpened(logs: Logs, blocks: Blocks, pages: map<nat, CheckedPage>, owners: Owners, floor: int, next: int,
                    id: nat, b: Block)
    requires Good(logs, blocks, pages, floor, next) && Claimed(logs, blocks, owners, floor, next)
    requires b.start == floor - HISTORY_RESERVE
    ensures Claimed(logs, blocks[id := b], WithBlock(owners, b.start, id), b.start, next)
    ensures StillOwned(owners, WithBlock(owners, b.start, id))
  {
    hide LinesOwned, BlockOwned, AllChecked, AllHeld, Kept, Strangers, Reserved;
    MoreOwned(logs, blocks, owners, floor, next, WithBlock(owners, b.start, id), b.start, next);
    NewBlockOwned(owners, b, id);
  }

  lemma NewBlockOwned(owners: Owners, b: Block, id: nat)
    ensures BlockOwned(b, WithBlock(owners, b.start, id), id)
  {
  }

  lemma ClaimStreamed(logs: Logs, blocks: Blocks, pages: map<nat, CheckedPage>, owners: Owners, floor: int, next: int,
                      id: nat, m: Message, b: Block)
    requires Good(logs, blocks, pages, floor, next) && Claimed(logs, blocks, owners, floor, next)
    requires LogScan.Conversation(id) in logs && id in blocks && m.sequence == blocks[id].next
    requires blocks[id].next - blocks[id].start < blocks[id].room && b.start == blocks[id].start
    requires b.room == blocks[id].room && b.next == blocks[id].next + 1
    ensures Ascending(logs[LogScan.Conversation(id)])
    ensures Claimed(logs[LogScan.Conversation(id) := Trimmed(Placed(logs[LogScan.Conversation(id)], m))],
                    blocks[id := b], owners, floor, next)
  {
    hide Good, Sound, Trimmed, Placed, Ascending, Between, Drawn, HasSequence, LinesOwned, Reserved, Owns;
    var s := LogScan.Conversation(id);
    GoodIsSound(logs, blocks, pages, floor, next);
    SoundAt(logs, blocks, floor, next, s);
    BlockAdvanced(logs, blocks, floor, next, id, b);
    BlockWithin(logs, blocks, floor, next, id);
    PlacedKeeps(logs[s], m, floor, next);
    assert BlockOwned(blocks[id], owners, id);
    DrawnOwned(Trimmed(Placed(logs[s], m)), logs[s], m.sequence, m.sequence + 1, owners, s);
    assert BlockOwned(b, owners, id);
  }

  lemma ClaimSettled(logs: Logs, blocks: Blocks, pages: map<nat, CheckedPage>, owners: Owners, floor: int, next: int,
                     id: nat)
    requires Good(logs, blocks, pages, floor, next) && Claimed(logs, blocks, owners, floor, next)
    requires LogScan.Conversation(id) in logs && id in blocks
    ensures Ascending(logs[LogScan.Conversation(id)])
    ensures
      var (s, start) := (LogScan.Conversation(id), blocks[id].start);
      Claimed(logs[s := Settled(logs[s], start, start + HISTORY_RESERVE)], blocks - {id}, owners, floor, next)
  {
    hide Good, Sound, Settled, Drawn, LinesOwned, Owns, Ascending, Between, Clear, Reserved, LinesBefore, Page;
    var s, start := LogScan.Conversation(id), blocks[id].start;
    GoodIsSound(logs, blocks, pages, floor, next);
    SoundAt(logs, blocks, floor, next, s);
    BlockWithin(logs, blocks, floor, next, id);
    SettledKeeps(logs[s], start, start + HISTORY_RESERVE, floor, next);
    assert BlockOwned(blocks[id], owners, id);
    DrawnOwned(Settled(logs[s], start, start + HISTORY_RESERVE), logs[s], start, start + HISTORY_RESERVE, owners, s);
  }

  // ---------- What the filters remember ----------

  function WindowIn(duplicates: map<nat, seq<Key>>, id: nat): seq<Key> {
    if id in duplicates then duplicates[id] else []
  }

  ghost function FedIn(fed: map<nat, Log>, id: nat): Log {
    if id in fed then fed[id] else []
  }

  /** Every filter remembers the keys of the lines its conversation was fed. */
  ghost predicate Filtered(duplicates: map<nat, seq<Key>>, fed: map<nat, Log>) {
    forall id :: WindowIn(duplicates, id) == Window(FedIn(fed, id))
  }

  lemma FilteredNext(duplicates: map<nat, seq<Key>>, fed: map<nat, Log>, id: nat, m: Message)
    requires Filtered(duplicates, fed)
    ensures
      var next := fed[id := FedIn(fed, id) + [m]];
      && Filtered(duplicates[id := Remember(WindowIn(duplicates, id), m)], next)
      && (KeyOf(m).None? ==> Filtered(duplicates, next))
  {
    hide Window, Remember, KeyOf;
    WindowNext(FedIn(fed, id), m);
    RememberUnkeyed(WindowIn(duplicates, id), m);
    var longer, next := duplicates[id := Remember(WindowIn(duplicates, id), m)], fed[id := FedIn(fed, id) + [m]];
    forall j
      ensures WindowIn(longer, j) == Window(FedIn(next, j))
      ensures KeyOf(m).None? ==> WindowIn(duplicates, j) == Window(FedIn(next, j))
    {
      assert WindowIn(duplicates, j) == Window(FedIn(fed, j));
    }
  }

  /** A feed's filter remembers what was fed before and what it accepted. */
  lemma {:induction false} FeedRemembers(f: Feed, before: Log, lines: Log)
    requires f.window == Window(before)
    ensures FedAll(f, lines).window == Window(before + Accepted(f, lines))
  {
    hide Recognized, Remember, Window;
    if lines == [] {
      assert before + [] == before;
    } else {
      var front, last := lines[..|lines| - 1], lines[|lines| - 1];
      FeedRemembers(f, before, front);
      assert lines == front + [last];
      AcceptedNext(f, front, last);
      if Recognized(FedAll(f, front).window, last) {
        assert Accepted(f, lines) == Accepted(f, front);
      } else {
        WindowNext(before + Accepted(f, front), last);
        Associative(before, Accepted(f, front), [last]);
      }
    }
  }

  /** What of a reply is added: a line exactly when neither the filter nor the
      lines added before it make it a repetition. */
  lemma AcceptedMeans(f: Feed, before: Log, lines: Log, m: Message)
    requires f.window == Window(before)
    ensures
      var (given, all) := (Accepted(f, lines), Accepted(f, lines + [m]));
      && (all == given || all == given + [m])
      && (RecentlyFed(before + given, m) && (m.nativeId.Some? || m.history) ==> all == given)
      && (all == given ==> EverFed(before + given, m) && (m.nativeId.Some? || (m.timestamp.Some? && m.history)))
  {
    hide Accepted, FedAll, Recognized, RecentlyFed, EverFed, Window;
    FeedRemembers(f, before, lines);
    AcceptedNext(f, lines, m);
    assert Accepted(f, lines) + [] == Accepted(f, lines);
    var window, fed := map[0 := Window(before + Accepted(f, lines))], map[0 := before + Accepted(f, lines)];
    OneFilter(window, fed);
    FilterMeans(window, fed, 0, m);
  }

  lemma OneFilter(window: map<nat, seq<Key>>, fed: map<nat, Log>)
    requires 0 in window && 0 in fed && window.Keys == {0} && fed.Keys == {0} && window[0] == Window(fed[0])
    ensures Filtered(window, fed)
  {
    hide Window;
    NothingFed();
  }

  lemma FilteredDropped(duplicates: map<nat, seq<Key>>, fed: map<nat, Log>, ids: set<nat>)
    requires Filtered(duplicates, fed)
    ensures Filtered(duplicates - ids, fed - ids)
  {
    hide Window;
    forall id ensures WindowIn(duplicates - ids, id) == Window(FedIn(fed - ids, id)) {
      assert WindowIn(duplicates, id) == Window(FedIn(fed, id));
      NothingFed();
    }
  }

  lemma NothingFed()
    ensures Window([]) == []
  {
  }

  /** Whether a line a conversation was fed has the key of `m`, and at most 511
      other keys came since it was recorded. */
  ghost predicate RecentlyFed(fed: Log, m: Message) {
    exists i :: 0 <= i < |fed| && Records(fed[..i], fed[i]) && KeyOf(fed[i]) == KeyOf(m) &&
                |Keys(fed[i + 1..]) - {KeyOf(m).value}| < 512
  }

  ghost predicate EverFed(fed: Log, m: Message) {
    exists i :: 0 <= i < |fed| && KeyOf(fed[i]) == KeyOf(m)
  }

  /** A line is refused if it was fed recently, and only if ever; without an
      identifier a live line never is. */
  lemma FilterMeans(duplicates: map<nat, seq<Key>>, fed: map<nat, Log>, id: nat, m: Message)
    requires Filtered(duplicates, fed)
    ensures RecentlyFed(FedIn(fed, id), m) && (m.nativeId.Some? || m.history) ==>
              Recognized(WindowIn(duplicates, id), m)
    ensures Recognized(WindowIn(duplicates, id), m) ==>
              EverFed(FedIn(fed, id), m) && (m.nativeId.Some? || (m.timestamp.Some? && m.history))
  {
    hide Window, KeyOf, Keys;
    var run := FedIn(fed, id);
    assert WindowIn(duplicates, id) == Window(run);
    if RecentlyFed(run, m) {
      var i :| 0 <= i < |run| && Records(run[..i], run[i]) && KeyOf(run[i]) == KeyOf(m) &&
               |Keys(run[i + 1..]) - {KeyOf(m).value}| < 512;
      RepeatRecognized(run, i, m);
    }
    if Recognized(WindowIn(duplicates, id), m) {
      NewIsNew(run, m);
    }
  }

  class Timeline {
    var logs: Logs
    var duplicates: map<nat, seq<Key>>
    var pending: map<nat, Log>
    var blocks: Blocks
    var older: map<nat, Paging>
    var next: int
    var floor: int
    var nextRequest: nat
    /** What each page was checked against so far. */
    ghost var pages: map<nat, CheckedPage>
    /** The log each sequence ever given out went to. */
    ghost var owners: Owners
    /** The lines added to each conversation since its filter began. */
    ghost var fed: map<nat, Log>

    ghost predicate Valid()
      reads this
    {
      && Good(logs, blocks, pages, floor, next) && Claimed(logs, blocks, owners, floor, next)
      && Filtered(duplicates, fed)
    }

    constructor ()
      ensures Valid() && logs == map[] && next == SEQUENCE_ORIGIN == floor
      ensures duplicates == map[] && pending == map[] && blocks == map[] && older == map[] && fed == map[]
    {
      logs, duplicates, pending, blocks, older, pages, owners := map[], map[], map[], map[], map[], map[], map[];
      fed := map[];
      NothingFed();
      next, floor, nextRequest := SEQUENCE_ORIGIN, SEQUENCE_ORIGIN, 0;
    }

    function WindowOf(id: nat): seq<Key>
      reads this`duplicates
    {
      WindowIn(duplicates, id)
    }

    function PagingOf(id: nat): Paging
      reads this`older
    {
      if id in older then older[id] else Paging(None, false)
    }

    /** A conversation or a server gets its log. */
    method Add(s: Source)
      requires Valid() && s !in logs
      modifies this`logs
      ensures Valid() && logs == old(logs)[s := []]
    {
      hide Good, Claimed, Filtered, Checked, Trimmed;
      GoodWithNew(logs, blocks, pages, floor, next, s);
      ClaimWithNew(logs, blocks, owners, floor, next, s);
      logs := logs[s := []];
    }

    /** Conversations are closed or their network is reset: whatever was on
        its way to them is given up. */
    method Remove(ids: set<nat>)
      requires Valid()
      modifies this`logs, this`blocks, this`duplicates, this`pending, this`older, this`fed
      ensures Valid() && logs == old(logs) - (set id | id in ids :: LogScan.Conversation(id))
      ensures blocks == old(blocks) - ids && pending == old(pending) - ids
      ensures older == old(older) - ids && duplicates == old(duplicates) - ids && fed == old(fed) - ids
    {
      hide Good, Claimed, Filtered, Checked, Trimmed;
      GoodDropped(logs, blocks, pages, floor, next, set id | id in ids :: LogScan.Conversation(id), ids);
      ClaimDropped(logs, blocks, owners, floor, next, set id | id in ids :: LogScan.Conversation(id), ids);
      FilteredDropped(duplicates, fed, ids);
      logs, fed := logs - (set id | id in ids :: LogScan.Conversation(id)), fed - ids;
      blocks := blocks - ids;
      duplicates, pending, older := duplicates - ids, pending - ids, older - ids;
    }

    /** The connection ended: no reply and no page is accepted any more. */
    method EndSession(ids: set<nat>)
      requires Valid()
      modifies this`pending, this`older
      ensures Valid() && pending == old(pending) - ids && older == old(older) - ids
    {
      pending, older := pending - ids, older - ids;
    }

    /** We left the channel: a page asked for while joined is not accepted. */
    method Parted(id: nat)
      requires Valid()
      modifies this`older
      ensures Valid() && older == old(older) - {id}
    {
      older := older - {id};
    }

    /** A live line at the end of a log, under the next sequence. */
    method AppendTo(s: Source, m: Message)
      requires Valid() && s in logs
      modifies this`logs, this`next, this`owners
      ensures Valid() && next == old(next) + 1 && StillOwned(old(owners), owners)
      ensures logs == old(logs)[s := Trimmed(old(logs)[s] + [m.(sequence := next)])]
    {
      hide Good, Claimed, Filtered, Checked, Trimmed;
      var line := m.(sequence := next + 1);
      GoodAppended(logs, blocks, pages, floor, next, s, line);
      ClaimAppended(logs, blocks, pages, owners, floor, next, s, line);
      owners := owners[next + 1 := s];
      next := line.sequence;
      var log, trimmed := TrimRetained(logs[s] + [line]);
      logs := logs[s := log];
    }

    /** The conversation's log, filter and newest sequence. */
    function FeedOf(id: nat): Feed
      requires LogScan.Conversation(id) in logs
      reads this`logs, this`duplicates, this`next
    {
      Feed(logs[LogScan.Conversation(id)], WindowOf(id), next)
    }

    /** Appends to a conversation unless its filter recognizes the line; only
        a line that is added takes a sequence. */
    method Append(id: nat, m: Message) returns (added: bool)
      requires Valid()
      modifies this`logs, this`next, this`duplicates, this`owners, this`fed
      ensures Valid() && logs.Keys == old(logs).Keys && StillOwned(old(owners), owners)
      ensures LogScan.Conversation(id) !in logs ==>
                !added && logs == old(logs) && next == old(next) && duplicates == old(duplicates)
      ensures LogScan.Conversation(id) in logs ==>
                && FeedOf(id) == Fed(old(FeedOf(id)), m)
                && logs == old(logs)[LogScan.Conversation(id) := FeedOf(id).log]
                && (added <==> !Recognized(old(WindowOf(id)), m))
                && (RecentlyFed(old(FedIn(fed, id)), m) && (m.nativeId.Some? || m.history) ==> !added)
                && (!added ==>
                      EverFed(old(FedIn(fed, id)), m) && (m.nativeId.Some? || (m.timestamp.Some? && m.history)))
      ensures fed == if added then old(fed)[id := old(FedIn(fed, id)) + [m]] else old(fed)
      ensures forall j :: j != id ==> WindowOf(j) == old(WindowOf(j))
    {
      hide Good, Claimed, Filtered, Checked, Trimmed, Recognized, Remember, KeyOf, Distinct, Window, RecentlyFed,
           EverFed;
      RememberUnkeyed(WindowOf(id), m);
      FilterMeans(duplicates, fed, id, m);
      FilteredNext(duplicates, fed, id, m);
      var s := LogScan.Conversation(id);
      if s !in logs {
        return false;
      }
      if Recognized(WindowOf(id), m) {
        return false;
      }
      if KeyOf(m).Some? {
        duplicates := duplicates[id := Remember(WindowOf(id), m)];
      }
      fed := fed[id := FedIn(fed, id) + [m]];
      AppendTo(s, m);
      return true;
    }

    /** History was asked for: the reply's lines are held until it ends. */
    method HistoryRequested(id: nat)
      requires Valid()
      modifies this`pending
      ensures Valid() && pending == old(pending)[id := []]
    {
      pending := pending[id := []];
    }

    /** A line of the reply is held; one nobody asked for changes nothing. */
    method PushHistoryLine(id: nat, line: Message) returns (taken: bool)
      requires Valid()
      modifies this`pending
      ensures Valid() && (taken <==> id in old(pending))
      ensures pending == if taken then old(pending)[id := old(pending)[id] + [line.(history := true)]] else old(pending)
    {
      if id !in pending {
        return false;
      }
      pending := pending[id := pending[id] + [line.(history := true)]];
      return true;
    }

    /** The reply ended: the gap note, then the held lines in server-time
        order, each through the duplicate filter, under ordinary sequences. */
    method FinishHistory(id: nat, note: Option<Message>) returns (added: nat)
      requires Valid()
      modifies this`pending, this`logs, this`next, this`duplicates, this`owners, this`fed
      ensures Valid() && pending == old(pending) - {id} && logs.Keys == old(logs).Keys &&
              StillOwned(old(owners), owners)
      ensures id !in old(pending) || LogScan.Conversation(id) !in logs ==>
                logs == old(logs) && next == old(next) && added == 0
      ensures id in old(pending) && LogScan.Conversation(id) in logs ==>
                && FeedOf(id) == FedAll(old(FeedOf(id)), Reply(note, old(pending)[id]))
                && logs == old(logs)[LogScan.Conversation(id) := FeedOf(id).log]
                && added == next - old(next)
                && FedIn(fed, id) ==
                     old(FedIn(fed, id)) + Accepted(old(FeedOf(id)), Reply(note, old(pending)[id]))
      ensures forall j :: j != id ==> WindowOf(j) == old(WindowOf(j)) && FedIn(fed, j) == old(FedIn(fed, j))
    {
      hide Good, Claimed, Filtered, Fed, FedAll, InTimeOrder, Reply, Recognized, Accepted, Pick;
      if id !in pending {
        return 0;
      }
      var lines := pending[id];
      pending := pending - {id};
      if LogScan.Conversation(id) !in logs {
        return 0;
      }
      added := AppendNote(id, note);
      var order := ServerTimeOrder(Stamps(lines));
      added := FeedInOrder(id, lines, order, old(FeedOf(id)), if note.Some? then [note.value] else [],
                           old(FedIn(fed, id)), added);
      ReplyParts(note, lines);
    }

    method AppendNote(id: nat, note: Option<Message>) returns (added: nat)
      requires Valid() && LogScan.Conversation(id) in logs
      modifies this`logs, this`next, this`duplicates, this`owners, this`fed
      ensures Valid() && logs.Keys == old(logs).Keys && StillOwned(old(owners), owners)
      ensures FeedOf(id) == FedAll(old(FeedOf(id)), if note.Some? then [note.value] else [])
      ensures logs == old(logs)[LogScan.Conversation(id) := FeedOf(id).log] && added == next - old(next)
      ensures FedIn(fed, id) ==
              old(FedIn(fed, id)) + Accepted(old(FeedOf(id)), if note.Some? then [note.value] else [])
      ensures forall j :: j != id ==> WindowOf(j) == old(WindowOf(j)) && FedIn(fed, j) == old(FedIn(fed, j))
    {
      hide Good, Claimed, Filtered, Fed, FedAll, Recognized;
      added := 0;
      FedNone(FeedOf(id));
      if note.Some? {
        FedOne(FeedOf(id), note.value);
        AcceptedNext(FeedOf(id), [], note.value);
        assert [] + [note.value] == [note.value];
        var ok := Append(id, note.value);
        added := if ok then 1 else 0;
      }
    }

    method FeedInOrder(id: nat, lines: Log, order: seq<nat>, ghost before: Feed, ghost given: Log, ghost first: Log,
                       count: nat)
      returns (added: nat)
      requires Valid() && LogScan.Conversation(id) in logs && FeedOf(id) == FedAll(before, given) &&
               count == next - before.next
      requires FedIn(fed, id) == first + Accepted(before, given)
      requires forall i :: 0 <= i < |order| ==> order[i] < |lines|
      modifies this`logs, this`next, this`duplicates, this`owners, this`fed
      ensures Valid() && logs.Keys == old(logs).Keys && logs == old(logs)[LogScan.Conversation(id) := FeedOf(id).log]
      ensures StillOwned(old(owners), owners)
      ensures FeedOf(id) == FedAll(before, given + Pick(lines, order)) && added == next - before.next
      ensures FedIn(fed, id) == first + Accepted(before, given + Pick(lines, order))
      ensures forall j :: j != id ==> WindowOf(j) == old(WindowOf(j)) && FedIn(fed, j) == old(FedIn(fed, j))
    {
      hide Valid, Fed, FedAll, Recognized, Pick, Accepted, RecentlyFed, EverFed;
      added := count;
      assert given + Pick(lines, order[..0]) == given;
      for i := 0 to |order|
        invariant Valid() && logs.Keys == old(logs).Keys && StillOwned(old(owners), owners)
        invariant logs == old(logs)[LogScan.Conversation(id) := FeedOf(id).log]
        invariant FeedOf(id) == FedAll(before, given + Pick(lines, order[..i])) && added == next - before.next
        invariant FedIn(fed, id) == first + Accepted(before, given + Pick(lines, order[..i]))
        invariant forall j :: j != id ==> WindowOf(j) == old(WindowOf(j)) && FedIn(fed, j) == old(FedIn(fed, j))
      {
        PickNext(before, given, lines, order, i);
        AcceptedNext(before, given + Pick(lines, order[..i]), lines[order[i]]);
        PickAdds(given, lines, order, i);
        Associative(first, Accepted(before, given + Pick(lines, order[..i])), [lines[order[i]]]);
        var ok := Append(id, lines[order[i]]);
        added := if ok then added + 1 else added;
      }
      assert order[..|order|] == order;
    }

    /** Asks for one older page when one may be asked for now. `mayPage` says
        that the network can page and the conversation is a joined channel. */
    method RequestOlder(id: nat, mayPage: bool) returns (request: Option<Request>)
      requires Valid()
      modifies this`older, this`nextRequest
      ensures Valid() && (request.None? ==> older == old(older) && nextRequest == old(nextRequest))
      ensures request.Some? <==>
                && mayPage && LogScan.Conversation(id) in logs && id !in pending
                && (id in old(older) ==> old(older)[id] == Paging(None, false))
                && |logs[LogScan.Conversation(id)]| < MAX_RETAINED
                && exists m :: m in Top(logs[LogScan.Conversation(id)]) && KeyOf(m).Some?
      ensures request.Some? ==>
                && old(nextRequest) < request.value.request == nextRequest
                && older == old(older)[id := Paging(Some(nextRequest), false)]
                && 0 < request.value.limit <= OLDER_PAGE_LIMIT
                && |logs[LogScan.Conversation(id)]| + request.value.limit <= MAX_RETAINED
                && (request.value.limit == OLDER_PAGE_LIMIT ||
                    |logs[LogScan.Conversation(id)]| + request.value.limit == MAX_RETAINED)
                && var oldest := Oldest(Top(logs[LogScan.Conversation(id)]));
                   oldest.Some? && request.value.nativeId == oldest.value.nativeId &&
                   request.value.timestamp == oldest.value.timestamp
    {
      hide Good, Claimed, Filtered, Checked, Trimmed;
      var s := LogScan.Conversation(id);
      if s !in logs || !mayPage || id in pending || PagingOf(id).inFlight.Some? || PagingOf(id).finished ||
      |logs[s]| >= MAX_RETAINED {
        return None;
      }
      var oldest := Oldest(Top(logs[s]));
      if oldest.None? {
        return None;
      }
      var room := MAX_RETAINED - |logs[s]|;
      nextRequest := nextRequest + 1;
      older := older[id := Paging(Some(nextRequest), false)];
      return Some(Request(nextRequest, oldest.value.nativeId, oldest.value.timestamp,
                          if OLDER_PAGE_LIMIT < room then OLDER_PAGE_LIMIT else room));
    }

    /** The page request `request` fills now, or a new one over the top of the
        log. */
    ghost function PageOf(id: nat, request: nat): CheckedPage
      requires LogScan.Conversation(id) in logs
      reads this
    {
      if id in blocks && blocks[id].request == request && id in pages then pages[id]
      else CheckedPage(Top(logs[LogScan.Conversation(id)]), [])
    }

    ghost function NextOf(id: nat, request: nat): int
      reads this
    {
      if id in blocks && blocks[id].request == request then blocks[id].next else floor - HISTORY_RESERVE
    }

    function RoomOf(id: nat, request: nat): int
      requires LogScan.Conversation(id) in logs
      reads this
    {
      if id in blocks && blocks[id].request == request then blocks[id].room - (blocks[id].next - blocks[id].start)
      else
        var left := MAX_RETAINED - |logs[LogScan.Conversation(id)]|;
        if left < 0 then 0 else if left < HISTORY_RESERVE then left else HISTORY_RESERVE
    }

    /** A new page has room for as many lines as it has sequences, or for those
        that fill up the log. */
    lemma RoomMeans(id: nat, request: nat)
      requires Valid() && LogScan.Conversation(id) in logs && !(id in blocks && blocks[id].request == request)
      ensures
        var room, lines := RoomOf(id, request), |logs[LogScan.Conversation(id)]|;
        0 <= room <= HISTORY_RESERVE && lines + room <= MAX_RETAINED &&
        (room == HISTORY_RESERVE || lines + room == MAX_RETAINED)
    {
      hide BlockFits, AllNew, LinesBefore, Reserved, Claimed, Filtered, Checked;
    }

    /** The first line of a page sets its sequences aside, below everything
        given out so far. */
    method OpenBlock(id: nat, request: nat)
      requires Valid() && LogScan.Conversation(id) in logs && !(id in blocks && blocks[id].request == request)
      modifies this`blocks, this`floor, this`pages, this`owners
      ensures Valid() && id in blocks && blocks[id].request == request && floor == old(floor) - HISTORY_RESERVE
      ensures PageOf(id, request) == old(PageOf(id, request)) && NextOf(id, request) == old(NextOf(id, request))
      ensures RoomOf(id, request) == old(RoomOf(id, request)) && blocks - {id} == old(blocks) - {id}
      ensures StillOwned(old(owners), owners)
    {
      hide BlockFits, Kept, AllNew, Distinct, LinesBefore, Reserved, Good, Claimed, Filtered, StillOwned, WithBlock,
           Keys;
      var top := Top(logs[LogScan.Conversation(id)]);
      var nearTop := WindowOver(top);
      var start := floor - HISTORY_RESERVE;
      var b := Block(start, start, request, RoomOf(id, request), nearTop);
      GoodOpened(logs, blocks, pages, floor, next, id, top, b);
      ClaimOpened(logs, blocks, pages, owners, floor, next, id, b);
      owners := WithBlock(owners, start, id);
      floor := start;
      blocks := blocks[id := b];
      pages := pages[id := CheckedPage(top, [])];
    }

    /** One line of an older page: taken exactly when its request is the one
        in flight, the page has room, the conversation did not receive it
        recently, and it shares no key with the topmost lines or the page. It
        goes below the page's lines so far and above everything else. */
    method PushOlderLine(id: nat, request: nat, line: Message) returns (taken: bool)
      requires Valid()
      modifies this`logs, this`blocks, this`floor, this`pages, this`owners
      ensures Valid() && logs.Keys == old(logs).Keys && StillOwned(old(owners), owners)
      ensures taken <==>
                && PagingOf(id).inFlight == Some(request) && LogScan.Conversation(id) in old(logs)
                && old(RoomOf(id, request)) > 0
                && !Recognized(WindowOf(id), line.(history := true))
                && !Overlaps(old(PageOf(id, request)), line.(history := true))
      ensures blocks - {id} == old(blocks) - {id}
      ensures !taken ==> logs == old(logs) && (LogScan.Conversation(id) in logs ==>
                PageOf(id, request) == old(PageOf(id, request)) && NextOf(id, request) == old(NextOf(id, request))
                && RoomOf(id, request) == old(RoomOf(id, request)))
      ensures taken ==>
                var s, m := LogScan.Conversation(id), line.(history := true, sequence := old(NextOf(id, request)));
                && m.sequence < SEQUENCE_ORIGIN && Ascending(old(logs)[s])
                && logs == old(logs)[s := Trimmed(Placed(old(logs)[s], m))]
                && PageOf(id, request) ==
                     CheckedPage(old(PageOf(id, request)).top, old(PageOf(id, request)).added + [m])
                && NextOf(id, request) == m.sequence + 1 && RoomOf(id, request) == old(RoomOf(id, request)) - 1
    {
      hide Valid, Recognized, Overlaps, Placed, Trimmed, Ascending, Top;
      if PagingOf(id).inFlight != Some(request) {
        return false;
      }
      if LogScan.Conversation(id) !in logs {
        return false;
      }
      if id !in blocks || blocks[id].request != request {
        OpenBlock(id, request);
      }
      taken := Admit(id, request, line);
    }

    /** Takes the line unless the block is full or knows it. */
    method Admit(id: nat, request: nat, line: Message) returns (taken: bool)
      requires Valid() && LogScan.Conversation(id) in logs && id in blocks && blocks[id].request == request
      modifies this`logs, this`blocks, this`pages
      ensures Valid() && logs.Keys == old(logs).Keys
      ensures taken <==>
                && old(RoomOf(id, request)) > 0
                && !Recognized(WindowOf(id), line.(history := true))
                && !Overlaps(old(PageOf(id, request)), line.(history := true))
      ensures blocks - {id} == old(blocks) - {id}
      ensures !taken ==> logs == old(logs) && blocks == old(blocks) && pages == old(pages)
      ensures taken ==>
                var s, m := LogScan.Conversation(id), line.(history := true, sequence := old(NextOf(id, request)));
                && m.sequence < SEQUENCE_ORIGIN && Ascending(old(logs)[s])
                && logs == old(logs)[s := Trimmed(Placed(old(logs)[s], m))]
                && PageOf(id, request) ==
                     CheckedPage(old(PageOf(id, request)).top, old(PageOf(id, request)).added + [m])
                && NextOf(id, request) == m.sequence + 1 && RoomOf(id, request) == old(RoomOf(id, request)) - 1
    {
      hide Good, Claimed, Filtered, Checked, Recognized, Remember, Placed, Trimmed, Ascending, Overlaps;
      GoodAt(logs, blocks, pages, floor, next, id);
      if blocks[id].next - blocks[id].start >= blocks[id].room {
        return false;
      }
      var m := line.(history := true);
      PageRecognizes(blocks[id], pages[id], m);
      if Recognized(WindowOf(id), m) || Recognized(blocks[id].nearTop, m) {
        return false;
      }
      Stream(id, m);
      return true;
    }

    /** The block takes `m` as its next line. */
    method Stream(id: nat, m: Message)
      requires Valid() && LogScan.Conversation(id) in logs && id in blocks &&
               blocks[id].next - blocks[id].start < blocks[id].room
      requires m.history && id in pages && !Overlaps(pages[id], m)
      modifies this`logs, this`blocks, this`pages
      ensures Valid() && old(blocks)[id].next < SEQUENCE_ORIGIN && Ascending(old(logs)[LogScan.Conversation(id)])
      ensures logs == old(logs)[LogScan.Conversation(id) :=
                                  Trimmed(Placed(old(logs)[LogScan.Conversation(id)],
                                                 m.(sequence := old(blocks)[id].next)))]
      ensures blocks ==
                old(blocks)[id :=
                              old(blocks)[id].(next := old(blocks)[id].next + 1,
                                               nearTop := Remember(old(blocks)[id].nearTop, m))]
      ensures pages == old(pages)[id :=
                                    old(pages)[id].(added := old(pages)[id].added +
                                                    [m.(sequence := old(blocks)[id].next)])]
    {
      hide Good, Claimed, Filtered, Ascending, Remember, Overlaps, Placed, Trimmed, Checked, KeyOf, Recognized,
           LinesBefore,
           Window, Keys;
      GoodStreamed(logs, blocks, pages, floor, next, id, m);
      ClaimStreamed(logs, blocks, pages, owners, floor, next, id, m.(sequence := blocks[id].next),
                    blocks[id].(next := blocks[id].next + 1, nearTop := Remember(blocks[id].nearTop, m)));
      PlaceStreamed(id, m.(sequence := blocks[id].next));
      Advance(id, m);
    }

    method Advance(id: nat, m: Message)
      requires id in blocks && id in pages
      modifies this`blocks, this`pages
      ensures blocks ==
                old(blocks)[id :=
                              old(blocks)[id].(next := old(blocks)[id].next + 1,
                                               nearTop := Remember(old(blocks)[id].nearTop, m))]
      ensures pages == old(pages)[id :=
                                    old(pages)[id].(added := old(pages)[id].added +
                                                    [m.(sequence := old(blocks)[id].next)])]
    {
      hide Remember;
      pages := pages[id := pages[id].(added := pages[id].added + [m.(sequence := blocks[id].next)])];
      blocks := blocks[id := blocks[id].(next := blocks[id].next + 1, nearTop := Remember(blocks[id].nearTop, m))];
    }

    /** Inserts a streamed line at its place in the block it belongs to. */
    method PlaceStreamed(id: nat, line: Message)
      requires LogScan.Conversation(id) in logs && Ascending(logs[LogScan.Conversation(id)])
      modifies this`logs
      ensures logs == old(logs)[LogScan.Conversation(id) := Trimmed(Placed(old(logs)[LogScan.Conversation(id)], line))]
    {
      hide Trimmed, Ascending, LinesBefore;
      var log := logs[LogScan.Conversation(id)];
      var at := LinesBefore(log, line.sequence);
      var longer, trimmed := TrimRetained(log[..at] + [line] + log[at..]);
      logs := logs[LogScan.Conversation(id) := longer];
    }

    /** The page ended: its lines are settled and nothing else changes. An
        answer to another request changes nothing. */
    method FinishOlder(id: nat, request: nat, beginning: bool) returns (added: nat)
      requires Valid()
      modifies this`logs, this`blocks, this`older
      ensures Valid()
      ensures old(PagingOf(id)).inFlight != Some(request) ==>
                logs == old(logs) && older == old(older) && blocks == old(blocks) && added == 0
      ensures old(PagingOf(id)).inFlight == Some(request) ==>
                && blocks == old(blocks) - {id}
                && older == old(older)[id := Paging(None, old(PagingOf(id)).finished || beginning || added == 0)]
      ensures old(PagingOf(id)).inFlight == Some(request) ==>
                PageSettled(old(logs), old(blocks), pages, id, request, logs, added)
    {
      hide Good, Claimed, Filtered, PageSettled;
      if PagingOf(id).inFlight != Some(request) {
        return 0;
      }
      older := older[id := older[id].(inFlight := None)];
      added := CloseBlock(id, request);
      if beginning || added == 0 {
        older := older[id := Paging(None, true)];
      }
    }

    /** Gives up the conversation's block, settling its lines when it is the
        request's. */
    method CloseBlock(id: nat, request: nat) returns (added: nat)
      requires Valid()
      modifies this`logs, this`blocks
      ensures Valid() && blocks == old(blocks) - {id}
      ensures PageSettled(old(logs), old(blocks), pages, id, request, logs, added)
    {
      hide Good, Claimed, Filtered, Checked, Settled, Page, Ascending, IsTail;
      if id !in blocks {
        return 0;
      }
      var b := blocks[id];
      BlockGivenUp(logs, blocks, pages, floor, next, id);
      ClaimDropped(logs, blocks, owners, floor, next, {}, {id});
      assert logs - {} == logs;
      if b.request != request || LogScan.Conversation(id) !in logs {
        blocks := blocks - {id};
        return 0;
      }
      added := SettleBlock(id);
    }

    /** Settles the lines of the conversation's block, which goes. */
    method SettleBlock(id: nat) returns (added: nat)
      requires Valid() && id in blocks && LogScan.Conversation(id) in logs
      modifies this`logs, this`blocks
      ensures Valid() && blocks == old(blocks) - {id}
      ensures PageSettled(old(logs), old(blocks), pages, id, old(blocks)[id].request, logs, added)
    {
      hide Good, Claimed, Filtered, Settled, Page, Ascending, IsTail;
      var start := blocks[id].start;
      GoodSettled(logs, blocks, pages, floor, next, id);
      ClaimSettled(logs, blocks, pages, owners, floor, next, id);
      blocks := blocks - {id};
      added := Settle(id, start, start + HISTORY_RESERVE);
    }

    /** Puts the lines of `first..end` in server-time order, handing their
        sequences out again. */
    method Settle(id: nat, first: int, end: int) returns (added: nat)
      requires LogScan.Conversation(id) in logs && Ascending(logs[LogScan.Conversation(id)]) && first <= end
      modifies this`logs
      ensures added == |Page(old(logs)[LogScan.Conversation(id)], first, end)|
      ensures logs == old(logs)[LogScan.Conversation(id) := Settled(old(logs)[LogScan.Conversation(id)], first, end)]
    {
      hide Ascending, LinesBefore, InTimeOrder, Numbered;
      var log := logs[LogScan.Conversation(id)];
      BoundsOrdered(log, first, end);
      var low, high := LinesBefore(log, first), LinesBefore(log, end);
      var page := ByTime(log[low..high]);
      page := Renumbered(page, first);
      logs := logs[LogScan.Conversation(id) := log[..low] + page + log[high..]];
      return |page|;
    }
  }

  /** The window over the topmost lines, the topmost one recorded last. */
  method WindowOver(top: Log) returns (nearTop: seq<Key>)
    ensures nearTop == Window(Backwards(top))
  {
    hide Remember;
    nearTop := [];
    var i := |top|;
    while i > 0
      invariant 0 <= i <= |top| && nearTop == Window(Backwards(top[i..]))
    {
      i := i - 1;
      assert Backwards(top[i..]) == Backwards(top[i + 1..]) + [top[i]];
      nearTop := Remember(nearTop, top[i]);
    }
    assert top[0..] == top;
  }

  method ByTime(arrived: Log) returns (page: Log)
    ensures page == InTimeOrder(arrived)
  {
    hide TimeOrder;
    var order := ServerTimeOrder(Stamps(arrived));
    page := [];
    for i := 0 to |order|
      invariant |page| == i && forall k :: 0 <= k < i ==> page[k] == arrived[order[k]]
    {
      page := page + [arrived[order[i]]];
    }
    assert page == InTimeOrder(arrived);
  }

  method Renumbered(lines: Log, first: int) returns (page: Log)
    ensures page == Numbered(lines, first)
  {
    page := lines;
    for i := 0 to |lines|
      invariant |page| == |lines|
      invariant forall k :: 0 <= k < |page| ==>
                              page[k] == if k < i then lines[k].(sequence := first + k) else lines[k]
    {
      page := page[i := page[i].(sequence := first + i)];
    }
    assert page == Numbered(lines, first);
  }

  /** The lines a reply brings: its gap note, then the rest by time. */
  function Reply(note: Option<Message>, lines: Log): Log {
    (if note.Some? then [note.value] else []) + InTimeOrder(lines)
  }

  /** The note comes first, then the held lines stably sorted by carried time,
      each once. */
  lemma ReplySorts(note: Option<Message>, lines: Log)
    ensures
      var first := if note.Some? then 1 else 0;
      && |Reply(note, lines)| == first + |lines| && (note.Some? ==> Reply(note, lines)[0] == note.value)
      && SortedPage(lines, Reply(note, lines)[first..], TimeOrder(Stamps(lines)))
      && multiset(Reply(note, lines)[first..]) == multiset(lines)
  {
    hide TimeOrder, SortedPage, InTimeOrder;
    TimeOrderSorts(lines);
    assert Reply(note, lines)[if note.Some? then 1 else 0..] == InTimeOrder(lines);
  }

  lemma TimeOrderSorts(lines: Log)
    ensures SortedPage(lines, InTimeOrder(lines), TimeOrder(Stamps(lines)))
    ensures multiset(InTimeOrder(lines)) == multiset(lines)
  {
    TimeOrderKeeps(lines);
    hide TimeOrder, SortedPage, InTimeOrder;
    SettlingSortsPage(lines, 0);
    SortedAlike(lines, Numbered(InTimeOrder(lines), 0), InTimeOrder(lines), TimeOrder(Stamps(lines)));
  }

  lemma TimeOrderKeeps(lines: Log)
    ensures multiset(InTimeOrder(lines)) == multiset(lines)
  {
    hide StableOrder, Stable, Pick;
    PickKeeps(lines, Times(Stamps(lines)), |lines|);
    assert lines[..|lines|] == lines;
  }

  lemma SortedAlike(page: Log, a: Log, b: Log, order: seq<nat>)
    requires SortedPage(page, a, order) && |a| == |b|
    requires forall k :: 0 <= k < |a| ==> a[k].(sequence := 0) == b[k].(sequence := 0)
    ensures SortedPage(page, b, order)
  {
  }

  lemma ReplyParts(note: Option<Message>, lines: Log)
    ensures Reply(note, lines) == (if note.Some? then [note.value] else []) + Pick(lines, TimeOrder(Stamps(lines)))
  {
  }

  /** One line more: accepted unless the filter recognizes it. */
  lemma AcceptedNext(f: Feed, lines: Log, m: Message)
    ensures Accepted(f, []) == []
    ensures Accepted(f, lines + [m]) ==
            Accepted(f, lines) + if Recognized(FedAll(f, lines).window, m) then [] else [m]
  {
    hide FedAll, Recognized;
    assert (lines + [m])[..|lines|] == lines;
  }

  lemma FedOne(f: Feed, m: Message)
    ensures FedAll(f, [m]) == Fed(f, m) && Fed(f, m).next == f.next + if Recognized(f.window, m) then 0 else 1
  {
    assert [m][..0] == [];
  }

  lemma FedNone(f: Feed)
    ensures FedAll(f, []) == f
  {
  }

  lemma PickAdds(given: Log, lines: Log, order: seq<nat>, i: nat)
    requires i < |order| && forall k :: 0 <= k < |order| ==> order[k] < |lines|
    ensures given + Pick(lines, order[..i + 1]) == given + Pick(lines, order[..i]) + [lines[order[i]]]
  {
  }

  lemma PickNext(f: Feed, given: Log, lines: Log, order: seq<nat>, i: nat)
    requires i < |order| && forall k :: 0 <= k < |order| ==> order[k] < |lines|
    ensures FedAll(f, given + Pick(lines, order[..i + 1])) ==
              Fed(FedAll(f, given + Pick(lines, order[..i])), lines[order[i]])
    ensures FedAll(f, given + Pick(lines, order[..i + 1])).next ==
            FedAll(f, given + Pick(lines, order[..i])).next +
            if Recognized(FedAll(f, given + Pick(lines, order[..i])).window, lines[order[i]]) then 0 else 1
  {
    hide FedAll, Fed, Recognized;
    assert given + Pick(lines, order[..i]) + [lines[order[i]]] == given + Pick(lines, order[..i + 1]);
    FedNext(f, given + Pick(lines, order[..i]), lines[order[i]]);
  }

  lemma RememberUnkeyed(order: seq<Key>, m: Message)
    ensures KeyOf(m).None? ==> Remember(order, m) == order
  {
  }

  lemma KeyIgnoresSequence(m: Message, sequence: int)
    ensures KeyOf(m.(sequence := sequence)) == KeyOf(m)
  {
  }

  lemma FedNext(f: Feed, lines: Log, m: Message)
    ensures FedAll(f, lines + [m]) == Fed(FedAll(f, lines), m)
    ensures Fed(FedAll(f, lines), m).next == FedAll(f, lines).next +
            if Recognized(FedAll(f, lines).window, m) then 0 else 1
  {
    assert (lines + [m])[..|lines|] == lines;
  }
}
