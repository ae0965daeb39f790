/** Sliding-window limits: desktop notifications and CTCP requests. */
module RateLimits {
  import opened Text
  import opened Names

  /** In seconds. */
  const WINDOW := 10
  const BURST_LIMIT := 5
  const MAX_PER_WINDOW := 5
  const MAX_PER_USER := 2

  ghost predicate Ascending(times: seq<int>) {
    forall i, j :: 0 <= i < j < |times| ==> times[i] <= times[j]
  }

  /** Any `n` + 1 consecutive events take a whole window. */
  ghost predicate Spread(times: seq<int>, n: nat) {
    forall i :: 0 <= i && i + n < |times| ==> times[i] + WINDOW <= times[i + n]
  }

  /** The number of events in the half-open window that starts at `t`. */
  function CountWithin(times: seq<int>, t: int): nat {
    if times == [] then 0
    else CountWithin(times[..|times| - 1], t) + if t <= times[|times| - 1] < t + WINDOW then 1 else 0
  }

  /** Each event is counted once, by its place. */
  lemma {:induction false} CountMeans(times: seq<int>, t: int)
    ensures CountWithin(times, t) == |Within(times, t)|
  {
    if times != [] {
      var n := |times| - 1;
      CountMeans(times[..n], t);
      assert Within(times, t) ==
               if t <= times[n] < t + WINDOW then Within(times[..n], t) + {n} else Within(times[..n], t);
    }
  }

  ghost function Within(times: seq<int>, t: int): set<int> {
    set i | 0 <= i < |times| && t <= times[i] < t + WINDOW
  }

  lemma {:induction false} CountAfter(times: seq<int>, t: int, k: nat)
    requires k <= |times| && forall i :: 0 <= i < k ==> times[i] < t
    ensures CountWithin(times, t) <= |times| - k
  {
    if k < |times| {
      CountAfter(times[..|times| - 1], t, k);
    } else if k > 0 {
      CountAfter(times[..|times| - 1], t, k - 1);
    }
  }

  /** Every half-open window holds at most `n` events. */
  lemma {:induction false} AtMost(times: seq<int>, n: nat, t: int)
    requires Ascending(times) && Spread(times, n)
    ensures CountWithin(times, t) <= n
  {
    if |times| <= n {
      CountAfter(times, t, 0);
    } else {
      var last := |times| - 1;
      assert times[last - n] + WINDOW <= times[last];
      if t <= times[last] < t + WINDOW {
        CountAfter(times, t, |times| - n);
      } else {
        AtMost(times[..last], n, t);
      }
    }
  }

  /** Fewer than `n` of the events are less than a window before `now`. */
  ghost predicate Room(times: seq<int>, n: nat, now: int)
    requires n > 0
  {
    |times| < n || times[|times| - n] + WINDOW <= now
  }

  lemma SpreadNext(times: seq<int>, n: nat, now: int)
    requires n > 0 && Ascending(times) && Spread(times, n) && Room(times, n, now)
    requires times != [] ==> times[|times| - 1] <= now
    ensures Ascending(times + [now]) && Spread(times + [now], n)
  {
  }

  /** `live` are the last of `times`; those before them left the window. */
  ghost predicate LiveAt(times: seq<int>, live: seq<int>, now: int) {
    |live| <= |times| && live == times[|times| - |live|..] &&
    forall i :: 0 <= i < |times| - |live| ==> times[i] + WINDOW <= now
  }

  lemma LiveLater(times: seq<int>, live: seq<int>, before: int, now: int)
    requires LiveAt(times, live, before) && before <= now
    ensures LiveAt(times, live, now)
    ensures live != [] && live[0] + WINDOW <= now ==> LiveAt(times, live[1..], now)
  {
  }

  lemma LiveNext(times: seq<int>, live: seq<int>, now: int)
    requires LiveAt(times, live, now)
    ensures LiveAt(times + [now], live + [now], now)
  {
  }

  /** Once no live event is stale, counting them decides whether there is
      room. */
  lemma CountDecides(times: seq<int>, live: seq<int>, n: nat, now: int)
    requires n > 0 && LiveAt(times, live, now) && Ascending(times)
    requires live != [] ==> now < live[0] + WINDOW
    ensures |live| < n <==> Room(times, n, now)
  {
    if n <= |live| {
      assert times[|times| - n] == live[|live| - n];
      assert live[0] == times[|times| - |live|];
    }
  }

  // ---------- Notifications ----------

  class BurstLimiter {
    var sent: seq<int>
    /** Every admitted instant, and the last one asked about. */
    ghost var admitted: seq<int>
    ghost var last: int

    ghost predicate Valid()
      reads this
    {
      Ascending(admitted) && Spread(admitted, BURST_LIMIT) && LiveAt(admitted, sent, last) &&
      (admitted != [] ==> admitted[|admitted| - 1] <= last)
    }

    constructor (ghost now: int)
      ensures Valid() && admitted == [] && last == now
    {
      sent, admitted, last := [], [], now;
    }

    method Allow(now: int) returns (ok: bool)
      requires Valid() && last <= now
      modifies this
      ensures Valid() && last == now
      ensures ok <==> Room(old(admitted), BURST_LIMIT, now)
      ensures admitted == if ok then old(admitted) + [now] else old(admitted)
    {
      hide Ascending, Spread, LiveAt, Room;
      LiveLater(admitted, sent, last, now);
      last := now;
      while sent != [] && now - sent[0] >= WINDOW
        invariant last == now && admitted == old(admitted) && LiveAt(admitted, sent, now)
        decreases |sent|
      {
        LiveLater(admitted, sent, now, now);
        sent := sent[1..];
      }
      CountDecides(admitted, sent, BURST_LIMIT, now);
      if |sent| >= BURST_LIMIT {
        return false;
      }
      SpreadNext(admitted, BURST_LIMIT, now);
      LiveNext(admitted, sent, now);
      sent := sent + [now];
      admitted := admitted + [now];
      return true;
    }
  }

  // ---------- CTCP requests ----------

  datatype Admission = Admitted | Refused | Muted

  /** One admitted request: whose, and when. */
  datatype Request = Request(user: string, at: int)

  ghost function Times(log: seq<Request>): seq<int> {
    seq(|log|, i requires 0 <= i < |log| => log[i].at)
  }

  ghost function TimesOf(log: seq<Request>, user: string): seq<int> {
    if log == [] then []
    else TimesOf(log[..|log| - 1], user) + if log[|log| - 1].user == user then [log[|log| - 1].at] else []
  }

  /** The instants less than a window before `now`. */
  function Keep(times: seq<int>, now: int): seq<int> {
    if times == [] then []
    else Keep(times[..|times| - 1], now) + if now - times[|times| - 1] < WINDOW then [times[|times| - 1]] else []
  }

  lemma {:induction false} TimesOfSum(a: seq<Request>, b: seq<Request>, user: string)
    ensures TimesOf(a + b, user) == TimesOf(a, user) + TimesOf(b, user)
    decreases |b|
  {
    if b == [] {
      assert a + b == a;
    } else {
      assert (a + b)[..|a + b| - 1] == a + b[..|b| - 1];
      TimesOfSum(a, b[..|b| - 1], user);
    }
  }

  lemma {:induction false} KeepSum(a: seq<int>, b: seq<int>, now: int)
    ensures Keep(a + b, now) == Keep(a, now) + Keep(b, now)
    decreases |b|
  {
    if b == [] {
      assert a + b == a;
    } else {
      assert (a + b)[..|a + b| - 1] == a + b[..|b| - 1];
      KeepSum(a, b[..|b| - 1], now);
    }
  }

  ghost predicate InOrder(log: seq<Request>) {
    forall i, j :: 0 <= i < j < |log| ==> log[i].at <= log[j].at
  }

  /** The instants of one user are in order and no later than `now`. */
  lemma {:induction false} TimesOfInOrder(log: seq<Request>, user: string, now: int)
    requires InOrder(log) && (log != [] ==> log[|log| - 1].at <= now)
    ensures Ascending(TimesOf(log, user))
    ensures forall i :: 0 <= i < |TimesOf(log, user)| ==> TimesOf(log, user)[i] <= now
  {
    if log != [] {
      TimesOfInOrder(log[..|log| - 1], user, log[|log| - 1].at);
    }
  }

  lemma {:induction false} TimesOfStale(log: seq<Request>, user: string, now: int)
    requires forall i :: 0 <= i < |log| ==> log[i].at + WINDOW <= now
    ensures forall i :: 0 <= i < |TimesOf(log, user)| ==> TimesOf(log, user)[i] + WINDOW <= now
  {
    if log != [] {
      TimesOfStale(log[..|log| - 1], user, now);
    }
  }

  lemma {:induction false} TimesOfFresh(log: seq<Request>, user: string, now: int)
    requires forall i :: 0 <= i < |log| ==> now < log[i].at + WINDOW
    ensures forall i :: 0 <= i < |TimesOf(log, user)| ==> now < TimesOf(log, user)[i] + WINDOW
  {
    if log != [] {
      TimesOfFresh(log[..|log| - 1], user, now);
    }
  }

  lemma {:induction false} KeepNone(times: seq<int>, now: int)
    requires forall i :: 0 <= i < |times| ==> times[i] + WINDOW <= now
    ensures Keep(times, now) == []
  {
    if times != [] {
      KeepNone(times[..|times| - 1], now);
    }
  }

  lemma {:induction false} KeepAll(times: seq<int>, now: int)
    requires forall i :: 0 <= i < |times| ==> now < times[i] + WINDOW
    ensures Keep(times, now) == times
  {
    if times != [] {
      KeepAll(times[..|times| - 1], now);
    }
  }

  /** `live` are the last requests of `log`; those before them left the
      window. */
  ghost predicate LogAt(log: seq<Request>, live: seq<Request>, now: int) {
    InOrder(log) && (log != [] ==> log[|log| - 1].at <= now) &&
    |live| <= |log| && live == log[|log| - |live|..] &&
    forall i :: 0 <= i < |log| - |live| ==> log[i].at + WINDOW <= now
  }

  ghost predicate AllFresh(live: seq<Request>, now: int) {
    forall i :: 0 <= i < |live| ==> now < live[i].at + WINDOW
  }

  /** Each user's queue holds the instants of that user's live requests, and
      no queue is empty. */
  ghost predicate Queues(perUser: map<string, seq<int>>, live: seq<Request>) {
    (forall u :: u in perUser ==> perUser[u] == TimesOf(live, u) && perUser[u] != []) &&
    forall u :: TimesOf(live, u) != [] ==> u in perUser
  }

  ghost predicate SpreadPerUser(log: seq<Request>) {
    forall u :: Spread(TimesOf(log, u), MAX_PER_USER)
  }

  /** Time passes. */
  lemma LogLater(log: seq<Request>, live: seq<Request>, before: int, now: int)
    requires LogAt(log, live, before) && before <= now
    ensures LogAt(log, live, now)
  {
  }

  /** A stale request at the front may go, and when the front is fresh all
      requests are. */
  lemma OldestDecides(log: seq<Request>, live: seq<Request>, now: int)
    requires LogAt(log, live, now)
    ensures Times(live) == [] ==> AllFresh(live, now)
    ensures Times(live) != [] && now - Times(live)[0] < WINDOW ==> AllFresh(live, now)
    ensures
      Times(live) != [] && now - Times(live)[0] >= WINDOW ==>
        live != [] && LogAt(log, live[1..], now) && Times(live[1..]) == Times(live)[1..]
  {
    assert InOrder(live);
  }

  lemma LogTimes(log: seq<Request>, live: seq<Request>, now: int)
    requires LogAt(log, live, now)
    ensures LiveAt(Times(log), Times(live), now) && Ascending(Times(log))
    ensures Times(log) != [] ==> Times(log)[|Times(log)| - 1] <= now
  {
  }

  lemma UserTimes(log: seq<Request>, live: seq<Request>, u: string, now: int)
    requires LogAt(log, live, now)
    ensures LiveAt(TimesOf(log, u), TimesOf(live, u), now) && Ascending(TimesOf(log, u))
    ensures TimesOf(log, u) != [] ==> TimesOf(log, u)[|TimesOf(log, u)| - 1] <= now
  {
    hide TimesOf, Ascending;
    var gone := log[..|log| - |live|];
    assert log == gone + live;
    TimesOfSum(gone, live, u);
    TimesOfStale(gone, u, now);
    TimesOfInOrder(log, u, now);
  }

  /** Keeping what is fresh in each queue matches dropping what is stale from
      the front of all requests. */
  lemma QueuesLater(perUser: map<string, seq<int>>, log: seq<Request>, live: seq<Request>, rest: seq<Request>, now: int)
    requires Queues(perUser, live) && LogAt(log, live, now) && LogAt(log, rest, now) && |rest| <= |live|
    requires AllFresh(rest, now)
    ensures Queues(KeepQueues(perUser, now), rest)
  {
    hide Keep, TimesOf, LogAt;
    forall u
      ensures Keep(TimesOf(live, u), now) == TimesOf(rest, u)
    {
      QueueLater(log, live, rest, u, now);
    }
    KeepNothing(now);
    forall u | TimesOf(rest, u) != []
      ensures u in KeepQueues(perUser, now)
    {
      assert Keep(TimesOf(live, u), now) != [];
    }
  }

  /** The queues with what is fresh, without the empty ones. */
  function KeepQueues(perUser: map<string, seq<int>>, now: int): map<string, seq<int>> {
    map u | u in perUser && Keep(perUser[u], now) != [] :: Keep(perUser[u], now)
  }

  lemma KeepNothing(now: int)
    ensures Keep([], now) == []
  {
  }

  lemma QueueLater(log: seq<Request>, live: seq<Request>, rest: seq<Request>, u: string, now: int)
    requires LogAt(log, live, now) && LogAt(log, rest, now) && |rest| <= |live|
    requires AllFresh(rest, now)
    ensures Keep(TimesOf(live, u), now) == TimesOf(rest, u)
  {
    hide Keep, TimesOf;
    var gone := live[..|live| - |rest|];
    assert live == gone + rest;
    TimesOfSum(gone, rest, u);
    assert forall i :: 0 <= i < |gone| ==> gone[i] == log[|log| - |live| + i];
    TimesOfStale(gone, u, now);
    TimesOfFresh(rest, u, now);
    KeepSum(TimesOf(gone, u), TimesOf(rest, u), now);
    KeepNone(TimesOf(gone, u), now);
    KeepAll(TimesOf(rest, u), now);
  }

  /** One more admitted request. */
  lemma LogNext(log: seq<Request>, live: seq<Request>, key: string, now: int)
    requires LogAt(log, live, now)
    ensures
      var x := Request(key, now);
      && LogAt(log + [x], live + [x], now)
      && Times(log + [x]) == Times(log) + [now] && Times(live + [x]) == Times(live) + [now]
  {
  }

  lemma TimesOfNext(log: seq<Request>, key: string, now: int, u: string)
    ensures TimesOf(log + [Request(key, now)], u) == if u == key then TimesOf(log, u) + [now] else TimesOf(log, u)
  {
    assert (log + [Request(key, now)])[..|log|] == log;
  }

  lemma SpreadPerUserNext(log: seq<Request>, live: seq<Request>, key: string, now: int)
    requires LogAt(log, live, now) && SpreadPerUser(log) && Room(TimesOf(log, key), MAX_PER_USER, now)
    ensures SpreadPerUser(log + [Request(key, now)])
  {
    hide Spread, Ascending, Room, TimesOf, LogAt;
    UserTimes(log, live, key, now);
    SpreadNext(TimesOf(log, key), MAX_PER_USER, now);
    forall u
      ensures Spread(TimesOf(log + [Request(key, now)], u), MAX_PER_USER)
    {
      TimesOfNext(log, key, now, u);
    }
  }

  lemma QueuesNext(perUser: map<string, seq<int>>, live: seq<Request>, key: string, now: int)
    requires Queues(perUser, live)
    ensures Queues(perUser[key := (if key in perUser then perUser[key] else []) + [now]], live + [Request(key, now)])
  {
    hide TimesOf;
    forall u
      ensures TimesOf(live + [Request(key, now)], u) == if u == key then TimesOf(live, u) + [now] else TimesOf(live, u)
    {
      TimesOfNext(live, key, now, u);
    }
  }

  lemma NothingAdmitted(now: int)
    ensures LogAt([], [], now) && Queues(map[], []) && SpreadPerUser([]) && Times([]) == []
    ensures Ascending([]) && Spread([], MAX_PER_WINDOW) && Spread([], 1)
  {
  }

  class Budget {
    var recent: seq<int>
    var perUser: map<string, seq<int>>
    /** When a refusal was last reported. */
    var reported: Option<int>
    /** Every admitted request, those still in the window, every reported
        refusal, and the last instant asked about. */
    ghost var log: seq<Request>
    ghost var live: seq<Request>
    ghost var reports: seq<int>
    ghost var last: int

    ghost predicate Valid()
      reads this
    {
      && LogAt(log, live, last) && recent == Times(live) && Queues(perUser, live)
      && Spread(Times(log), MAX_PER_WINDOW) && SpreadPerUser(log)
      && Ascending(reports) && Spread(reports, 1) && (reports != [] ==> reports[|reports| - 1] <= last)
      && reported == if reports == [] then None else Some(reports[|reports| - 1])
    }

    constructor (ghost now: int)
      ensures Valid() && log == [] && reports == [] && last == now
    {
      hide LogAt, Queues, Spread, SpreadPerUser, Ascending, Times;
      recent, perUser, reported := [], map[], None;
      log, live, reports, last := [], [], [], now;
      NothingAdmitted(now);
    }

    method Admit(sender: string, now: int) returns (r: Admission)
      requires Valid() && last <= now
      modifies this
      ensures Valid() && last == now
      ensures r.Admitted? <==>
                Room(Times(old(log)), MAX_PER_WINDOW, now) &&
                Room(TimesOf(old(log), NicknameKey(sender)), MAX_PER_USER, now)
      ensures r.Refused? <==> !r.Admitted? && Room(old(reports), 1, now)
      ensures log == if r.Admitted? then old(log) + [Request(NicknameKey(sender), now)] else old(log)
      ensures reports == if r.Refused? then old(reports) + [now] else old(reports)
    {
      hide LogAt, Queues, Spread, SpreadPerUser, Ascending, TimesOf, Times, LiveAt, AllFresh;
      Forget(now);
      var key := NicknameKey(sender);
      var used := if key in perUser then |perUser[key]| else 0;
      UsedCount(perUser, live, key);
      Decide(log, live, key, now);
      if |recent| >= MAX_PER_WINDOW || used >= MAX_PER_USER {
        if reported.Some? && now - reported.value < WINDOW {
          return Muted;
        }
        SpreadNext(reports, 1, now);
        reported := Some(now);
        reports := reports + [now];
        return Refused;
      }
      Record(key, now);
      return Admitted;
    }

    method Record(key: string, now: int)
      requires Valid() && last == now
      requires Room(Times(log), MAX_PER_WINDOW, now) && Room(TimesOf(log, key), MAX_PER_USER, now)
      modifies this`recent, this`perUser, this`log, this`live
      ensures Valid() && log == old(log) + [Request(key, now)]
    {
      hide LogAt, Queues, Spread, SpreadPerUser, Ascending, TimesOf, Times, LiveAt, Room;
      LogNext(log, live, key, now);
      LogTimes(log, live, now);
      SpreadPerUserNext(log, live, key, now);
      QueuesNext(perUser, live, key, now);
      SpreadNext(Times(log), MAX_PER_WINDOW, now);
      recent := recent + [now];
      perUser := perUser[key := (if key in perUser then perUser[key] else []) + [now]];
      log, live := log + [Request(key, now)], live + [Request(key, now)];
    }

    /** Forgets what left the window. */
    method Forget(now: int)
      requires Valid() && last <= now
      modifies this`recent, this`perUser, this`live, this`last
      ensures Valid() && last == now
      ensures AllFresh(live, now)
    {
      hide Queues, Spread, SpreadPerUser, Ascending, Times, TimesOf, LogAt, KeepQueues, AllFresh;
      ghost var before := live;
      LogLater(log, live, last, now);
      last := now;
      while recent != [] && now - recent[0] >= WINDOW
        invariant last == now && perUser == old(perUser) && |live| <= |before|
        invariant LogAt(log, live, now) && recent == Times(live)
        decreases |recent|
      {
        OldestDecides(log, live, now);
        recent, live := recent[1..], live[1..];
      }
      OldestDecides(log, live, now);
      QueuesLater(perUser, log, before, live, now);
      perUser := KeepQueues(perUser, now);
    }
  }

  lemma UsedCount(perUser: map<string, seq<int>>, live: seq<Request>, key: string)
    requires Queues(perUser, live)
    ensures (if key in perUser then |perUser[key]| else 0) == |TimesOf(live, key)|
  {
  }

  /** Counting the live requests decides whether there is room for one more,
      in total and of one user. */
  lemma Decide(log: seq<Request>, live: seq<Request>, key: string, now: int)
    requires LogAt(log, live, now) && AllFresh(live, now)
    ensures |live| < MAX_PER_WINDOW <==> Room(Times(log), MAX_PER_WINDOW, now)
    ensures |TimesOf(live, key)| < MAX_PER_USER <==> Room(TimesOf(log, key), MAX_PER_USER, now)
    ensures |Times(live)| == |live|
  {
    hide LiveAt, TimesOf, LogAt, Ascending, Room;
    LogTimes(log, live, now);
    CountDecides(Times(log), Times(live), MAX_PER_WINDOW, now);
    UserTimes(log, live, key, now);
    TimesOfFresh(live, key, now);
    CountDecides(TimesOf(log, key), TimesOf(live, key), MAX_PER_USER, now);
  }
}
