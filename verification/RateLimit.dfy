/**
 * The sliding-window limiter.  Times are real seconds on a monotonic clock; the limiter keeps, per client,
 * a queue of the times at which a call was let through.
 */
module RateLimit {
  datatype Verdict = Accepted | Limited(retryAfter: int) | Crashed

  /** Python's `int`: towards zero. */
  function Truncate(x: real): int {
    if x >= 0.0 then x.Floor else -((-x).Floor)
  }

  /** The hits left after dropping, from the front, those older than the window. */
  function Evict(hits: seq<real>, now: real, window: int): seq<real> {
    if hits != [] && now - hits[0] > window as real then Evict(hits[1..], now, window) else hits
  }

  /** The verdict on a call, from the hits that remain. */
  function Judge(hits: seq<real>, now: real, limit: int, window: int): Verdict {
    if |hits| < limit then Accepted
    else if hits == [] then Crashed
    else Limited(Truncate(window as real - (now - hits[0])) + 1)
  }

  class SlidingWindowLimiter {
    const limit: int
    const window: int
    var hits: map<string, seq<real>>

    constructor (limit: int, window: int)
      ensures this.limit == limit && this.window == window && hits == map[]
    {
      this.limit, this.window, hits := limit, window, map[];
    }

    /** The queue of a key; a key never seen has an empty one. */
    function Hits(key: string): seq<real>
      reads this
    {
      if key in hits then hits[key] else []
    }

    method Check(key: string, now: real) returns (v: Verdict)
      modifies this`hits
      ensures v == Judge(Evict(old(Hits(key)), now, window), now, limit, window)
      ensures Hits(key) == Evict(old(Hits(key)), now, window) + if v.Accepted? then [now] else []
      ensures forall k | k != key :: Hits(k) == old(Hits(k))
    {
      var queue := Hits(key);
      while queue != [] && now - queue[0] > window as real
        invariant Evict(queue, now, window) == Evict(old(Hits(key)), now, window)
        decreases |queue|
      {
        queue := queue[1..];
      }
      hits := hits[key := queue];
      if |queue| >= limit {
        if queue == [] {
          return Crashed;
        }
        return Limited(Truncate(window as real - (now - queue[0])) + 1);
      }
      hits := hits[key := queue + [now]];
      return Accepted;
    }

    /** Afterwards every key is judged as on a new limiter: let through, whatever it had used up. */
    method Reset()
      modifies this`hits
      ensures forall k :: Hits(k) == []
      ensures limit >= 1 ==> forall k, now :: Judge(Evict(Hits(k), now, window), now, limit, window) == Accepted
    {
      hits := map[];
    }
  }

  /**
   * With a limit below one no call is ever let through; with nothing in the queue the code fails instead of
   * refusing.
   */
  lemma NoRoomAtAll(hits: seq<real>, now: real, limit: int, window: int)
    requires limit <= 0
    ensures var v := Judge(hits, now, limit, window);
            (v == Crashed <==> hits == []) && (v.Limited? <==> hits != [])
  {
  }

  // ---- runs ----

  datatype Call = Call(key: string, time: real)

  /** The queues after a run of calls, and the verdict on each of them. */
  datatype Run = Run(queues: map<string, seq<real>>, verdicts: seq<Verdict>)

  function QueueOf(queues: map<string, seq<real>>, key: string): seq<real> {
    if key in queues then queues[key] else []
  }

  function Serve(queues: map<string, seq<real>>, call: Call, limit: int, window: int)
    : (map<string, seq<real>>, Verdict)
  {
    var queue := Evict(QueueOf(queues, call.key), call.time, window);
    var v := Judge(queue, call.time, limit, window);
    (queues[call.key := queue + if v.Accepted? then [call.time] else []], v)
  }

  function ServeAll(calls: seq<Call>, limit: int, window: int): (r: Run)
    ensures |r.verdicts| == |calls|
    decreases |calls|
  {
    if calls == [] then Run(map[], [])
    else
      var before := ServeAll(calls[..|calls| - 1], limit, window);
      var (queues, v) := Serve(before.queues, calls[|calls| - 1], limit, window);
      Run(queues, before.verdicts + [v])
  }

  ghost predicate Monotonic(calls: seq<Call>) {
    forall i, j | 0 <= i < j < |calls| :: calls[i].time <= calls[j].time
  }

  /** The times of the accepted calls of a key, in order. */
  function AcceptedTimes(calls: seq<Call>, verdicts: seq<Verdict>, key: string): seq<real>
    requires |calls| == |verdicts|
    decreases |calls|
  {
    if calls == [] then []
    else
      var n := |calls| - 1;
      AcceptedTimes(calls[..n], verdicts[..n], key) +
      if calls[n].key == key && verdicts[n].Accepted? then [calls[n].time] else []
  }

  /** How many of the times lie in the closed span from `from` to `to`. */
  function CountIn(times: seq<real>, from: real, to: real): nat
    decreases |times|
  {
    if times == [] then 0
    else CountIn(times[..|times| - 1], from, to) + if from <= times[|times| - 1] <= to then 1 else 0
  }

  /** How many lie in the closed window that ends at `now`. */
  function CountRecent(times: seq<real>, now: real, window: int): nat {
    CountIn(times, now - window as real, now)
  }

  ghost predicate Ordered(times: seq<real>) {
    forall i, j | 0 <= i < j < |times| :: times[i] <= times[j]
  }

  /** Every key has been offered only times up to `now`. */
  ghost predicate UpTo(times: seq<real>, now: real) {
    forall i | 0 <= i < |times| :: times[i] <= now
  }

  // ---- eviction keeps the times still in the window ----

  /** `queue` is `times` without some that are older than the window at `now`. */
  ghost predicate RecentPart(queue: seq<real>, times: seq<real>, now: real, window: int) {
    |queue| <= |times| && queue == times[|times| - |queue|..] &&
    forall i | 0 <= i < |times| - |queue| :: now - times[i] > window as real
  }

  lemma {:induction false} EvictKeepsRecent(queue: seq<real>, times: seq<real>, earlier: real, now: real, window: int)
    requires Ordered(times) && RecentPart(queue, times, earlier, window) && earlier <= now
    ensures RecentPart(Evict(queue, now, window), times, now, window)
    ensures forall i | 0 <= i < |Evict(queue, now, window)| :: now - Evict(queue, now, window)[i] <= window as real
    decreases |queue|
  {
    if queue != [] && now - queue[0] > window as real {
      var dropped := |times| - |queue|;
      assert queue[1..] == times[dropped + 1..];
      assert forall i | 0 <= i < dropped + 1 :: now - times[i] > window as real;
      EvictKeepsRecent(queue[1..], times, now, now, window);
    } else {
      forall i | 0 <= i < |queue| ensures now - queue[i] <= window as real {
        assert queue[i] == times[|times| - |queue| + i] && queue[0] == times[|times| - |queue|];
      }
    }
  }

  /** What is left after eviction is exactly what counts in the closed window ending now. */
  lemma {:induction false} RecentCounts(queue: seq<real>, times: seq<real>, now: real, window: int)
    requires RecentPart(queue, times, now, window) && UpTo(times, now)
    requires forall i | 0 <= i < |queue| :: now - queue[i] <= window as real
    ensures CountRecent(times, now, window) == |queue|
    decreases |times|
  {
    if times != [] {
      var n := |times| - 1;
      if queue == [] {
        assert RecentPart([], times[..n], now, window);
        RecentCounts([], times[..n], now, window);
      } else {
        var rest := queue[..|queue| - 1];
        assert queue[|queue| - 1] == times[n];
        assert rest == times[..n][|times[..n]| - |rest|..];
        RecentCounts(rest, times[..n], now, window);
      }
    }
  }

  // ---- the invariant of a run ----

  lemma {:induction false} TimesAreOrdered(calls: seq<Call>, verdicts: seq<Verdict>, key: string)
    requires |calls| == |verdicts| && Monotonic(calls)
    ensures Ordered(AcceptedTimes(calls, verdicts, key))
    ensures calls != [] ==> UpTo(AcceptedTimes(calls, verdicts, key), calls[|calls| - 1].time)
    ensures calls == [] ==> AcceptedTimes(calls, verdicts, key) == []
    decreases |calls|
  {
    if calls != [] {
      var n := |calls| - 1;
      TimesAreOrdered(calls[..n], verdicts[..n], key);
      if n > 0 {
        assert calls[..n][n - 1].time <= calls[n].time;
      }
    }
  }

  /** A run is its calls but the last, and then the last. */
  lemma LastCall(calls: seq<Call>, call: Call, limit: int, window: int)
    ensures var before, r := ServeAll(calls, limit, window), ServeAll(calls + [call], limit, window);
            var (queues, v) := Serve(before.queues, call, limit, window);
            && r == Run(queues, before.verdicts + [v])
            && forall key :: AcceptedTimes(calls + [call], r.verdicts, key) ==
                 AcceptedTimes(calls, before.verdicts, key) + if call.key == key && v.Accepted? then [call.time] else []
  {
  }

  lemma QueueStep(queues: map<string, seq<real>>, times: seq<real>, call: Call, limit: int, window: int, key: string,
                  now: real)
    requires Ordered(times) && RecentPart(QueueOf(queues, key), times, call.time, window) && call.time <= now
    ensures var (after, v) := Serve(queues, call, limit, window);
            RecentPart(QueueOf(after, key),
                       times + if call.key == key && v.Accepted? then [call.time] else [], now, window)
  {
    if call.key == key {
      EvictKeepsRecent(QueueOf(queues, key), times, call.time, call.time, window);
      LaterStillRecent(Evict(QueueOf(queues, key), call.time, window), times, call.time, now, window);
      assert times + [] == times;
    } else {
      LaterStillRecent(QueueOf(queues, key), times, call.time, now, window);
      assert times + [] == times;
    }
  }

  /** Each queue is the accepted times of its key, short of some that had left the window by the last call. */
  lemma {:induction false} QueuesHoldRecent(calls: seq<Call>, limit: int, window: int, key: string, now: real)
    requires Monotonic(calls) && forall i | 0 <= i < |calls| :: calls[i].time <= now
    ensures var r := ServeAll(calls, limit, window);
            RecentPart(QueueOf(r.queues, key), AcceptedTimes(calls, r.verdicts, key), now, window)
    decreases |calls|
  {
    if calls != [] {
      var rest, call := calls[..|calls| - 1], calls[|calls| - 1];
      var before := ServeAll(rest, limit, window);
      assert calls == rest + [call];
      LastCall(rest, call, limit, window);
      QueuesHoldRecent(rest, limit, window, key, call.time);
      TimesAreOrdered(rest, before.verdicts, key);
      QueueStep(before.queues, AcceptedTimes(rest, before.verdicts, key), call, limit, window, key, now);
    }
  }

  lemma LaterStillRecent(queue: seq<real>, times: seq<real>, earlier: real, now: real, window: int)
    requires RecentPart(queue, times, earlier, window) && earlier <= now
    ensures RecentPart(queue, times, now, window)
    ensures forall t :: RecentPart(queue + [t], times + [t], now, window)
  {
  }

  /** The accepted hits of the call's key in the closed window ending with the call. */
  function RecentHits(calls: seq<Call>, verdicts: seq<Verdict>, call: Call, window: int): nat
    requires |calls| == |verdicts|
  {
    CountRecent(AcceptedTimes(calls, verdicts, call.key), call.time, window)
  }

  lemma TimesUpTo(calls: seq<Call>, call: Call, limit: int, window: int, key: string)
    requires Monotonic(calls + [call])
    ensures UpTo(AcceptedTimes(calls, ServeAll(calls, limit, window).verdicts, key), call.time)
  {
    assert forall i | 0 <= i < |calls| ::
        calls[i] == (calls + [call])[i] && calls[i].time <= (calls + [call])[|calls|].time;
    TimesAreOrdered(calls, ServeAll(calls, limit, window).verdicts, key);
  }

  /** The queue a call is judged by: the recent part of the accepted times, all of it still in the window. */
  lemma JudgedBy(calls: seq<Call>, call: Call, limit: int, window: int)
    requires Monotonic(calls + [call])
    ensures var r := ServeAll(calls, limit, window);
            var queue := Evict(QueueOf(r.queues, call.key), call.time, window);
            && RecentPart(queue, AcceptedTimes(calls, r.verdicts, call.key), call.time, window)
            && forall i | 0 <= i < |queue| :: call.time - queue[i] <= window as real
  {
    var r := ServeAll(calls, limit, window);
    assert forall i | 0 <= i < |calls| :: calls[i] == (calls + [call])[i];
    assert (calls + [call])[|calls|] == call;
    QueuesHoldRecent(calls, limit, window, call.key, call.time);
    TimesAreOrdered(calls, r.verdicts, call.key);
    EvictKeepsRecent(QueueOf(r.queues, call.key), AcceptedTimes(calls, r.verdicts, call.key), call.time, call.time,
                     window);
  }

  /** It is the last accepted times, as many as lie in the window. */
  lemma EvictedQueue(calls: seq<Call>, call: Call, limit: int, window: int)
    requires Monotonic(calls + [call])
    ensures var r := ServeAll(calls, limit, window);
            var times, n := AcceptedTimes(calls, r.verdicts, call.key), RecentHits(calls, r.verdicts, call, window);
            n <= |times| && Evict(QueueOf(r.queues, call.key), call.time, window) == times[|times| - n..]
  {
    var r := ServeAll(calls, limit, window);
    JudgedBy(calls, call, limit, window);
    TimesUpTo(calls, call, limit, window, call.key);
    RecentCounts(Evict(QueueOf(r.queues, call.key), call.time, window), AcceptedTimes(calls, r.verdicts, call.key),
                 call.time, window);
  }

  /**
   * On a clock that never goes back, a call is refused exactly when at least `limit` calls of its key were
   * accepted in the closed window ending now.
   */
  lemma RefusedExactlyWhenFull(calls: seq<Call>, call: Call, limit: int, window: int)
    requires limit >= 1 && Monotonic(calls + [call])
    ensures var r := ServeAll(calls, limit, window);
            var hits := RecentHits(calls, r.verdicts, call, window);
            var v := Serve(r.queues, call, limit, window).1;
            (v.Limited? <==> hits >= limit) && (v.Accepted? <==> hits < limit)
  {
    EvictedQueue(calls, call, limit, window);
  }

  // ---- never more than the limit in any window ----

  lemma {:induction false} WiderCountsMore(times: seq<real>, from: real, to: real, from': real, to': real)
    requires UpTo(times, to') && from' <= from
    ensures CountIn(times, from, to) <= CountIn(times, from', to')
    decreases |times|
  {
    if times != [] {
      WiderCountsMore(times[..|times| - 1], from, to, from', to');
    }
  }

  lemma CountInAppend(times: seq<real>, t: real, from: real, to: real)
    ensures CountIn(times + [t], from, to) == CountIn(times, from, to) + if from <= t <= to then 1 else 0
  {
  }

  /** A call let through inside a span finds fewer than `limit` earlier ones there. */
  lemma RoomForOneMore(calls: seq<Call>, call: Call, limit: int, window: int, from: real)
    requires limit >= 1 && Monotonic(calls + [call])
    requires Serve(ServeAll(calls, limit, window).queues, call, limit, window).1.Accepted?
    requires from <= call.time <= from + window as real
    ensures CountIn(AcceptedTimes(calls, ServeAll(calls, limit, window).verdicts, call.key), from,
                    from + window as real) < limit
  {
    var times := AcceptedTimes(calls, ServeAll(calls, limit, window).verdicts, call.key);
    RefusedExactlyWhenFull(calls, call, limit, window);
    TimesUpTo(calls, call, limit, window, call.key);
    WiderCountsMore(times, from, from + window as real, call.time - window as real, call.time);
  }

  /** Any closed span as long as the window, anywhere on the clock, holds at most `limit` accepted calls of a key. */
  lemma {:induction false} AtMostLimitInAnyWindow(calls: seq<Call>, limit: int, window: int, key: string, from: real)
    requires limit >= 1 && Monotonic(calls)
    ensures CountIn(AcceptedTimes(calls, ServeAll(calls, limit, window).verdicts, key), from,
                    from + window as real) <= limit
    decreases |calls|
  {
    if calls != [] {
      var rest, call := calls[..|calls| - 1], calls[|calls| - 1];
      assert calls == rest + [call];
      var before := ServeAll(rest, limit, window);
      var times := AcceptedTimes(rest, before.verdicts, key);
      LastCall(rest, call, limit, window);
      AtMostLimitInAnyWindow(rest, limit, window, key, from);
      assert times + [] == times;
      CountInAppend(times, call.time, from, from + window as real);
      if call.key == key && Serve(before.queues, call, limit, window).1.Accepted? &&
         from <= call.time <= from + window as real {
        RoomForOneMore(rest, call, limit, window, from);
      }
    }
  }

  /** So the refused calls are those that find exactly `limit` accepted ones in the window. */
  lemma RefusedExactlyAtLimit(calls: seq<Call>, call: Call, limit: int, window: int)
    requires limit >= 1 && Monotonic(calls + [call])
    ensures var r := ServeAll(calls, limit, window);
            var hits := RecentHits(calls, r.verdicts, call, window);
            var v := Serve(r.queues, call, limit, window).1;
            && hits <= limit && (v.Limited? <==> hits == limit) && (v.Accepted? <==> hits < limit)
  {
    RefusedExactlyWhenFull(calls, call, limit, window);
    assert forall i | 0 <= i < |calls| :: calls[i] == (calls + [call])[i];
    AtMostLimitInAnyWindow(calls, limit, window, call.key, call.time - window as real);
  }

  // ---- refusals leave no trace ----

  /** The calls that were let through. */
  function LetThrough(calls: seq<Call>, verdicts: seq<Verdict>): seq<Call>
    requires |calls| == |verdicts|
    decreases |calls|
  {
    if calls == [] then []
    else
      var n := |calls| - 1;
      LetThrough(calls[..n], verdicts[..n]) + if verdicts[n].Accepted? then [calls[n]] else []
  }

  lemma {:induction false} LetThroughIsOrdered(calls: seq<Call>, verdicts: seq<Verdict>, now: real)
    requires |calls| == |verdicts| && Monotonic(calls) && forall i | 0 <= i < |calls| :: calls[i].time <= now
    ensures Monotonic(LetThrough(calls, verdicts))
    ensures forall i | 0 <= i < |LetThrough(calls, verdicts)| :: LetThrough(calls, verdicts)[i].time <= now
    decreases |calls|
  {
    if calls != [] {
      var n := |calls| - 1;
      LetThroughIsOrdered(calls[..n], verdicts[..n], calls[n].time);
    }
  }

  /** Two runs with the same accepted times judge the next call alike, to the second. */
  lemma SameTimesSameVerdict(a: seq<Call>, b: seq<Call>, call: Call, limit: int, window: int)
    requires Monotonic(a + [call]) && Monotonic(b + [call])
    requires AcceptedTimes(a, ServeAll(a, limit, window).verdicts, call.key) ==
             AcceptedTimes(b, ServeAll(b, limit, window).verdicts, call.key)
    ensures Serve(ServeAll(a, limit, window).queues, call, limit, window).1 ==
            Serve(ServeAll(b, limit, window).queues, call, limit, window).1
  {
    EvictedQueue(a, call, limit, window);
    EvictedQueue(b, call, limit, window);
  }

  lemma Extended(calls: seq<Call>, call: Call)
    requires Monotonic(calls) && forall i | 0 <= i < |calls| :: calls[i].time <= call.time
    ensures Monotonic(calls + [call])
  {
  }

  /** Serving only the calls that were let through lets all of them through, with the same accepted times. */
  lemma {:induction false} RefusalsLeaveNoTrace(calls: seq<Call>, limit: int, window: int)
    requires Monotonic(calls)
    ensures var verdicts := ServeAll(calls, limit, window).verdicts;
            var kept := LetThrough(calls, verdicts);
            forall key :: AcceptedTimes(kept, ServeAll(kept, limit, window).verdicts, key) ==
                AcceptedTimes(calls, verdicts, key)
    decreases |calls|
  {
    if calls != [] {
      var rest, call := calls[..|calls| - 1], calls[|calls| - 1];
      var before := ServeAll(rest, limit, window);
      var kept := LetThrough(rest, before.verdicts);
      assert calls == rest + [call];
      LastCall(rest, call, limit, window);
      RefusalsLeaveNoTrace(rest, limit, window);
      LetThroughIsOrdered(rest, before.verdicts, call.time);
      Extended(kept, call);
      assert ServeAll(calls, limit, window).verdicts[..|rest|] == before.verdicts;
      if Serve(before.queues, call, limit, window).1.Accepted? {
        SameTimesSameVerdict(rest, kept, call, limit, window);
        LastCall(kept, call, limit, window);
      } else {
        assert LetThrough(calls, ServeAll(calls, limit, window).verdicts) == kept + [];
        assert kept + [] == kept;
      }
    }
  }

  /** So a refused call changes no later verdict: not whether, and not for how long. */
  lemma RefusalsChangeNothing(calls: seq<Call>, call: Call, limit: int, window: int)
    requires Monotonic(calls + [call])
    ensures var r := ServeAll(calls, limit, window);
            Serve(r.queues, call, limit, window).1 ==
            Serve(ServeAll(LetThrough(calls, r.verdicts), limit, window).queues, call, limit, window).1
  {
    var r := ServeAll(calls, limit, window);
    assert forall i | 0 <= i < |calls| ::
        calls[i] == (calls + [call])[i] && calls[i].time <= (calls + [call])[|calls|].time;
    RefusalsLeaveNoTrace(calls, limit, window);
    LetThroughIsOrdered(calls, r.verdicts, call.time);
    Extended(LetThrough(calls, r.verdicts), call);
    SameTimesSameVerdict(calls, LetThrough(calls, r.verdicts), call, limit, window);
  }

  // ---- the promised wait ----

  /** No queue is ever longer than the limit. */
  lemma {:induction false} QueuesStayShort(calls: seq<Call>, limit: int, window: int, key: string)
    requires limit >= 0
    ensures |QueueOf(ServeAll(calls, limit, window).queues, key)| <= limit
    decreases |calls|
  {
    if calls != [] {
      var rest, call := calls[..|calls| - 1], calls[|calls| - 1];
      QueuesStayShort(rest, limit, window, key);
      EvictShortens(QueueOf(ServeAll(rest, limit, window).queues, key), call.time, window);
    }
  }

  lemma {:induction false} EvictShortens(queue: seq<real>, now: real, window: int)
    ensures |Evict(queue, now, window)| <= |queue|
    ensures queue != [] && now - queue[0] > window as real ==> |Evict(queue, now, window)| < |queue|
    decreases |queue|
  {
    if queue != [] && now - queue[0] > window as real {
      EvictShortens(queue[1..], now, window);
    }
  }

  lemma NextQueues(calls: seq<Call>, call: Call, limit: int, window: int)
    ensures ServeAll(calls + [call], limit, window).queues ==
            Serve(ServeAll(calls, limit, window).queues, call, limit, window).0
  {
  }

  lemma NextQueueOfOthers(calls: seq<Call>, call: Call, limit: int, window: int, key: string)
    requires call.key != key
    ensures QueueOf(ServeAll(calls + [call], limit, window).queues, key) ==
            QueueOf(ServeAll(calls, limit, window).queues, key)
  {
    NextQueues(calls, call, limit, window);
  }

  /** Calls of other keys do not touch this key's queue. */
  lemma {:induction false} OthersDoNotMatter(calls: seq<Call>, others: seq<Call>, limit: int, window: int, key: string)
    requires forall i | 0 <= i < |others| :: others[i].key != key
    ensures QueueOf(ServeAll(calls + others, limit, window).queues, key) ==
            QueueOf(ServeAll(calls, limit, window).queues, key)
    decreases |others|
  {
    if others == [] {
      assert calls + others == calls;
    } else {
      var rest := others[..|others| - 1];
      OthersDoNotMatter(calls, rest, limit, window, key);
      assert calls + others == (calls + rest) + [others[|others| - 1]];
      NextQueueOfOthers(calls + rest, others[|others| - 1], limit, window, key);
    }
  }

  /** On a full queue of recent hits, waiting frees a place exactly when it takes the oldest hit out of the window. */
  lemma {:induction false} WaitFreesAPlace(queue: seq<real>, now: real, wait: real, limit: int, window: int)
    requires |queue| == limit >= 1
    ensures |Evict(queue, now + wait, window)| < limit <==> wait > window as real - (now - queue[0])
  {
    EvictShortens(queue, now + wait, window);
  }

  /** A refused call leaves the evicted queue behind, whatever other keys do next. */
  lemma {:induction false} QueueAfterRefusal(calls: seq<Call>, call: Call, others: seq<Call>, limit: int, window: int)
    requires forall i | 0 <= i < |others| :: others[i].key != call.key
    requires Serve(ServeAll(calls, limit, window).queues, call, limit, window).1.Limited?
    ensures QueueOf(ServeAll(calls + [call] + others, limit, window).queues, call.key) ==
            Evict(QueueOf(ServeAll(calls, limit, window).queues, call.key), call.time, window)
  {
    NextQueues(calls, call, limit, window);
    OthersDoNotMatter(calls + [call], others, limit, window, call.key);
    assert forall queue: seq<real> :: queue + [] == queue;
  }

  lemma {:induction false} RefusedQueueIsFull(calls: seq<Call>, call: Call, limit: int, window: int)
    requires limit >= 1
    requires Serve(ServeAll(calls, limit, window).queues, call, limit, window).1.Limited?
    ensures var queue := Evict(QueueOf(ServeAll(calls, limit, window).queues, call.key), call.time, window);
            |queue| == limit && call.time - queue[0] <= window as real
  {
    QueuesStayShort(calls, limit, window, call.key);
    EvictShortens(QueueOf(ServeAll(calls, limit, window).queues, call.key), call.time, window);
    EvictedFront(QueueOf(ServeAll(calls, limit, window).queues, call.key), call.time, window);
  }

  /** The hit a refused call has to wait for. */
  function Oldest(calls: seq<Call>, call: Call, limit: int, window: int): real
    requires limit >= 1 && Serve(ServeAll(calls, limit, window).queues, call, limit, window).1.Limited?
  {
    Evict(QueueOf(ServeAll(calls, limit, window).queues, call.key), call.time, window)[0]
  }

  /** It is the `limit`-th last accepted one of the key. */
  lemma OldestIsLimitthLast(calls: seq<Call>, call: Call, limit: int, window: int)
    requires limit >= 1 && Monotonic(calls + [call])
    requires Serve(ServeAll(calls, limit, window).queues, call, limit, window).1.Limited?
    ensures var times := AcceptedTimes(calls, ServeAll(calls, limit, window).verdicts, call.key);
            |times| >= limit && Oldest(calls, call, limit, window) == times[|times| - limit]
  {
    EvictedQueue(calls, call, limit, window);
    RefusedExactlyAtLimit(calls, call, limit, window);
  }

  /**
   * After a refusal, with no other call of the key, a call made any time later is let through exactly when the
   * oldest hit has left the window by then, and so whenever the promised time has passed.
   */
  lemma {:induction false} PromiseIsKept(calls: seq<Call>, call: Call, others: seq<Call>, wait: real, limit: int,
                                         window: int)
    requires limit >= 1
    requires forall i | 0 <= i < |others| :: others[i].key != call.key
    requires Serve(ServeAll(calls, limit, window).queues, call, limit, window).1.Limited?
    ensures var v := Serve(ServeAll(calls, limit, window).queues, call, limit, window).1;
            var accepted := Serve(ServeAll(calls + [call] + others, limit, window).queues,
                                  Call(call.key, call.time + wait), limit, window).1.Accepted?;
            && (accepted <==> wait > window as real - (call.time - Oldest(calls, call, limit, window)))
            && (wait >= v.retryAfter as real ==> accepted)
  {
    QueueAfterRefusal(calls, call, others, limit, window);
    RefusedQueueIsFull(calls, call, limit, window);
    WaitFreesAPlace(Evict(QueueOf(ServeAll(calls, limit, window).queues, call.key), call.time, window),
                    call.time, wait, limit, window);
  }

  /** Among waits of whole seconds the promised one is the shortest that could have been promised. */
  lemma {:induction false} PromisedWaitIsExact(calls: seq<Call>, call: Call, others: seq<Call>, seconds: nat,
                                               limit: int, window: int)
    requires limit >= 1
    requires forall i | 0 <= i < |others| :: others[i].key != call.key
    requires Serve(ServeAll(calls, limit, window).queues, call, limit, window).1.Limited?
    ensures var v := Serve(ServeAll(calls, limit, window).queues, call, limit, window).1;
            var later := Call(call.key, call.time + seconds as real);
            Serve(ServeAll(calls + [call] + others, limit, window).queues, later, limit, window).1.Accepted? <==>
            v.retryAfter <= seconds
  {
    RefusedQueueIsFull(calls, call, limit, window);
    PromiseIsKept(calls, call, others, seconds as real, limit, window);
  }

  lemma {:induction false} EvictedFront(queue: seq<real>, now: real, window: int)
    ensures var rest := Evict(queue, now, window);
            rest != [] ==> now - rest[0] <= window as real
    decreases |queue|
  {
    if queue != [] && now - queue[0] > window as real {
      EvictedFront(queue[1..], now, window);
    }
  }
}
