/** The sliding-window rate limiter (gmrag_api/src/rate_limit.rs:199-235).

    Requests are serialised by the limiter's lock, and the clock is read under it, so times never
    decrease. The limiter keeps a pruned queue per key; the log of everything it ever admitted is
    what the queues are measured against. */
module RateLimiter {

  datatype Request = Request(key: string, time: int)

  // ----- The admission log -----

  function TimesOf(log: seq<Request>, key: string): seq<int> {
    if log == [] then []
    else TimesOf(log[..|log| - 1], key) + if log[|log| - 1].key == key then [log[|log| - 1].time] else []
  }

  /** How many of the times lie in `[lo, hi)`. */
  function CountIn(times: seq<int>, lo: int, hi: int): nat {
    if times == [] then 0 else (if lo <= times[0] < hi then 1 else 0) + CountIn(times[1..], lo, hi)
  }

  /** Admissions of `key` that are younger than the window at `now`. */
  function Recent(log: seq<Request>, key: string, now: int, window: nat): nat {
    CountIn(TimesOf(log, key), now - window + 1, now + 1)
  }

  /** What the limiter is for: the log after a sequence of requests. */
  function LogOf(requests: seq<Request>, maxRequests: nat, window: nat): seq<Request> {
    if requests == [] then []
    else
      var log, r := LogOf(requests[..|requests| - 1], maxRequests, window), requests[|requests| - 1];
      if Recent(log, r.key, r.time, window) < maxRequests then log + [r] else log
  }

  predicate Sorted(times: seq<int>) {
    forall i, j | 0 <= i < j < |times| :: times[i] <= times[j]
  }

  predicate InOrder(requests: seq<Request>) {
    forall i, j | 0 <= i < j < |requests| :: requests[i].time <= requests[j].time
  }

  predicate NoLater(requests: seq<Request>, last: int) {
    forall i | 0 <= i < |requests| :: requests[i].time <= last
  }

  // ----- Lemmas -----

  lemma {:induction false} TimesAre(log: seq<Request>, key: string, last: int)
    requires InOrder(log) && NoLater(log, last)
    ensures var times := TimesOf(log, key);
            Sorted(times) && forall i | 0 <= i < |times| :: times[i] <= last
  {
    if log != [] {
      var r := log[|log| - 1];
      TimesAre(log[..|log| - 1], key, r.time);
    }
  }

  lemma {:induction false} CountSplits(a: seq<int>, b: seq<int>, lo: int, hi: int)
    ensures CountIn(a + b, lo, hi) == CountIn(a, lo, hi) + CountIn(b, lo, hi)
  {
    if a == [] {
      assert a + b == b;
    } else {
      assert (a + b)[1..] == a[1..] + b;
      CountSplits(a[1..], b, lo, hi);
    }
  }

  lemma {:induction false} CountNone(times: seq<int>, lo: int, hi: int)
    requires forall i | 0 <= i < |times| :: !(lo <= times[i] < hi)
    ensures CountIn(times, lo, hi) == 0
  {
    if times != [] { CountNone(times[1..], lo, hi); }
  }

  lemma {:induction false} CountAll(times: seq<int>, lo: int, hi: int)
    requires forall i | 0 <= i < |times| :: lo <= times[i] < hi
    ensures CountIn(times, lo, hi) == |times|
  {
    if times != [] { CountAll(times[1..], lo, hi); }
  }

  lemma {:induction false} WiderCountsMore(times: seq<int>, lo: int, hi: int, lo': int, hi': int)
    requires forall i | 0 <= i < |times| && lo <= times[i] < hi :: lo' <= times[i] < hi'
    ensures CountIn(times, lo, hi) <= CountIn(times, lo', hi')
  {
    if times != [] { WiderCountsMore(times[1..], lo, hi, lo', hi'); }
  }

  lemma {:induction false} LogInOrder(requests: seq<Request>, maxRequests: nat, window: nat, last: int)
    requires InOrder(requests) && NoLater(requests, last)
    ensures var log := LogOf(requests, maxRequests, window); InOrder(log) && NoLater(log, last)
  {
    hide Recent;
    if requests != [] {
      LogInOrder(requests[..|requests| - 1], maxRequests, window, requests[|requests| - 1].time);
    }
  }

  lemma TimesAfter(log: seq<Request>, r: Request, key: string)
    ensures TimesOf(log + [r], key) == TimesOf(log, key) + if r.key == key then [r.time] else []
  {
    assert (log + [r])[..|log|] == log;
  }

  // ----- The main results -----

  /** Over any run, every half-open interval of the window's length holds at most `maxRequests`
      admissions of a key. */
  lemma {:induction false} NoIntervalOverflows(requests: seq<Request>, maxRequests: nat, window: nat, key: string,
          start: int)
    requires InOrder(requests)
    ensures CountIn(TimesOf(LogOf(requests, maxRequests, window), key), start, start + window) <= maxRequests
  {
    if requests != [] {
      var before, r := requests[..|requests| - 1], requests[|requests| - 1];
      NoIntervalOverflows(before, maxRequests, window, key, start);
      var log := LogOf(before, maxRequests, window);
      TimesAfter(log, r, key);
      assert TimesOf(log, key) + [] == TimesOf(log, key);
      hide TimesOf;
      if Recent(log, r.key, r.time, window) < maxRequests && r.key == key {
        OneMoreFits(before, r, maxRequests, window, start);
      }
    }
  }

  /** The interval that gets the new admission holds no more than the window before it, and `r`. */
  lemma OneMoreFits(before: seq<Request>, r: Request, maxRequests: nat, window: nat, start: int)
    requires InOrder(before) && NoLater(before, r.time)
    requires Recent(LogOf(before, maxRequests, window), r.key, r.time, window) < maxRequests
    requires CountIn(TimesOf(LogOf(before, maxRequests, window), r.key), start, start + window) <= maxRequests
    ensures CountIn(TimesOf(LogOf(before, maxRequests, window), r.key) + [r.time], start, start + window) <= maxRequests
  {
    hide LogOf, TimesOf;
    var log := LogOf(before, maxRequests, window);
    var times := TimesOf(log, r.key);
    CountSplits(times, [r.time], start, start + window);
    assert [r.time][1..] == [];
    if start <= r.time < start + window {
      LogInOrder(before, maxRequests, window, r.time);
      TimesAre(log, r.key, r.time);
      WiderCountsMore(times, start, start + window, r.time - window + 1, r.time + 1);
    }
  }

  function OnlyKey(requests: seq<Request>, key: string): seq<Request> {
    if requests == [] then []
    else
      OnlyKey(requests[..|requests| - 1], key)
      + if requests[|requests| - 1].key == key then [requests[|requests| - 1]] else []
  }

  lemma LogGrows(before: seq<Request>, r: Request, maxRequests: nat, window: nat)
    ensures var log := LogOf(before, maxRequests, window);
            LogOf(before + [r], maxRequests, window)
            == if Recent(log, r.key, r.time, window) < maxRequests then log + [r] else log
  {
    hide Recent;
    assert (before + [r])[..|before|] == before;
  }

  lemma TimesGrow(log: seq<Request>, r: Request, key: string)
    ensures TimesOf(log + [r], key) == TimesOf(log, key) + if r.key == key then [r.time] else []
  {
    assert (log + [r])[..|log|] == log;
  }

  /** Keys never affect each other: what a key is granted depends on its own requests alone. */
  lemma {:induction false} KeysAreIndependent(requests: seq<Request>, maxRequests: nat, window: nat, key: string)
    ensures TimesOf(LogOf(requests, maxRequests, window), key)
         == TimesOf(LogOf(OnlyKey(requests, key), maxRequests, window), key)
  {
    hide LogOf, TimesOf, Recent;
    if requests == [] {
      assert OnlyKey(requests, key) == requests;
    } else {
      var before, r := requests[..|requests| - 1], requests[|requests| - 1];
      KeysAreIndependent(before, maxRequests, window, key);
      KeyOfOne(before, r, maxRequests, window, key);
      assert requests == before + [r];
    }
  }

  /** One more request does to a key what it does among the key's own requests. */
  lemma KeyOfOne(before: seq<Request>, r: Request, maxRequests: nat, window: nat, key: string)
    requires TimesOf(LogOf(before, maxRequests, window), key)
          == TimesOf(LogOf(OnlyKey(before, key), maxRequests, window), key)
    ensures TimesOf(LogOf(before + [r], maxRequests, window), key)
         == TimesOf(LogOf(OnlyKey(before + [r], key), maxRequests, window), key)
  {
    var own := OnlyKey(before, key);
    assert (before + [r])[..|before|] == before;
    LogGrows(before, r, maxRequests, window);
    TimesGrow(LogOf(before, maxRequests, window), r, key);
    if r.key == key {
      assert OnlyKey(before + [r], key) == own + [r];
      LogGrows(own, r, maxRequests, window);
      TimesGrow(LogOf(own, maxRequests, window), r, key);
    } else {
      assert OnlyKey(before + [r], key) == own;
    }
  }

  // ----- The limiter -----

  /** The queue of a key is the log of its admissions without a stale prefix. */
  ghost predicate QueueFits(queue: seq<int>, times: seq<int>, last: int, window: nat) {
    exists d: nat :: d <= |times| && queue == times[d..] && forall i | 0 <= i < d :: last - times[i] >= window
  }

  function QueueOf(state: map<string, seq<int>>, key: string): seq<int> {
    if key in state then state[key] else []
  }

  ghost predicate StateFits(state: map<string, seq<int>>, log: seq<Request>, last: int, window: nat) {
    forall key :: QueueFits(QueueOf(state, key), TimesOf(log, key), last, window)
  }

  class SlidingWindowRateLimiter {
    const maxRequests: nat
    const window: nat
    var state: map<string, seq<int>>
    ghost var requests: seq<Request>
    ghost var last: int

    ghost predicate Valid() reads this {
      && InOrder(requests) && NoLater(requests, last)
      && StateFits(state, LogOf(requests, maxRequests, window), last, window)
    }

    constructor (maxRequests: nat, window: nat)
      ensures Valid() && requests == [] && this.maxRequests == maxRequests && this.window == window
    {
      this.maxRequests, this.window := maxRequests, window;
      state, requests := map[], [];
      new;
      forall key ensures QueueFits(QueueOf(state, key), TimesOf([], key), last, window) {
        assert TimesOf([], key)[0..] == [];
      }
    }

    /** `saturating_duration_since`. */
    function Age(now: int, seen: int): nat {
      if now >= seen then now - seen else 0
    }

    /** `allow`: the request is admitted if and only if fewer than `maxRequests` admissions of its key
        are younger than the window. */
    method Allow(key: string, now: int) returns (ok: bool)
      requires Valid() && now >= last
      modifies this
      ensures Valid() && last == now && requests == old(requests) + [Request(key, now)]
      ensures ok <==> Recent(LogOf(old(requests), maxRequests, window), key, now, window) < maxRequests
      ensures LogOf(requests, maxRequests, window)
           == LogOf(old(requests), maxRequests, window) + if ok then [Request(key, now)] else []
    {
      hide Recent, LogOf, TimesOf, QueueFits, StateFits;
      ghost var log := LogOf(requests, maxRequests, window);
      LogInOrder(requests, maxRequests, window, last);
      var queue := Pruned(key, now, log);
      ok := |queue| < maxRequests;
      if ok { queue := queue + [now]; }
      StateStillFits(state, log, last, key, now, window, queue, ok);
      LogAfter(requests, Request(key, now), maxRequests, window);
      assert log + [] == log;
      state := state[key := queue];
      requests := requests + [Request(key, now)];
      last := now;
    }

    /** The queue of a key without the admissions that have left the window. */
    method Pruned(key: string, now: int, ghost log: seq<Request>) returns (queue: seq<int>)
      requires StateFits(state, log, last, window) && InOrder(log) && NoLater(log, last) && now >= last
      ensures QueueFits(queue, TimesOf(log, key), now, window) && |queue| == Recent(log, key, now, window)
    {
      hide Recent, TimesOf;
      queue := if key in state then state[key] else [];
      assert QueueFits(QueueOf(state, key), TimesOf(log, key), last, window);
      ghost var times := TimesOf(log, key);
      TimesAre(log, key, last);
      ghost var d: nat := StalePart(queue, times, last, window);
      while queue != [] && Age(now, queue[0]) >= window
        invariant d <= |times| && queue == times[d..]
        invariant forall i | 0 <= i < d :: now - times[i] >= window
        decreases |queue|
      {
        assert queue[0] == times[d] && times[d..][1..] == times[d + 1..];
        queue := queue[1..];
        d := d + 1;
      }
      RecentIsQueue(log, key, times, d, now, window);
    }
  }

  lemma StateStillFits(state: map<string, seq<int>>, log: seq<Request>, last: int, key: string, now: int, window: nat,
          queue: seq<int>, ok: bool)
    requires StateFits(state, log, last, window) && last <= now
    requires ok ==>
        queue != [] && queue[|queue| - 1] == now && QueueFits(queue[..|queue| - 1], TimesOf(log, key), now, window)
    requires !ok ==> QueueFits(queue, TimesOf(log, key), now, window)
    ensures StateFits(state[key := queue], if ok then log + [Request(key, now)] else log, now, window)
  {
    hide TimesOf, QueueFits;
    var after := if ok then log + [Request(key, now)] else log;
    forall k ensures QueueFits(QueueOf(state[key := queue], k), TimesOf(after, k), now, window) {
      TimesAfter(log, Request(key, now), k);
      if k != key {
        assert TimesOf(log, k) + [] == TimesOf(log, k);
        assert QueueFits(QueueOf(state, k), TimesOf(log, k), last, window);
        StaleStaysStale(QueueOf(state, k), TimesOf(log, k), last, now, window);
      } else if ok {
        assert queue == queue[..|queue| - 1] + [now];
        QueueStillFits(queue[..|queue| - 1], TimesOf(log, key), [now], now, window);
      }
    }
  }

  lemma LogAfter(requests: seq<Request>, r: Request, maxRequests: nat, window: nat)
    ensures var log := LogOf(requests, maxRequests, window);
            LogOf(requests + [r], maxRequests, window)
            == if Recent(log, r.key, r.time, window) < maxRequests then log + [r] else log
  {
    assert (requests + [r])[..|requests|] == requests;
  }

  lemma StalePart(queue: seq<int>, times: seq<int>, last: int, window: nat) returns (d: nat)
    requires QueueFits(queue, times, last, window)
    ensures d <= |times| && queue == times[d..] && forall i | 0 <= i < d :: last - times[i] >= window
  {
    d :| d <= |times| && queue == times[d..] && forall i | 0 <= i < d :: last - times[i] >= window;
  }

  lemma QueueStillFits(queue: seq<int>, times: seq<int>, more: seq<int>, now: int, window: nat)
    requires QueueFits(queue, times, now, window)
    ensures QueueFits(queue + more, times + more, now, window)
  {
    var d := StalePart(queue, times, now, window);
    assert queue + more == (times + more)[d..];
  }

  lemma StaleStaysStale(queue: seq<int>, times: seq<int>, last: int, now: int, window: nat)
    requires QueueFits(queue, times, last, window) && last <= now
    ensures QueueFits(queue, times, now, window)
  {
    var d: nat :| d <= |times| && queue == times[d..] && forall i | 0 <= i < d :: last - times[i] >= window;
    assert forall i | 0 <= i < d :: now - times[i] >= window;
  }

  lemma RecentIsQueue(log: seq<Request>, key: string, times: seq<int>, d: nat, now: int, window: nat)
    requires times == TimesOf(log, key)
    requires Sorted(times) && d <= |times| && forall i | 0 <= i < |times| :: times[i] <= now
    requires forall i | 0 <= i < d :: now - times[i] >= window
    requires d < |times| ==> now - times[d] < window
    ensures Recent(log, key, now, window) == |times| - d
  {
    hide TimesOf;
    assert times == times[..d] + times[d..];
    CountSplits(times[..d], times[d..], now - window + 1, now + 1);
    CountNone(times[..d], now - window + 1, now + 1);
    assert forall i | d < i < |times| :: times[d] <= times[i];
    CountAll(times[d..], now - window + 1, now + 1);
  }
}
