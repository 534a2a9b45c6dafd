/**
 What the limiter guarantees over whole runs, stated against histories that are never pruned.
 Operations on any number of keys, and sweeps, may be interleaved in any way.
 */
module RateLimiterRuns {
  import opened RateLimiter

  datatype Op =
    | Request(key: string, max: int, duration: int, at: int)
    | Reserve(key: string, max: int, duration: int, at: int)
    | Finalize(key: string, token: nat, success: bool, at: int)
    | Sweep(at: int)

  function After(s: State, op: Op, expiration: int): State {
    match op
    case Request(key, max, duration, now) => RequestStep(s, key, max, duration, now).0
    case Reserve(key, max, duration, now) => ReserveStep(s, key, max, duration, now).0
    case Finalize(key, token, success, now) => FinalizeStep(s, key, token, success, now)
    case Sweep(now) => SweepStep(s, expiration, now)
  }

  function Replay(h: seq<Op>, expiration: int): State {
    if h == [] then EMPTY else After(Replay(Init(h), expiration), Last(h), expiration)
  }

  function Init(h: seq<Op>): seq<Op>
    requires h != []
  {
    h[..|h| - 1]
  }

  function Last(h: seq<Op>): Op
    requires h != []
  {
    h[|h| - 1]
  }

  /** The clock does not go backwards. */
  ghost predicate Ordered(h: seq<Op>) {
    forall i, j :: 0 <= i < j < |h| ==> h[i].at <= h[j].at
  }

  predicate Touches(op: Op, key: string) {
    !op.Sweep? && op.key == key
  }

  // ----- one key at a time -----

  lemma RequestElsewhere(s: State, other: string, max: int, duration: int, now: int, key: string)
    requires other != key
    ensures RequestStep(s, other, max, duration, now).0.Queue(key) == s.Queue(key)
    ensures RequestStep(s, other, max, duration, now).0.Pending(key) == s.Pending(key)
  {
  }

  lemma TrimElsewhere(s: State, other: string, duration: int, now: int, key: string)
    requires other != key
    ensures Trimmed(s, other, duration, now).Queue(key) == s.Queue(key)
    ensures Trimmed(s, other, duration, now).Pending(key) == s.Pending(key)
  {
  }

  lemma ReserveElsewhere(s: State, other: string, max: int, duration: int, now: int, key: string)
    requires other != key
    ensures ReserveStep(s, other, max, duration, now).0.Queue(key) == s.Queue(key)
    ensures ReserveStep(s, other, max, duration, now).0.Pending(key) == s.Pending(key)
  {
    TrimElsewhere(s, other, duration, now, key);
  }

  lemma FinalizeElsewhere(s: State, other: string, token: nat, success: bool, now: int, key: string)
    requires other != key
    ensures FinalizeStep(s, other, token, success, now).Queue(key) == s.Queue(key)
    ensures FinalizeStep(s, other, token, success, now).Pending(key) == s.Pending(key)
  {
  }

  /** An operation on another key leaves this key's queue and reservations alone. */
  lemma OtherKeysUntouched(s: State, op: Op, key: string, expiration: int)
    requires !op.Sweep? && op.key != key
    ensures After(s, op, expiration).Queue(key) == s.Queue(key)
    ensures After(s, op, expiration).Pending(key) == s.Pending(key)
  {
    match op {
      case Request(other, max, duration, now) => RequestElsewhere(s, other, max, duration, now, key);
      case Reserve(other, max, duration, now) => ReserveElsewhere(s, other, max, duration, now, key);
      case Finalize(other, token, success, now) => FinalizeElsewhere(s, other, token, success, now, key);
    }
  }

  lemma SweepOnKey(s: State, now: int, key: string, expiration: int)
    ensures SweepStep(s, expiration, now).Queue(key) ==
            if Stale(s.Queue(key), now, expiration) then [] else s.Queue(key)
    ensures SweepStep(s, expiration, now).Pending(key) == SweepPending(s.Pending(key), now, expiration)
  {
  }

  lemma RequestOnKey(s: State, key: string, max: int, duration: int, now: int)
    requires max > 0
    ensures var queue := RemoveExpired(s.Queue(key), now, duration);
            && RequestStep(s, key, max, duration, now).1 == (|queue| < max)
            && RequestStep(s, key, max, duration, now).0.Queue(key) == (if |queue| < max then queue + [now] else queue)
  {
    assert [] + [now] == [now];
  }

  lemma TrimOnKey(s: State, key: string, duration: int, now: int)
    ensures Trimmed(s, key, duration, now).Queue(key) == RemoveExpired(s.Queue(key), now, duration)
    ensures Trimmed(s, key, duration, now).Pending(key) == Unexpired(s.Pending(key), now, duration)
  {
  }

  lemma ReserveOnKey(s: State, key: string, max: int, duration: int, now: int)
    requires max > 0 && duration > 0
    ensures var (s', token, ok) := ReserveStep(s, key, max, duration, now);
            var queue, pending := RemoveExpired(s.Queue(key), now, duration), Unexpired(s.Pending(key), now, duration);
            && ok == (|queue| + |pending| < max)
            && s'.Queue(key) == queue
            && s'.Pending(key) == (if ok then pending[token := now] else pending)
            && token == (if ok then NextSequence(s.sequence) else 0)
  {
    TrimOnKey(s, key, duration, now);
  }

  lemma FinalizeOnKey(s: State, key: string, token: nat, success: bool, now: int)
    requires token != 0 && token in s.Pending(key)
    ensures var s' := FinalizeStep(s, key, token, success, now);
            && s'.Pending(key) == s.Pending(key) - {token}
            && s'.Queue(key) == (if success then s.Queue(key) + [now] else s.Queue(key))
  {
  }

  /** A limit that is not positive is no limit: such calls are admitted and change nothing. */
  lemma NoLimit(s: State, key: string, max: int, duration: int, now: int)
    ensures max <= 0 ==> RequestStep(s, key, max, duration, now) == (s, true)
    ensures max <= 0 || duration <= 0 ==> ReserveStep(s, key, max, duration, now) == (s, 0, true)
    ensures max > 0 && duration <= 0 ==>
      RequestStep(s, key, max, duration, now).1 && RequestStep(s, key, max, duration, now).0.Queue(key) == [now]
  {
    if max > 0 {
      RequestOnKey(s, key, max, duration, now);
      assert duration <= 0 ==> RemoveExpired(s.Queue(key), now, duration) == [];
    }
  }

  /** Token 0, which such a Reserve hands out, finalises nothing. */
  lemma NoToken(s: State, key: string, success: bool, now: int)
    ensures FinalizeStep(s, key, 0, success, now) == s
  {
  }

  // ----- a queue as the tail of an unbounded log -----

  ghost predicate Sorted(log: seq<int>) {
    forall i, j :: 0 <= i < j < |log| ==> log[i] <= log[j]
  }

  /** `queue` is what is left of `log`; everything dropped had left the window by `now`. */
  ghost predicate TailOf(queue: seq<int>, log: seq<int>, now: int, duration: int) {
    && |queue| <= |log|
    && queue == log[|log| - |queue|..]
    && forall i :: 0 <= i < |log| - |queue| ==> now - log[i] >= duration
  }

  lemma {:induction false} RemoveExpiredSuffix(queue: seq<int>, now: int, duration: int)
    requires duration > 0
    ensures var rest := RemoveExpired(queue, now, duration);
            && |rest| <= |queue| && rest == queue[|queue| - |rest|..]
            && (forall i :: 0 <= i < |queue| - |rest| ==> now - queue[i] >= duration)
            && (rest != [] ==> now - rest[0] < duration)
  {
    if queue != [] && now - queue[0] >= duration {
      RemoveExpiredSuffix(queue[1..], now, duration);
      var rest := RemoveExpired(queue[1..], now, duration);
      assert queue[1..][|queue[1..]| - |rest|..] == queue[|queue| - |rest|..];
      forall i | 0 <= i < |queue| - |rest| ensures now - queue[i] >= duration {
        if i > 0 {
          assert now - queue[1..][i - 1] >= duration;
        }
      }
    }
  }

  lemma TailOfSuffix(queue: seq<int>, rest: seq<int>, log: seq<int>, before: int, now: int, duration: int)
    requires TailOf(queue, log, before, duration) && before <= now
    requires |rest| <= |queue| && rest == queue[|queue| - |rest|..]
    requires forall i :: 0 <= i < |queue| - |rest| ==> now - queue[i] >= duration
    ensures TailOf(rest, log, now, duration)
  {
    var d := |log| - |queue|;
    forall i | 0 <= i < |log| - |rest| ensures now - log[i] >= duration {
      if i >= d {
        assert queue[i - d] == log[i];
      }
    }
    assert log[d..][|queue| - |rest|..] == log[|log| - |rest|..];
  }

  lemma RemoveExpiredKeepsTail(queue: seq<int>, log: seq<int>, before: int, now: int, duration: int)
    requires TailOf(queue, log, before, duration) && before <= now && duration > 0
    ensures TailOf(RemoveExpired(queue, now, duration), log, now, duration)
  {
    RemoveExpiredSuffix(queue, now, duration);
    TailOfSuffix(queue, RemoveExpired(queue, now, duration), log, before, now, duration);
  }

  lemma AppendKeepsTail(queue: seq<int>, log: seq<int>, now: int, duration: int)
    requires TailOf(queue, log, now, duration)
    ensures TailOf(queue + [now], log + [now], now, duration)
  {
  }

  /** A swept queue had left the window entirely: the sweeper waits longer than the window lasts. */
  lemma SweepKeepsTail(queue: seq<int>, log: seq<int>, before: int, now: int, duration: int, expiration: int)
    requires TailOf(queue, log, before, duration) && before <= now
    requires Sorted(log) && duration <= expiration + 1
    ensures TailOf(if Stale(queue, now, expiration) then [] else queue, log, now, duration)
  {
    if Stale(queue, now, expiration) && queue != [] {
      var d := |log| - |queue|;
      forall i | 0 <= i < |log| ensures now - log[i] >= duration {
        if i >= d {
          assert queue[|queue| - 1] == log[|log| - 1] && log[i] <= log[|log| - 1];
        }
      }
    }
  }

  // ----- Request: the bounded store decides like an infinite log -----

  /** How many entries lie in the window (now - duration, now]. */
  function InWindow(log: seq<int>, now: int, duration: int): nat {
    if log == [] then 0
    else InWindow(log[..|log| - 1], now, duration) + if now - log[|log| - 1] < duration then 1 else 0
  }

  predicate IsRequest(op: Op, key: string, max: int, duration: int) {
    op.Request? && op.key == key && op.max == max && op.duration == duration
  }

  /** The key is used by `Request` alone, always with the same limit and window. */
  ghost predicate OnlyRequests(h: seq<Op>, key: string, max: int, duration: int) {
    forall i :: 0 <= i < |h| && Touches(h[i], key) ==> IsRequest(h[i], key, max, duration)
  }

  /** All admissions ever made under `key` by a limiter that forgets nothing. */
  function Ideal(h: seq<Op>, key: string, max: int, duration: int): seq<int> {
    if h == [] then []
    else
      var log := Ideal(Init(h), key, max, duration);
      if Touches(Last(h), key) && InWindow(log, Last(h).at, duration) < max then log + [Last(h).at] else log
  }

  /** The last call of `h`, a request for `key`, is admitted exactly when the ideal log admits it. */
  ghost predicate Decides(h: seq<Op>, key: string, max: int, duration: int, expiration: int)
    requires h != [] && Last(h).Request?
  {
    RequestStep(Replay(Init(h), expiration), key, max, duration, Last(h).at).1
    == (InWindow(Ideal(Init(h), key, max, duration), Last(h).at, duration) < max)
  }

  ghost predicate TimesUpTo(log: seq<int>, now: int) {
    forall i :: 0 <= i < |log| ==> log[i] <= now
  }

  ghost predicate OpsUpTo(h: seq<Op>, now: int) {
    forall i :: 0 <= i < |h| ==> h[i].at <= now
  }

  lemma {:induction false} InWindowOfTail(log: seq<int>, dropped: nat, now: int, duration: int)
    requires dropped <= |log|
    requires forall i :: 0 <= i < dropped ==> now - log[i] >= duration
    requires forall i :: dropped <= i < |log| ==> now - log[i] < duration
    ensures InWindow(log, now, duration) == |log| - dropped
  {
    if log != [] {
      InWindowOfTail(log[..|log| - 1], if dropped == |log| then dropped - 1 else dropped, now, duration);
    }
  }

  lemma WindowSize(queue: seq<int>, log: seq<int>, before: int, now: int, duration: int)
    requires TailOf(queue, log, before, duration) && before <= now && duration > 0 && Sorted(log)
    ensures |RemoveExpired(queue, now, duration)| == InWindow(log, now, duration)
  {
    var rest := RemoveExpired(queue, now, duration);
    RemoveExpiredSuffix(queue, now, duration);
    RemoveExpiredKeepsTail(queue, log, before, now, duration);
    var d := |log| - |rest|;
    forall i | d <= i < |log| ensures now - log[i] < duration {
      assert log[d] == rest[0] && log[d] <= log[i];
    }
    InWindowOfTail(log, d, now, duration);
  }

  lemma {:induction false} IdealSorted(h: seq<Op>, key: string, max: int, duration: int, now: int)
    requires Ordered(h) && OpsUpTo(h, now)
    ensures Sorted(Ideal(h, key, max, duration)) && TimesUpTo(Ideal(h, key, max, duration), now)
  {
    if h != [] {
      IdealSorted(Init(h), key, max, duration, Last(h).at);
    }
  }

  lemma RequestStepTracks(s: State, op: Op, key: string, max: int, duration: int, log: seq<int>, before: int)
    requires IsRequest(op, key, max, duration) && max > 0 && duration > 0
    requires TailOf(s.Queue(key), log, before, duration) && before <= op.at && Sorted(log)
    ensures var ok := InWindow(log, op.at, duration) < max;
            && RequestStep(s, key, max, duration, op.at).1 == ok
            && TailOf(RequestStep(s, key, max, duration, op.at).0.Queue(key), if ok then log + [op.at] else log, op.at, duration)
  {
    var queue := RemoveExpired(s.Queue(key), op.at, duration);
    RequestOnKey(s, key, max, duration, op.at);
    WindowSize(s.Queue(key), log, before, op.at, duration);
    RemoveExpiredKeepsTail(s.Queue(key), log, before, op.at, duration);
    if |queue| < max {
      AppendKeepsTail(queue, log, op.at, duration);
    }
  }

  lemma TailLater(queue: seq<int>, log: seq<int>, before: int, now: int, duration: int)
    requires TailOf(queue, log, before, duration) && before <= now
    ensures TailOf(queue, log, now, duration)
  {
  }

  /** The stored queue is always the ideal log less entries that can no longer matter. */
  lemma {:induction false} QueueTracksIdeal(h: seq<Op>, key: string, max: int, duration: int, expiration: int, now: int)
    requires Ordered(h) && OpsUpTo(h, now) && OnlyRequests(h, key, max, duration)
    requires max > 0 && 0 < duration <= expiration + 1
    ensures TailOf(Replay(h, expiration).Queue(key), Ideal(h, key, max, duration), now, duration)
  {
    if h != [] {
      var s, log, op := Replay(Init(h), expiration), Ideal(Init(h), key, max, duration), Last(h);
      QueueTracksIdeal(Init(h), key, max, duration, expiration, op.at);
      IdealSorted(Init(h), key, max, duration, op.at);
      if op.Sweep? {
        SweepOnKey(s, op.at, key, expiration);
        SweepKeepsTail(s.Queue(key), log, op.at, op.at, duration, expiration);
      } else if op.key != key {
        OtherKeysUntouched(s, op, key, expiration);
      } else {
        RequestStepTracks(s, op, key, max, duration, log, op.at);
      }
      TailLater(Replay(h, expiration).Queue(key), Ideal(h, key, max, duration), op.at, now, duration);
    }
  }

  /** Every decision is the ideal one, whatever other keys and the sweeper do meanwhile. */
  lemma RequestDecidesIdeally(h: seq<Op>, key: string, max: int, duration: int, expiration: int)
    requires Ordered(h) && OnlyRequests(h, key, max, duration) && h != [] && IsRequest(Last(h), key, max, duration)
    requires max > 0 && 0 < duration <= expiration + 1
    ensures Decides(h, key, max, duration, expiration)
  {
    var now := Last(h).at;
    QueueTracksIdeal(Init(h), key, max, duration, expiration, now);
    IdealSorted(Init(h), key, max, duration, now);
    RequestStepTracks(Replay(Init(h), expiration), Last(h), key, max, duration, Ideal(Init(h), key, max, duration), now);
  }

  /** No more than `max` entries fall within any `duration` seconds. */
  ghost predicate Spaced(log: seq<int>, max: int, duration: int) {
    forall i, j :: 0 <= i <= j < |log| && log[j] - log[i] < duration ==> j - i + 1 <= max
  }

  lemma {:induction false} InWindowAtLeast(log: seq<int>, i: nat, now: int, duration: int)
    requires Sorted(log) && i < |log| && now - log[i] < duration
    ensures InWindow(log, now, duration) >= |log| - i
  {
    if i < |log| - 1 {
      assert log[i] <= log[|log| - 1];
      InWindowAtLeast(log[..|log| - 1], i, now, duration);
    }
  }

  /** Hence the limit holds in every window, not only in those that end at a request. */
  lemma {:induction false} IdealIsSpaced(h: seq<Op>, key: string, max: int, duration: int)
    requires Ordered(h) && max > 0 && duration > 0
    ensures Spaced(Ideal(h, key, max, duration), max, duration)
  {
    if h != [] {
      IdealIsSpaced(Init(h), key, max, duration);
      var log, now := Ideal(Init(h), key, max, duration), Last(h).at;
      IdealSorted(Init(h), key, max, duration, now);
      if Touches(Last(h), key) && InWindow(log, now, duration) < max {
        forall i | 0 <= i < |log| && now - log[i] < duration ensures |log| - i + 1 <= max {
          InWindowAtLeast(log, i, now, duration);
        }
      }
    }
  }

  // ----- exactly when the sweeper is invisible to Request -----

  ghost predicate SweeperInvisible(max: int, duration: int, expiration: int) {
    forall h, key {:trigger Decides(h, key, max, duration, expiration)} ::
      Ordered(h) && OnlyRequests(h, key, max, duration) && h != [] && IsRequest(Last(h), key, max, duration)
      ==> Decides(h, key, max, duration, expiration)
  }

  function Burst(n: nat, key: string, max: int, duration: int): seq<Op> {
    if n == 0 then [] else Burst(n - 1, key, max, duration) + [Request(key, max, duration, 0)]
  }

  ghost predicate AllZero(log: seq<int>) {
    forall i :: 0 <= i < |log| ==> log[i] == 0
  }

  lemma {:induction false} BurstOps(n: nat, key: string, max: int, duration: int)
    ensures var h := Burst(n, key, max, duration);
            |h| == n && forall i :: 0 <= i < n ==> h[i] == Request(key, max, duration, 0)
  {
    if n > 0 {
      BurstOps(n - 1, key, max, duration);
    }
  }

  lemma {:induction false} BurstIdeal(n: nat, key: string, max: int, duration: int)
    requires n <= max && duration > 0
    ensures var log := Ideal(Burst(n, key, max, duration), key, max, duration);
            |log| == n && AllZero(log)
  {
    if n > 0 {
      var h := Burst(n, key, max, duration);
      BurstIdeal(n - 1, key, max, duration);
      assert Init(h) == Burst(n - 1, key, max, duration);
      InWindowOfTail(Ideal(Init(h), key, max, duration), 0, 0, duration);
    }
  }

  lemma ZeroRequest(s: State, key: string, max: int, duration: int)
    requires max > 0 && duration > 0 && AllZero(s.Queue(key))
    ensures AllZero(RequestStep(s, key, max, duration, 0).0.Queue(key))
  {
    RequestOnKey(s, key, max, duration, 0);
    RemoveExpiredSuffix(s.Queue(key), 0, duration);
  }

  lemma {:induction false} BurstQueue(n: nat, key: string, max: int, duration: int, expiration: int)
    requires max > 0 && duration > 0
    ensures AllZero(Replay(Burst(n, key, max, duration), expiration).Queue(key))
  {
    if n > 0 {
      var h := Burst(n, key, max, duration);
      BurstQueue(n - 1, key, max, duration, expiration);
      assert Init(h) == Burst(n - 1, key, max, duration);
      ZeroRequest(Replay(Init(h), expiration), key, max, duration);
    }
  }

  lemma SweptQueueAdmits(s: State, key: string, max: int, duration: int, expiration: int)
    requires max > 0 && AllZero(s.Queue(key))
    ensures RequestStep(SweepStep(s, expiration, expiration + 1), key, max, duration, expiration + 1).1
  {
    SweepOnKey(s, expiration + 1, key, expiration);
    RequestOnKey(SweepStep(s, expiration, expiration + 1), key, max, duration, expiration + 1);
  }

  function SweptBurst(key: string, max: int, duration: int, t: int): seq<Op>
    requires max > 0
  {
    Burst(max, key, max, duration) + [Sweep(t)]
  }

  lemma SweptBurstIsARun(key: string, max: int, duration: int, t: int)
    requires max > 0 && t >= 0
    ensures var h := SweptBurst(key, max, duration, t) + [Request(key, max, duration, t)];
            Ordered(h) && OnlyRequests(h, key, max, duration)
  {
    BurstOps(max, key, max, duration);
  }

  lemma SweptBurstIdeal(key: string, max: int, duration: int, t: int)
    requires max > 0 && 0 <= t < duration
    ensures InWindow(Ideal(SweptBurst(key, max, duration, t), key, max, duration), t, duration) == max
  {
    var burst, h := Burst(max, key, max, duration), SweptBurst(key, max, duration, t);
    assert Init(h) == burst;
    BurstIdeal(max, key, max, duration);
    InWindowOfTail(Ideal(burst, key, max, duration), 0, t, duration);
  }

  /** A full window, swept too early, admits one request too many. */
  lemma EarlySweepAdmitsTooMuch(key: string, max: int, duration: int, expiration: int)
    requires max > 0 && expiration >= 0 && duration > expiration + 1
    ensures !SweeperInvisible(max, duration, expiration)
  {
    var t := expiration + 1;
    var h1 := SweptBurst(key, max, duration, t);
    var h := h1 + [Request(key, max, duration, t)];
    SweptBurstIsARun(key, max, duration, t);
    assert Init(h) == h1 && Init(h1) == Burst(max, key, max, duration);
    BurstQueue(max, key, max, duration, expiration);
    SweptQueueAdmits(Replay(Init(h1), expiration), key, max, duration, expiration);
    SweptBurstIdeal(key, max, duration, t);
    assert !Decides(h, key, max, duration, expiration);
  }

  /** The sweeper never changes a decision if and only if it waits at least `duration` seconds. */
  lemma SweeperInvisibleExactly(max: int, duration: int, expiration: int)
    requires max > 0 && duration > 0 && expiration >= 0
    ensures SweeperInvisible(max, duration, expiration) <==> duration <= expiration + 1
  {
    if duration <= expiration + 1 {
      forall h, key | Ordered(h) && OnlyRequests(h, key, max, duration) && h != [] && IsRequest(Last(h), key, max, duration)
        ensures Decides(h, key, max, duration, expiration)
      {
        RequestDecidesIdeally(h, key, max, duration, expiration);
      }
    } else {
      EarlySweepAdmitsTooMuch("", max, duration, expiration);
    }
  }

  // ----- what the limiter admits over a run -----

  /** The times of all requests that the limiter itself admitted under `key`. */
  function Admitted(h: seq<Op>, key: string, expiration: int): seq<int> {
    if h == [] then []
    else
      var log, op := Admitted(Init(h), key, expiration), Last(h);
      if op.Request? && op.key == key && RequestStep(Replay(Init(h), expiration), key, op.max, op.duration, op.at).1
      then log + [op.at] else log
  }

  /** The limiter admits exactly what the ideal one does. */
  lemma {:induction false} AdmittedIsIdeal(h: seq<Op>, key: string, max: int, duration: int, expiration: int)
    requires Ordered(h) && OnlyRequests(h, key, max, duration) && max > 0 && 0 < duration <= expiration + 1
    ensures Admitted(h, key, expiration) == Ideal(h, key, max, duration)
  {
    if h != [] {
      AdmittedIsIdeal(Init(h), key, max, duration, expiration);
      if Touches(Last(h), key) {
        RequestDecidesIdeally(h, key, max, duration, expiration);
      }
    }
  }

  /** In every run the limit holds for what is admitted in any `duration` seconds. */
  ghost predicate LimitHolds(max: int, duration: int, expiration: int) {
    forall h, key {:trigger Admitted(h, key, expiration)} :: Ordered(h) && OnlyRequests(h, key, max, duration)
      ==> Spaced(Admitted(h, key, expiration), max, duration)
  }

  lemma ReplayAppend(h: seq<Op>, op: Op, expiration: int)
    ensures Replay(h + [op], expiration) == After(Replay(h, expiration), op, expiration)
  {
    assert Init(h + [op]) == h;
  }

  lemma AdmittedAppend(h: seq<Op>, op: Op, key: string, expiration: int)
    ensures Admitted(h + [op], key, expiration) ==
            if op.Request? && op.key == key && RequestStep(Replay(h, expiration), key, op.max, op.duration, op.at).1
            then Admitted(h, key, expiration) + [op.at] else Admitted(h, key, expiration)
  {
    assert Init(h + [op]) == h;
  }

  lemma ZeroAdmitted(s: State, key: string, max: int, duration: int)
    requires duration > 0 && AllZero(s.Queue(key)) && |s.Queue(key)| < max
    ensures RequestStep(s, key, max, duration, 0).1 && RequestStep(s, key, max, duration, 0).0.Queue(key) == s.Queue(key) + [0]
  {
    RequestOnKey(s, key, max, duration, 0);
    assert RemoveExpired(s.Queue(key), 0, duration) == s.Queue(key);
  }

  /** `n` requests at time 0 were admitted and are stored. */
  ghost predicate ZerosAdmitted(h: seq<Op>, key: string, expiration: int, n: nat) {
    && |Replay(h, expiration).Queue(key)| == n && AllZero(Replay(h, expiration).Queue(key))
    && |Admitted(h, key, expiration)| == n && AllZero(Admitted(h, key, expiration))
  }

  lemma OneMoreAdmitted(h: seq<Op>, key: string, max: int, duration: int, expiration: int, n: nat)
    requires duration > 0 && n < max && ZerosAdmitted(h, key, expiration, n)
    ensures ZerosAdmitted(h + [Request(key, max, duration, 0)], key, expiration, n + 1)
  {
    ReplayAppend(h, Request(key, max, duration, 0), expiration);
    AdmittedAppend(h, Request(key, max, duration, 0), key, expiration);
    ZeroAdmitted(Replay(h, expiration), key, max, duration);
  }

  /** A burst up to the limit is admitted whole and stored. */
  lemma {:induction false} BurstAdmitted(n: nat, key: string, max: int, duration: int, expiration: int)
    requires n <= max && duration > 0
    ensures ZerosAdmitted(Burst(n, key, max, duration), key, expiration, n)
  {
    if n > 0 {
      BurstAdmitted(n - 1, key, max, duration, expiration);
      OneMoreAdmitted(Burst(n - 1, key, max, duration), key, max, duration, expiration, n - 1);
    }
  }

  lemma SweptBurstAdmitted(burst: seq<Op>, key: string, max: int, duration: int, expiration: int, n: nat)
    requires max > 0 && ZerosAdmitted(burst, key, expiration, n)
    ensures var t := expiration + 1;
            Admitted(burst + [Sweep(t)] + [Request(key, max, duration, t)], key, expiration)
            == Admitted(burst, key, expiration) + [t]
  {
    var t := expiration + 1;
    ReplayAppend(burst, Sweep(t), expiration);
    AdmittedAppend(burst, Sweep(t), key, expiration);
    AdmittedAppend(burst + [Sweep(t)], Request(key, max, duration, t), key, expiration);
    SweptQueueAdmits(Replay(burst, expiration), key, max, duration, expiration);
  }

  lemma TooManyZeros(zeros: seq<int>, t: int, max: int, duration: int)
    requires max > 0 && |zeros| == max && AllZero(zeros) && t < duration
    ensures !Spaced(zeros + [t], max, duration)
  {
    var log := zeros + [t];
    assert log[max] - log[0] < duration;
  }

  lemma EarlySweepBreaksLimit(key: string, max: int, duration: int, expiration: int)
    requires max > 0 && expiration >= 0 && duration > expiration + 1
    ensures !LimitHolds(max, duration, expiration)
  {
    var t, burst := expiration + 1, Burst(max, key, max, duration);
    var h := SweptBurst(key, max, duration, t) + [Request(key, max, duration, t)];
    SweptBurstIsARun(key, max, duration, t);
    BurstAdmitted(max, key, max, duration, expiration);
    SweptBurstAdmitted(burst, key, max, duration, expiration, max);
    TooManyZeros(Admitted(burst, key, expiration), t, max, duration);
    assert !Spaced(Admitted(h, key, expiration), max, duration);
  }

  /** At most `max` admissions fall into any `duration` seconds of any run, if and only if the sweeper waits long enough. */
  lemma LimitHoldsExactly(max: int, duration: int, expiration: int)
    requires max > 0 && duration > 0 && expiration >= 0
    ensures LimitHolds(max, duration, expiration) <==> duration <= expiration + 1
  {
    if duration <= expiration + 1 {
      forall h, key | Ordered(h) && OnlyRequests(h, key, max, duration)
        ensures Spaced(Admitted(h, key, expiration), max, duration)
      {
        AdmittedIsIdeal(h, key, max, duration, expiration);
        IdealIsSpaced(h, key, max, duration);
      }
    } else {
      EarlySweepBreaksLimit("", max, duration, expiration);
    }
  }
}
