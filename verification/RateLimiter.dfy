/**
 The in-memory rate limiter (common/rate-limit.go): a sliding-window log per key, a two-phase
 Reserve/Finalize protocol, and a background sweeper.  All operations run under one mutex, so a run is
 a sequence of operations.  Times are whole seconds, as `time.Now().Unix()` gives them.
 */
module RateLimiter {

  const TWO_64 := 0x1_0000_0000_0000_0000

  /** Absent maps (`nil` in the source) and empty ones behave alike. */
  datatype State = State(store: map<string, seq<int>>, reservations: map<string, map<nat, int>>, sequence: nat)
  {
    function Queue(key: string): seq<int> {
      if key in store then store[key] else []
    }

    function Pending(key: string): map<nat, int> {
      if key in reservations then reservations[key] else map[]
    }

    /** Capacity in use under a key. */
    function Used(key: string): nat {
      |Queue(key)| + |Pending(key)|
    }

    function WithPending(key: string, pending: map<nat, int>): State {
      this.(reservations := if pending == map[] then reservations - {key} else reservations[key := pending])
    }
  }

  const EMPTY := State(map[], map[], 0)

  // ----- the operations on values -----

  /** `removeExpiredRateLimitItems` */
  function RemoveExpired(queue: seq<int>, now: int, duration: int): seq<int> {
    if queue == [] || duration <= 0 then []
    else if now - queue[0] >= duration then RemoveExpired(queue[1..], now, duration)
    else queue
  }

  function Unexpired(pending: map<nat, int>, now: int, duration: int): map<nat, int> {
    map t | t in pending && now - pending[t] < duration :: pending[t]
  }

  function RequestStep(s: State, key: string, max: int, duration: int, now: int): (State, bool) {
    if max <= 0 then (s, true)
    else if key in s.store then
      var queue := RemoveExpired(s.store[key], now, duration);
      if |queue| < max then (s.(store := s.store[key := queue + [now]]), true)
      else (s.(store := s.store[key := queue]), false)
    else (s.(store := s.store[key := [now]]), true)
  }

  function Trimmed(s: State, key: string, duration: int, now: int): State {
    var s1 := if key in s.store then s.(store := s.store[key := RemoveExpired(s.store[key], now, duration)]) else s;
    s1.WithPending(key, Unexpired(s1.Pending(key), now, duration))
  }

  /** `sequence++` on a uint64. */
  function NextSequence(n: nat): nat {
    if n + 1 == TWO_64 then 0 else n + 1
  }

  function ReserveStep(s: State, key: string, max: int, duration: int, now: int): (State, nat, bool) {
    if max <= 0 || duration <= 0 then (s, 0, true)
    else
      var s1 := Trimmed(s, key, duration, now);
      if s1.Used(key) >= max then (s1, 0, false)
      else
        var token := NextSequence(s.sequence);
        (State(s1.store, s1.reservations[key := s1.Pending(key)[token := now]], token), token, true)
  }

  function FinalizeStep(s: State, key: string, token: nat, success: bool, now: int): State {
    if token == 0 || token !in s.Pending(key) then s
    else
      var s1 := s.WithPending(key, s.Pending(key) - {token});
      if success then s1.(store := s1.store[key := s1.Queue(key) + [now]]) else s1
  }

  predicate Stale(queue: seq<int>, now: int, expiration: int) {
    queue == [] || now - queue[|queue| - 1] > expiration
  }

  function SweepPending(pending: map<nat, int>, now: int, expiration: int): map<nat, int> {
    map t | t in pending && now - pending[t] <= expiration :: pending[t]
  }

  function SweepStep(s: State, expiration: int, now: int): State {
    State(map k | k in s.store && !Stale(s.store[k], now, expiration) :: s.store[k],
          map k | k in s.reservations && SweepPending(s.reservations[k], now, expiration) != map[]
               :: SweepPending(s.reservations[k], now, expiration),
          s.sequence)
  }

  // ----- the limiter itself -----

  method RemoveExpiredItems(queue: seq<int>, now: int, duration: int) returns (rest: seq<int>)
    ensures rest == RemoveExpired(queue, now, duration)
  {
    if |queue| == 0 { return queue; }
    if duration <= 0 { return []; }
    var firstValid := 0;
    while firstValid < |queue| && now - queue[firstValid] >= duration
      invariant 0 <= firstValid <= |queue|
      invariant RemoveExpired(queue[firstValid..], now, duration) == RemoveExpired(queue, now, duration)
    {
      firstValid := firstValid + 1;
    }
    if firstValid == 0 { return queue; }
    if firstValid == |queue| { return []; }
    return queue[firstValid..];
  }

  class InMemoryRateLimiter {
    var store: map<string, seq<int>>
    var reservations: map<string, map<nat, int>>
    var sequence: nat
    const expiration: int // whole seconds of expirationDuration

    function Now(): State
      reads this
    {
      State(store, reservations, sequence)
    }

    constructor (expiration: int)
      ensures Now() == EMPTY && this.expiration == expiration
    {
      store, reservations, sequence := map[], map[], 0;
      this.expiration := expiration;
    }

    method Request(key: string, max: int, duration: int, now: int) returns (ok: bool)
      modifies this
      ensures (Now(), ok) == RequestStep(old(Now()), key, max, duration, now)
    {
      if max <= 0 { return true; }
      if key in store {
        var queue := RemoveExpiredItems(store[key], now, duration);
        store := store[key := queue];
        if |queue| < max {
          store := store[key := queue + [now]];
          assert store == old(store)[key := queue + [now]];
          return true;
        } else {
          return false;
        }
      } else {
        var items: seq<int> := [];
        items := items + [now];
        assert items == [now];
        store := store[key := items];
      }
      return true;
    }

    method DropExpired(pending: map<nat, int>, now: int, duration: int) returns (rest: map<nat, int>)
      ensures rest == Unexpired(pending, now, duration)
    {
      rest := pending;
      var tokens := pending.Keys;
      while tokens != {}
        invariant tokens <= pending.Keys
        invariant rest == map t | t in pending && (t in tokens || now - pending[t] < duration) :: pending[t]
      {
        var token :| token in tokens;
        if now - pending[token] >= duration { rest := rest - {token}; }
        tokens := tokens - {token};
      }
    }

    /** The pruning that opens `Reserve`. */
    method Trim(key: string, duration: int, now: int)
      modifies this
      ensures Now() == Trimmed(old(Now()), key, duration, now)
    {
      if key in store {
        var queue := RemoveExpiredItems(store[key], now, duration);
        store := store[key := queue];
      }
      var pending := if key in reservations then reservations[key] else map[];
      pending := DropExpired(pending, now, duration);
      if |pending| == 0 {
        reservations := reservations - {key};
      } else {
        reservations := reservations[key := pending];
      }
    }

    method Reserve(key: string, max: int, duration: int, now: int) returns (token: nat, ok: bool)
      modifies this
      ensures (Now(), token, ok) == ReserveStep(old(Now()), key, max, duration, now)
    {
      if max <= 0 || duration <= 0 { return 0, true; }
      Trim(key, duration, now);
      var queueSize := if key in store then |store[key]| else 0;
      var pending := if key in reservations then reservations[key] else map[];
      if queueSize + |pending| >= max { return 0, false; }
      sequence := NextSequence(sequence);
      reservations := reservations[key := pending[sequence := now]];
      return sequence, true;
    }

    method Finalize(key: string, token: nat, success: bool, now: int)
      modifies this
      ensures Now() == FinalizeStep(old(Now()), key, token, success, now)
    {
      if token == 0 { return; }
      var pending := if key in reservations then reservations[key] else map[];
      if token !in pending { return; }
      pending := pending - {token};
      if |pending| == 0 {
        reservations := reservations - {key};
      } else {
        reservations := reservations[key := pending];
      }
      if !success { return; }
      var queue := if key in store then store[key] else [];
      store := store[key := queue + [now]];
    }

    /** One round of `clearExpiredItems`. */
    method Sweep(now: int)
      modifies this
      ensures Now() == SweepStep(old(Now()), expiration, now)
    {
      var before := store;
      var keys := store.Keys;
      while keys != {}
        invariant keys <= before.Keys && reservations == old(reservations) && sequence == old(sequence)
        invariant store == map k | k in before && (k in keys || !Stale(before[k], now, expiration)) :: before[k]
      {
        var key :| key in keys;
        var queue := store[key];
        if |queue| == 0 || now - queue[|queue| - 1] > expiration { store := store - {key}; }
        keys := keys - {key};
      }
      SweepReservations(now);
    }

    method SweepReservations(now: int)
      modifies this`reservations
      ensures reservations == SweepStep(old(Now()), expiration, now).reservations
    {
      var before := reservations;
      var keys := before.Keys;
      reservations := map[];
      while keys != {}
        invariant keys <= before.Keys
        invariant reservations == map k | k in before && k !in keys && SweepPending(before[k], now, expiration) != map[]
                                     :: SweepPending(before[k], now, expiration)
      {
        var key :| key in keys;
        var pending := SweepPending(before[key], now, expiration);
        if |pending| != 0 { reservations := reservations[key := pending]; }
        keys := keys - {key};
      }
    }
  }
}
