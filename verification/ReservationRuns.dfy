/**
 The two-phase protocol of the rate limiter over whole runs: capacity, windows and tokens.
 */
module ReservationRuns {
  import opened RateLimiter
  import opened RateLimiterRuns

  // ----- sizes -----

  lemma SubsetSize<T>(a: set<T>, b: set<T>)
    requires a <= b
    ensures |a| <= |b|
  {
    assert b == a + (b - a);
  }

  lemma SubmapSize(small: map<nat, int>, big: map<nat, int>)
    requires small.Keys <= big.Keys
    ensures |small| <= |big|
  {
    SubsetSize(small.Keys, big.Keys);
  }

  lemma RemoveSize(m: map<nat, int>, k: nat)
    requires k in m
    ensures |m - {k}| == |m| - 1
  {
    assert (m - {k}).Keys == m.Keys - {k};
  }

  // ----- capacity -----

  /** The key is used by Reserve/Finalize alone, always with the same limit and window. */
  ghost predicate OnlyReservations(h: seq<Op>, key: string, max: int, duration: int) {
    forall i :: 0 <= i < |h| && Touches(h[i], key) ==> IsReservation(h[i], max, duration)
  }

  predicate IsReservation(op: Op, max: int, duration: int) {
    op.Finalize? || (op.Reserve? && op.max == max && op.duration == duration)
  }

  predicate Effective(s: State, op: Op) {
    op.Finalize? && op.token != 0 && op.token in s.Pending(op.key)
  }

  /** A failed Finalize gives back exactly one unit of its key's capacity, a successful one none. */
  lemma FinalizeCapacity(s: State, op: Op, expiration: int)
    requires Effective(s, op)
    ensures After(s, op, expiration).Used(op.key) == s.Used(op.key) - if op.success then 0 else 1
  {
    FinalizeOnKey(s, op.key, op.token, op.success, op.at);
    RemoveSize(s.Pending(op.key), op.token);
  }

  lemma ReserveCapacity(s: State, key: string, max: int, duration: int, now: int)
    requires max > 0 && duration > 0 && s.Used(key) <= max
    ensures ReserveStep(s, key, max, duration, now).0.Used(key) <= max
  {
    ReserveOnKey(s, key, max, duration, now);
    RemoveExpiredSuffix(s.Queue(key), now, duration);
    SubmapSize(Unexpired(s.Pending(key), now, duration), s.Pending(key));
  }

  lemma StepCapacity(s: State, op: Op, key: string, max: int, duration: int, expiration: int)
    requires max > 0 && duration > 0 && s.Used(key) <= max && (Touches(op, key) ==> IsReservation(op, max, duration))
    ensures After(s, op, expiration).Used(key) <= max
  {
    if op.Sweep? {
      SweepOnKey(s, op.at, key, expiration);
      SubmapSize(SweepPending(s.Pending(key), op.at, expiration), s.Pending(key));
    } else if op.key != key {
      OtherKeysUntouched(s, op, key, expiration);
    } else if op.Reserve? {
      ReserveCapacity(s, key, max, duration, op.at);
    } else if Effective(s, op) {
      FinalizeCapacity(s, op, expiration);
    }
  }

  /** In every reachable state completed plus pending requests stay within the limit. */
  lemma {:induction false} CapacityNeverExceeded(h: seq<Op>, key: string, max: int, duration: int, expiration: int)
    requires OnlyReservations(h, key, max, duration) && max > 0 && duration > 0
    ensures Replay(h, expiration).Used(key) <= max
  {
    if h != [] {
      CapacityNeverExceeded(Init(h), key, max, duration, expiration);
      StepCapacity(Replay(Init(h), expiration), Last(h), key, max, duration, expiration);
    }
  }

  // ----- successes per window -----

  /** The times of all requests ever completed under `key`. */
  function Completed(h: seq<Op>, key: string, expiration: int): seq<int> {
    if h == [] then []
    else
      var log := Completed(Init(h), key, expiration);
      if Touches(Last(h), key) && Effective(Replay(Init(h), expiration), Last(h)) && Last(h).success
      then log + [Last(h).at] else log
  }

  lemma {:induction false} CompletedSorted(h: seq<Op>, key: string, expiration: int, now: int)
    requires Ordered(h) && OpsUpTo(h, now)
    ensures Sorted(Completed(h, key, expiration)) && TimesUpTo(Completed(h, key, expiration), now)
  {
    if h != [] {
      CompletedSorted(Init(h), key, expiration, Last(h).at);
    }
  }

  lemma ReservationStepTracks(s: State, op: Op, max: int, duration: int, expiration: int, log: seq<int>)
    requires !op.Sweep? && IsReservation(op, max, duration) && max > 0 && duration > 0
    requires TailOf(s.Queue(op.key), log, op.at, duration)
    ensures TailOf(After(s, op, expiration).Queue(op.key),
                   if Effective(s, op) && op.success then log + [op.at] else log, op.at, duration)
  {
    if op.Reserve? {
      ReserveOnKey(s, op.key, max, duration, op.at);
      RemoveExpiredKeepsTail(s.Queue(op.key), log, op.at, op.at, duration);
    } else if Effective(s, op) {
      FinalizeOnKey(s, op.key, op.token, op.success, op.at);
      AppendKeepsTail(s.Queue(op.key), log, op.at, duration);
    }
  }

  /** The stored queue is the log of completions less entries that have left the window. */
  lemma {:induction false} QueueTracksCompleted(h: seq<Op>, key: string, max: int, duration: int, expiration: int, now: int)
    requires Ordered(h) && OpsUpTo(h, now) && OnlyReservations(h, key, max, duration)
    requires max > 0 && 0 < duration <= expiration + 1
    ensures TailOf(Replay(h, expiration).Queue(key), Completed(h, key, expiration), now, duration)
  {
    if h != [] {
      var s, log, op := Replay(Init(h), expiration), Completed(Init(h), key, expiration), Last(h);
      QueueTracksCompleted(Init(h), key, max, duration, expiration, op.at);
      if op.Sweep? {
        CompletedSorted(Init(h), key, expiration, op.at);
        SweepOnKey(s, op.at, key, expiration);
        SweepKeepsTail(s.Queue(key), log, op.at, op.at, duration, expiration);
      } else if op.key != key {
        OtherKeysUntouched(s, op, key, expiration);
      } else {
        ReservationStepTracks(s, op, max, duration, expiration, log);
      }
      TailLater(Replay(h, expiration).Queue(key), Completed(h, key, expiration), op.at, now, duration);
    }
  }

  /** Within any `duration` seconds at most `max` requests complete, expiry and sweeping included. */
  lemma {:induction false} SuccessesAreSpaced(h: seq<Op>, key: string, max: int, duration: int, expiration: int)
    requires Ordered(h) && OnlyReservations(h, key, max, duration)
    requires max > 0 && 0 < duration <= expiration + 1
    ensures Spaced(Completed(h, key, expiration), max, duration)
  {
    if h != [] {
      SuccessesAreSpaced(Init(h), key, max, duration, expiration);
      var log, now := Completed(h, key, expiration), Last(h).at;
      QueueTracksCompleted(h, key, max, duration, expiration, now);
      CapacityNeverExceeded(h, key, max, duration, expiration);
      var queue := Replay(h, expiration).Queue(key);
      forall i, j | 0 <= i <= j < |log| && log[j] - log[i] < duration ensures j - i + 1 <= max {
        if j == |log| - 1 && log != Completed(Init(h), key, expiration) {
          assert now - log[i] < duration;
          assert i >= |log| - |queue|;
        }
      }
    }
  }

  // ----- tokens -----

  /** The token the i-th call hands out, 0 when it hands out none. */
  function Granted(h: seq<Op>, i: nat, expiration: int): nat
    requires i < |h|
  {
    if h[i].Reserve?
    then ReserveStep(Replay(h[..i], expiration), h[i].key, h[i].max, h[i].duration, h[i].at).1
    else 0
  }

  /** The i-th call is a Finalize that finds its reservation. */
  predicate TookEffect(h: seq<Op>, i: nat, expiration: int)
    requires i < |h|
  {
    Effective(Replay(h[..i], expiration), h[i])
  }

  /** Any other Finalize changes nothing at all. */
  lemma IneffectiveFinalize(s: State, op: Op, expiration: int)
    requires op.Finalize? && !Effective(s, op)
    ensures After(s, op, expiration) == s
  {
  }

  ghost predicate Issued(s: State, key: string, token: nat) {
    token in s.Pending(key)
  }

  /** Tokens in use come from the counter, and no token is pending under two keys. */
  ghost predicate TokensSound(s: State) {
    && (forall key, token: nat :: Issued(s, key, token) ==> 1 <= token <= s.sequence)
    && (forall k1, k2, token: nat :: Issued(s, k1, token) && Issued(s, k2, token) ==> k1 == k2)
  }

  lemma TrimKeepsSequence(s: State, key: string, duration: int, now: int)
    ensures Trimmed(s, key, duration, now).sequence == s.sequence
  {
  }

  lemma ReserveSequence(s: State, key: string, max: int, duration: int, now: int)
    requires s.sequence + 1 < TWO_64
    ensures var (s', token, _) := ReserveStep(s, key, max, duration, now);
            s'.sequence == if token == 0 then s.sequence else s.sequence + 1
  {
    TrimKeepsSequence(s, key, duration, now);
  }

  lemma StepSequence(s: State, op: Op, expiration: int)
    requires s.sequence + 1 < TWO_64
    ensures s.sequence <= After(s, op, expiration).sequence <= s.sequence + 1
  {
    if op.Reserve? {
      ReserveSequence(s, op.key, op.max, op.duration, op.at);
    }
  }

  lemma ReserveTokens(s: State, op: Op, expiration: int, token: nat)
    requires s.sequence + 1 < TWO_64 && op.Reserve?
    requires Issued(After(s, op, expiration), op.key, token) && !Issued(s, op.key, token)
    ensures token == s.sequence + 1 == After(s, op, expiration).sequence
    ensures ReserveStep(s, op.key, op.max, op.duration, op.at).1 == token
  {
    if op.max > 0 && op.duration > 0 {
      ReserveSequence(s, op.key, op.max, op.duration, op.at);
      ReserveOnKey(s, op.key, op.max, op.duration, op.at);
    }
  }

  /** Pending tokens only ever appear fresh from the counter, under the key that reserves. */
  lemma StepTokens(s: State, op: Op, expiration: int, key: string, token: nat)
    requires s.sequence + 1 < TWO_64
    requires Issued(After(s, op, expiration), key, token) && !Issued(s, key, token)
    ensures op.Reserve? && op.key == key && token == s.sequence + 1 == After(s, op, expiration).sequence
    ensures ReserveStep(s, op.key, op.max, op.duration, op.at).1 == token
  {
    if op.Sweep? {
      SweepOnKey(s, op.at, key, expiration);
    } else if op.key != key {
      OtherKeysUntouched(s, op, key, expiration);
    } else if op.Reserve? {
      ReserveTokens(s, op, expiration, token);
    } else if Effective(s, op) {
      FinalizeOnKey(s, key, op.token, op.success, op.at);
    }
  }

  lemma StepTokensSound(s: State, op: Op, expiration: int)
    requires TokensSound(s) && s.sequence + 1 < TWO_64
    ensures TokensSound(After(s, op, expiration))
  {
    var s' := After(s, op, expiration);
    forall key, token: nat | Issued(s', key, token)
      ensures 1 <= token <= s'.sequence && (Issued(s, key, token) || (token == s.sequence + 1 && op.Reserve? && op.key == key))
    {
      if !Issued(s, key, token) {
        StepTokens(s, op, expiration, key, token);
      }
    }
    StepSequence(s, op, expiration);
  }

  lemma {:induction false} ReplayTokensSound(h: seq<Op>, expiration: int)
    requires |h| + 1 < TWO_64
    ensures TokensSound(Replay(h, expiration)) && Replay(h, expiration).sequence <= |h|
  {
    if h != [] {
      ReplayTokensSound(Init(h), expiration);
      StepSequence(Replay(Init(h), expiration), Last(h), expiration);
      StepTokensSound(Replay(Init(h), expiration), Last(h), expiration);
    }
  }

  lemma ReplayNext(h: seq<Op>, i: nat, expiration: int)
    requires i < |h|
    ensures Replay(h[..i + 1], expiration) == After(Replay(h[..i], expiration), h[i], expiration)
  {
    assert Init(h[..i + 1]) == h[..i];
  }

  lemma {:induction false} SequenceGrows(h: seq<Op>, i: nat, j: nat, expiration: int)
    requires i <= j <= |h| && |h| + 1 < TWO_64
    ensures Replay(h[..i], expiration).sequence <= Replay(h[..j], expiration).sequence
    decreases j - i
  {
    if i < j {
      SequenceGrows(h, i, j - 1, expiration);
      ReplayNext(h, j - 1, expiration);
      ReplayTokensSound(h[..j - 1], expiration);
      StepSequence(Replay(h[..j - 1], expiration), h[j - 1], expiration);
    }
  }

  lemma ReserveGrants(s: State, key: string, max: int, duration: int, now: int)
    requires s.sequence + 1 < TWO_64 && ReserveStep(s, key, max, duration, now).1 != 0
    ensures var (s', token, _) := ReserveStep(s, key, max, duration, now);
            token == s.sequence + 1 == s'.sequence && Issued(s', key, token)
  {
    ReserveSequence(s, key, max, duration, now);
    ReserveOnKey(s, key, max, duration, now);
  }

  lemma GrantAdvances(h: seq<Op>, i: nat, expiration: int)
    requires i < |h| && |h| + 1 < TWO_64 && Granted(h, i, expiration) != 0
    ensures Granted(h, i, expiration) == Replay(h[..i], expiration).sequence + 1 == Replay(h[..i + 1], expiration).sequence
  {
    ReplayNext(h, i, expiration);
    ReplayTokensSound(h[..i], expiration);
    ReserveGrants(Replay(h[..i], expiration), h[i].key, h[i].max, h[i].duration, h[i].at);
  }

  lemma GrantBoundsSequence(h: seq<Op>, i: nat, j: nat, expiration: int)
    requires i < j <= |h| && |h| + 1 < TWO_64 && Granted(h, i, expiration) != 0
    ensures Granted(h, i, expiration) <= Replay(h[..j], expiration).sequence
  {
    GrantAdvances(h, i, expiration);
    SequenceGrows(h, i + 1, j, expiration);
  }

  /** Tokens are unique over the whole run and across all keys. */
  lemma TokensAreUnique(h: seq<Op>, i: nat, j: nat, expiration: int)
    requires i < j < |h| && |h| + 1 < TWO_64
    requires Granted(h, i, expiration) != 0 && Granted(h, j, expiration) != 0
    ensures Granted(h, i, expiration) < Granted(h, j, expiration)
  {
    GrantBoundsSequence(h, i, j, expiration);
    GrantAdvances(h, j, expiration);
  }

  /** A pending token was handed out earlier, for that very key. */
  lemma {:induction false} PendingWasGranted(h: seq<Op>, n: nat, key: string, token: nat, expiration: int) returns (i: nat)
    requires n <= |h| && |h| + 1 < TWO_64 && Issued(Replay(h[..n], expiration), key, token)
    ensures i < n && h[i].Reserve? && h[i].key == key && Granted(h, i, expiration) == token
    decreases n
  {
    assert n > 0;
    ReplayNext(h, n - 1, expiration);
    var s := Replay(h[..n - 1], expiration);
    if Issued(s, key, token) {
      i := PendingWasGranted(h, n - 1, key, token, expiration);
    } else {
      ReplayTokensSound(h[..n - 1], expiration);
      StepTokens(s, h[n - 1], expiration, key, token);
      i := n - 1;
    }
  }

  /** A Finalize under a key other than the one that reserved the token has no effect. */
  lemma WrongKeyHasNoEffect(h: seq<Op>, i: nat, j: nat, expiration: int)
    requires i < |h| && j < |h| && |h| + 1 < TWO_64
    requires Granted(h, i, expiration) != 0 && h[j].Finalize? && h[j].token == Granted(h, i, expiration) && h[j].key != h[i].key
    ensures !TookEffect(h, j, expiration)
  {
    if TookEffect(h, j, expiration) {
      var g := PendingWasGranted(h, j, h[j].key, h[j].token, expiration);
      if g < i {
        TokensAreUnique(h, g, i, expiration);
      } else if i < g {
        TokensAreUnique(h, i, g, expiration);
      }
    }
  }

  ghost predicate Gone(s: State, token: nat) {
    token <= s.sequence && forall key :: !Issued(s, key, token)
  }

  lemma {:induction false} GoneStaysGone(h: seq<Op>, i: nat, j: nat, token: nat, expiration: int)
    requires i <= j <= |h| && |h| + 1 < TWO_64 && Gone(Replay(h[..i], expiration), token)
    ensures Gone(Replay(h[..j], expiration), token)
    decreases j - i
  {
    if i < j {
      GoneStaysGone(h, i, j - 1, token, expiration);
      var s := Replay(h[..j - 1], expiration);
      ReplayNext(h, j - 1, expiration);
      ReplayTokensSound(h[..j - 1], expiration);
      forall key ensures !Issued(Replay(h[..j], expiration), key, token) {
        if Issued(Replay(h[..j], expiration), key, token) {
          StepTokens(s, h[j - 1], expiration, key, token);
        }
      }
      StepSequence(s, h[j - 1], expiration);
    }
  }

  lemma FinalizeRemovesToken(s: State, op: Op, expiration: int)
    requires TokensSound(s) && Effective(s, op)
    ensures Gone(After(s, op, expiration), op.token)
  {
    FinalizeOnKey(s, op.key, op.token, op.success, op.at);
    assert Issued(s, op.key, op.token);
    forall key ensures !Issued(After(s, op, expiration), key, op.token) {
      if key != op.key {
        OtherKeysUntouched(s, op, key, expiration);
        assert !Issued(s, key, op.token);
      }
    }
  }

  /** Each token takes effect at most once, under whatever keys and however late it is presented. */
  lemma FinalizeAtMostOnce(h: seq<Op>, i: nat, j: nat, expiration: int)
    requires i < j < |h| && |h| + 1 < TWO_64
    requires TookEffect(h, i, expiration) && h[j].Finalize? && h[j].token == h[i].token
    ensures !TookEffect(h, j, expiration)
  {
    ReplayNext(h, i, expiration);
    ReplayTokensSound(h[..i], expiration);
    FinalizeRemovesToken(Replay(h[..i], expiration), h[i], expiration);
    GoneStaysGone(h, i + 1, j, h[i].token, expiration);
    assert !Issued(Replay(h[..j], expiration), h[j].key, h[j].token);
  }

  // ----- how long a reservation lasts -----

  /**
   The operations that end a reservation made under `key` at time `since`: its own Finalize, a Reserve on
   the key for whose window it is too old, and a sweep for which it is too old.
   */
  predicate Ends(op: Op, key: string, token: nat, since: int, expiration: int) {
    match op
    case Finalize(k, t, _, _) => k == key && t == token
    case Reserve(k, max, duration, now) => k == key && max > 0 && duration > 0 && now - since >= duration
    case Sweep(now) => now - since > expiration
    case Request(_, _, _, _) => false
  }

  ghost predicate PendingSince(s: State, key: string, token: nat, since: int) {
    token in s.Pending(key) && s.Pending(key)[token] == since
  }

  /** A pending reservation survives a step exactly when the step does not end it. */
  lemma StepEnds(s: State, op: Op, expiration: int, key: string, token: nat, since: int)
    requires s.sequence + 1 < TWO_64 && 1 <= token <= s.sequence && PendingSince(s, key, token, since)
    ensures if Ends(op, key, token, since, expiration) then !Issued(After(s, op, expiration), key, token)
            else PendingSince(After(s, op, expiration), key, token, since)
  {
    if op.Sweep? {
      SweepOnKey(s, op.at, key, expiration);
    } else if op.key != key {
      OtherKeysUntouched(s, op, key, expiration);
    } else if op.Reserve? && op.max > 0 && op.duration > 0 {
      ReserveOnKey(s, key, op.max, op.duration, op.at);
      ReserveSequence(s, key, op.max, op.duration, op.at);
    } else if Effective(s, op) {
      FinalizeOnKey(s, key, op.token, op.success, op.at);
    }
  }

  ghost predicate Undisturbed(h: seq<Op>, i: nat, j: nat, expiration: int)
    requires i < j <= |h| && h[i].Reserve?
  {
    forall k | i < k < j :: !Ends(h[k], h[i].key, Granted(h, i, expiration), h[i].at, expiration)
  }

  lemma GrantIsPending(h: seq<Op>, i: nat, expiration: int)
    requires i < |h| && |h| + 1 < TWO_64 && Granted(h, i, expiration) != 0
    ensures PendingSince(Replay(h[..i + 1], expiration), h[i].key, Granted(h, i, expiration), h[i].at)
  {
    ReplayNext(h, i, expiration);
    ReserveOnKey(Replay(h[..i], expiration), h[i].key, h[i].max, h[i].duration, h[i].at);
  }

  /** Pending since `since` if it still lasts, else not pending. */
  ghost predicate Lasts(s: State, key: string, token: nat, since: int, still: bool) {
    if still then PendingSince(s, key, token, since) else !Issued(s, key, token)
  }

  lemma StepLasts(s: State, op: Op, expiration: int, key: string, token: nat, since: int, still: bool)
    requires s.sequence + 1 < TWO_64 && 1 <= token <= s.sequence && Lasts(s, key, token, since, still)
    ensures Lasts(After(s, op, expiration), key, token, since, still && !Ends(op, key, token, since, expiration))
  {
    if still {
      StepEnds(s, op, expiration, key, token, since);
    } else if Issued(After(s, op, expiration), key, token) {
      StepTokens(s, op, expiration, key, token);
    }
  }

  lemma CounterCovers(h: seq<Op>, i: nat, j: nat, expiration: int)
    requires i < j <= |h| && |h| + 1 < TWO_64 && Granted(h, i, expiration) != 0
    ensures 1 <= Granted(h, i, expiration) <= Replay(h[..j], expiration).sequence < TWO_64 - 1
  {
    ReplayTokensSound(h[..j], expiration);
    GrantBoundsSequence(h, i, j, expiration);
  }

  /** A token is pending exactly as long as nothing has ended its reservation. */
  lemma {:induction false} PendingExactly(h: seq<Op>, i: nat, j: nat, expiration: int)
    requires i < j <= |h| && |h| + 1 < TWO_64 && Granted(h, i, expiration) != 0
    ensures Lasts(Replay(h[..j], expiration), h[i].key, Granted(h, i, expiration), h[i].at, Undisturbed(h, i, j, expiration))
    decreases j - i
  {
    if j == i + 1 {
      GrantIsPending(h, i, expiration);
    } else {
      var s, token, still := Replay(h[..j - 1], expiration), Granted(h, i, expiration), Undisturbed(h, i, j - 1, expiration);
      PendingExactly(h, i, j - 1, expiration);
      CounterCovers(h, i, j - 1, expiration);
      StepLasts(s, h[j - 1], expiration, h[i].key, token, h[i].at, still);
      ReplayNext(h, j - 1, expiration);
      assert Undisturbed(h, i, j, expiration) == (still && !Ends(h[j - 1], h[i].key, token, h[i].at, expiration));
    }
  }

  /**
   Exactly when a Finalize counts: it presents the token after it was handed out, under the key that
   reserved it, and in between no Finalize of it, no Reserve on the key and no sweep has ended the
   reservation.  The age of the reservation alone does not matter.
   */
  lemma FinalizeCountsExactly(h: seq<Op>, i: nat, j: nat, expiration: int)
    requires i < |h| && j < |h| && |h| + 1 < TWO_64
    requires Granted(h, i, expiration) != 0 && h[j].Finalize? && h[j].token == Granted(h, i, expiration)
    ensures TookEffect(h, j, expiration)
            <==> i < j && h[j].key == h[i].key && Undisturbed(h, i, j, expiration)
  {
    if h[j].key != h[i].key {
      WrongKeyHasNoEffect(h, i, j, expiration);
    } else if i < j {
      PendingExactly(h, i, j, expiration);
    } else if TookEffect(h, j, expiration) {
      var g := PendingWasGranted(h, j, h[j].key, h[j].token, expiration);
      TokensAreUnique(h, g, i, expiration);
    }
  }

  /** An expired reservation that nothing has pruned is still converted into a completed request. */
  lemma LateFinalizeCounts(duration: int, t: int, expiration: int)
    requires 0 < duration <= t
    ensures var h := [Reserve("k", 1, duration, 0), Finalize("k", 1, true, t)];
            && Granted(h, 0, expiration) == 1 && h[1].at - h[0].at >= duration
            && TookEffect(h, 1, expiration) && Completed(h, "k", expiration) == [t]
  {
    var h := [Reserve("k", 1, duration, 0), Finalize("k", 1, true, t)];
    assert h[..0] == [];
    ReserveOnKey(EMPTY, "k", 1, duration, 0);
    assert Granted(h, 0, expiration) == 1;
    FinalizeCountsExactly(h, 0, 1, expiration);
    assert Init(h) == h[..1] && Init(h[..1]) == [];
    assert Completed(h[..1], "k", expiration) == [];
    assert [] + [t] == [t];
  }

  // ----- exactly when completions stay within the limit -----

  lemma CycleStep(s: State, key: string, max: int, duration: int, now: int, expiration: int)
    requires max > 0 && duration > 0 && s.sequence + 1 < TWO_64 && s.Pending(key) == map[]
    requires |RemoveExpired(s.Queue(key), now, duration)| < max
    ensures var s1, done := After(s, Reserve(key, max, duration, now), expiration), Finalize(key, s.sequence + 1, true, now);
            var s2 := After(s1, done, expiration);
            && Effective(s1, done)
            && s2.Queue(key) == RemoveExpired(s.Queue(key), now, duration) + [now]
            && s2.Pending(key) == map[] && s2.sequence == s.sequence + 1
  {
    ReserveOnKey(s, key, max, duration, now);
    ReserveSequence(s, key, max, duration, now);
    var s1 := After(s, Reserve(key, max, duration, now), expiration);
    assert Unexpired(s.Pending(key), now, duration) == map[];
    FinalizeOnKey(s1, key, s.sequence + 1, true, now);
  }

  lemma CompletedAppend(h: seq<Op>, op: Op, key: string, expiration: int)
    ensures Completed(h + [op], key, expiration) ==
            if Touches(op, key) && Effective(Replay(h, expiration), op) && op.success
            then Completed(h, key, expiration) + [op.at] else Completed(h, key, expiration)
  {
    assert Init(h + [op]) == h;
  }

  /** The run continued by a reservation that is completed at once. */
  function Cycled(h: seq<Op>, key: string, max: int, duration: int, token: nat, at: int): seq<Op> {
    h + [Reserve(key, max, duration, at)] + [Finalize(key, token, true, at)]
  }

  /** `h` leads to state `s` and has completed `done` under `key`. */
  ghost predicate LeadsTo(h: seq<Op>, key: string, expiration: int, s: State, done: seq<int>) {
    Replay(h, expiration) == s && Completed(h, key, expiration) == done
  }

  lemma LeadsOn(h: seq<Op>, op: Op, key: string, expiration: int, s: State, done: seq<int>)
    requires LeadsTo(h, key, expiration, s, done)
    ensures LeadsTo(h + [op], key, expiration, After(s, op, expiration),
                    if Touches(op, key) && Effective(s, op) && op.success then done + [op.at] else done)
  {
    ReplayAppend(h, op, expiration);
    CompletedAppend(h, op, key, expiration);
  }

  /** After `h` nothing is pending under `key`, `n` tokens were handed out, and this is stored and was completed. */
  ghost predicate Shape(h: seq<Op>, key: string, expiration: int, n: nat, queue: seq<int>, done: seq<int>) {
    exists s :: LeadsTo(h, key, expiration, s, done) && s.sequence == n && s.Pending(key) == map[] && s.Queue(key) == queue
  }

  lemma CycleShape(h: seq<Op>, key: string, max: int, duration: int, now: int, expiration: int, n: nat, queue: seq<int>, done: seq<int>)
    requires max > 0 && duration > 0 && n + 1 < TWO_64 && Shape(h, key, expiration, n, queue, done)
    requires |RemoveExpired(queue, now, duration)| < max
    ensures Shape(Cycled(h, key, max, duration, n + 1, now), key, expiration,
                  n + 1, RemoveExpired(queue, now, duration) + [now], done + [now])
  {
    var s :| LeadsTo(h, key, expiration, s, done) && s.sequence == n && s.Pending(key) == map[] && s.Queue(key) == queue;
    var reserve, finalize := Reserve(key, max, duration, now), Finalize(key, n + 1, true, now);
    CycleStep(s, key, max, duration, now, expiration);
    LeadsOn(h, reserve, key, expiration, s, done);
    LeadsOn(h + [reserve], finalize, key, expiration, After(s, reserve, expiration), done);
  }

  function Zeros(n: nat): (log: seq<int>)
    ensures |log| == n && AllZero(log)
  {
    if n == 0 then [] else Zeros(n - 1) + [0]
  }

  function Cycles(n: nat, key: string, max: int, duration: int): seq<Op> {
    if n == 0 then [] else Cycled(Cycles(n - 1, key, max, duration), key, max, duration, n, 0)
  }

  /** Completions up to the limit, all at time 0. */
  lemma {:induction false} CyclesShape(n: nat, key: string, max: int, duration: int, expiration: int)
    requires n <= max && n + 1 < TWO_64 && duration > 0
    ensures Shape(Cycles(n, key, max, duration), key, expiration, n, Zeros(n), Zeros(n))
  {
    if n == 0 {
      assert LeadsTo([], key, expiration, EMPTY, []);
    } else {
      CyclesShape(n - 1, key, max, duration, expiration);
      assert RemoveExpired(Zeros(n - 1), 0, duration) == Zeros(n - 1);
      CycleShape(Cycles(n - 1, key, max, duration), key, max, duration, 0, expiration, n - 1, Zeros(n - 1), Zeros(n - 1));
    }
  }

  /** A run of reservations on `key` that has reached time `now`. */
  ghost predicate RunUpTo(h: seq<Op>, key: string, max: int, duration: int, now: int) {
    Ordered(h) && OpsUpTo(h, now) && OnlyReservations(h, key, max, duration)
  }

  lemma RunAppend(h: seq<Op>, key: string, max: int, duration: int, now: int, op: Op)
    requires RunUpTo(h, key, max, duration, now) && op.at >= now && (Touches(op, key) ==> IsReservation(op, max, duration))
    ensures RunUpTo(h + [op], key, max, duration, op.at)
  {
  }

  lemma RunCycled(h: seq<Op>, key: string, max: int, duration: int, now: int, token: nat, at: int)
    requires RunUpTo(h, key, max, duration, now) && at >= now
    ensures RunUpTo(Cycled(h, key, max, duration, token, at), key, max, duration, at)
  {
    var reserve := Reserve(key, max, duration, at);
    RunAppend(h, key, max, duration, now, reserve);
    RunAppend(h + [reserve], key, max, duration, at, Finalize(key, token, true, at));
  }

  lemma {:induction false} CyclesRun(n: nat, key: string, max: int, duration: int)
    ensures RunUpTo(Cycles(n, key, max, duration), key, max, duration, 0)
  {
    if n > 0 {
      CyclesRun(n - 1, key, max, duration);
      RunCycled(Cycles(n - 1, key, max, duration), key, max, duration, 0, n, 0);
    }
  }

  lemma SweepShape(h: seq<Op>, key: string, expiration: int, t: int, n: nat, queue: seq<int>, done: seq<int>)
    requires Shape(h, key, expiration, n, queue, done) && Stale(queue, t, expiration)
    ensures Shape(h + [Sweep(t)], key, expiration, n, [], done)
  {
    var s :| LeadsTo(h, key, expiration, s, done) && s.sequence == n && s.Pending(key) == map[] && s.Queue(key) == queue;
    LeadsOn(h, Sweep(t), key, expiration, s, done);
    SweepOnKey(s, t, key, expiration);
  }

  /** In every run at most `max` requests complete in any `duration` seconds. */
  ghost predicate CompletionsLimited(max: int, duration: int, expiration: int) {
    forall h, key {:trigger Completed(h, key, expiration)} :: Ordered(h) && OnlyReservations(h, key, max, duration)
      ==> Spaced(Completed(h, key, expiration), max, duration)
  }

  lemma EarlySweepCompletesTooMuch(key: string, max: int, duration: int, expiration: int)
    requires 0 < max < TWO_64 - 2 && expiration >= 0 && duration > expiration + 1
    ensures !CompletionsLimited(max, duration, expiration)
  {
    var t, full := expiration + 1, Cycles(max, key, max, duration);
    CyclesRun(max, key, max, duration);
    RunAppend(full, key, max, duration, 0, Sweep(t));
    RunCycled(full + [Sweep(t)], key, max, duration, t, max + 1, t);
    CyclesShape(max, key, max, duration, expiration);
    SweepShape(full, key, expiration, t, max, Zeros(max), Zeros(max));
    CycleShape(full + [Sweep(t)], key, max, duration, t, expiration, max, [], Zeros(max));
    var log := Completed(Cycled(full + [Sweep(t)], key, max, duration, max + 1, t), key, expiration);
    assert log == Zeros(max) + [t];
    TooManyZeros(Zeros(max), t, max, duration);
  }

  /** Completions stay within the limit in every window of every run, if and only if the sweeper waits long enough. */
  lemma CompletionsLimitedExactly(max: int, duration: int, expiration: int)
    requires 0 < max < TWO_64 - 2 && duration > 0 && expiration >= 0
    ensures CompletionsLimited(max, duration, expiration) <==> duration <= expiration + 1
  {
    if duration <= expiration + 1 {
      forall h, key | Ordered(h) && OnlyReservations(h, key, max, duration)
        ensures Spaced(Completed(h, key, expiration), max, duration)
      {
        SuccessesAreSpaced(h, key, max, duration, expiration);
      }
    } else {
      EarlySweepCompletesTooMuch("", max, duration, expiration);
    }
  }
}
