/**
 The concurrency counter kept in Redis (common/business_monitor_concurrency.go).

 Four Lua scripts work on one sorted set: a member is a request id, its score the second at which
 its lease ends.  The key as a whole also expires (`EXPIRE`).  Redis counts key expiry in milliseconds,
 the scripts count in seconds (`TIME`).  Times below are in milliseconds.
 */
module LeaseCounter {
  import opened Wrappers

  function Seconds(ms: nat): nat {
    ms / 1000
  }

  // ----- the key and the Redis commands the scripts use -----

  /** A key with no members does not exist, and then carries no expiry. */
  datatype Key = Key(members: map<string, nat>, expiry: Option<nat>)

  const ABSENT := Key(map[], None)

  /** A key past its expiry is gone before a script sees it. */
  function Settle(k: Key, now: nat): Key {
    if k.expiry.Some? && now > k.expiry.value then ABSENT else k
  }

  function Keep(k: Key, members: map<string, nat>): Key {
    if members == map[] then ABSENT else Key(members, k.expiry)
  }

  function ZRemRangeByScore(k: Key, max: nat): Key {
    Keep(k, map id | id in k.members && k.members[id] > max :: k.members[id])
  }

  function ZAdd(k: Key, id: string, score: nat): Key {
    k.(members := k.members[id := score])
  }

  function ZRem(k: Key, id: string): Key {
    Keep(k, k.members - {id})
  }

  /** `EXPIRE` with a non-positive ttl deletes the key. */
  function Expire(k: Key, now: nat, ttl: nat): Key {
    if k.members == map[] then k
    else if ttl == 0 then ABSENT
    else k.(expiry := Some(now + 1000 * ttl))
  }

  // ----- the scripts -----

  datatype Op =
    | Acquire(id: string, ttl: nat, at: nat)
    | Refresh(id: string, ttl: nat, at: nat)
    | Release(id: string, at: nat)
    | Count(at: nat)

  function After(k: Key, op: Op): Key {
    var k := Settle(k, op.at);
    match op
    case Acquire(id, ttl, now) =>
      Expire(ZAdd(ZRemRangeByScore(k, Seconds(now)), id, Seconds(now) + ttl), now, ttl)
    case Refresh(id, ttl, now) => Expire(ZAdd(k, id, Seconds(now) + ttl), now, ttl)
    case Release(id, now) => ZRemRangeByScore(ZRem(k, id), Seconds(now))
    case Count(now) => ZRemRangeByScore(k, Seconds(now))
  }

  /** The key as an object that the scripts change command by command. */
  class LeaseKey {
    var members: map<string, nat>
    var expiry: Option<nat>

    function State(): Key
      reads this
    {
      Key(members, expiry)
    }

    constructor ()
      ensures State() == ABSENT
    {
      members, expiry := map[], None;
    }

    method Drop()
      modifies this
      ensures State() == ABSENT
    {
      members, expiry := map[], None;
    }

    method Open(now: nat)
      modifies this
      ensures State() == Settle(old(State()), now)
    {
      if expiry.Some? && now > expiry.value { Drop(); }
    }

    method Prune(max: nat)
      modifies this
      ensures State() == ZRemRangeByScore(old(State()), max)
    {
      members := map id | id in members && members[id] > max :: members[id];
      if members == map[] { Drop(); }
    }

    method Add(id: string, score: nat)
      modifies this
      ensures State() == ZAdd(old(State()), id, score)
    {
      members := members[id := score];
    }

    method Remove(id: string)
      modifies this
      ensures State() == ZRem(old(State()), id)
    {
      members := members - {id};
      if members == map[] { Drop(); }
    }

    method SetExpiry(now: nat, ttl: nat)
      modifies this
      ensures State() == Expire(old(State()), now, ttl)
    {
      if members != map[] {
        if ttl == 0 { Drop(); } else { expiry := Some(now + 1000 * ttl); }
      }
    }

    method AcquireScript(id: string, ttl: nat, now: nat) returns (count: nat)
      modifies this
      ensures State() == After(old(State()), Acquire(id, ttl, now))
      ensures count == |State().members|
    {
      Open(now);
      var expiresAt := Seconds(now) + ttl;
      Prune(Seconds(now));
      Add(id, expiresAt);
      SetExpiry(now, ttl);
      count := |members|;
    }

    method RefreshScript(id: string, ttl: nat, now: nat) returns (one: nat)
      modifies this
      ensures State() == After(old(State()), Refresh(id, ttl, now))
      ensures one == 1
    {
      Open(now);
      var expiresAt := Seconds(now) + ttl;
      Add(id, expiresAt);
      SetExpiry(now, ttl);
      one := 1;
    }

    method CountScript(now: nat) returns (count: nat)
      modifies this
      ensures State() == After(old(State()), Count(now))
      ensures count == |State().members|
    {
      Open(now);
      Prune(Seconds(now));
      count := |members|;
    }

    method ReleaseScript(id: string, now: nat) returns (count: nat)
      modifies this
      ensures State() == After(old(State()), Release(id, now))
      ensures count == |State().members|
    {
      Open(now);
      Remove(id);
      Prune(Seconds(now));
      count := |members|;
    }
  }

  // ----- the specification: what the history of calls says -----

  function Ids(h: seq<Op>): set<string> {
    set i | 0 <= i < |h| && !h[i].Count? :: h[i].id
  }

  /** The second at which the lease of `id` ends, if its last call acquired or refreshed it. */
  function Lease(h: seq<Op>, id: string): Option<nat> {
    if h == [] then None
    else
      var op := h[|h| - 1];
      if op.Count? || op.id != id then Lease(h[..|h| - 1], id)
      else if op.Release? then None
      else Some(Seconds(op.at) + op.ttl)
  }

  /** The requests in flight at `now`. */
  function Live(h: seq<Op>, now: nat): set<string> {
    set id | id in Ids(h) && Lease(h, id).Some? && Lease(h, id).value > Seconds(now)
  }

  // ----- agreement of key and history -----

  ghost predicate Agrees(k: Key, h: seq<Op>, now: nat) {
    && (forall id :: id in k.members ==> Lease(h, id) == Some(k.members[id]))
    && (forall id :: id in Ids(h) && id !in k.members && Lease(h, id).Some? ==> Lease(h, id).value <= Seconds(now))
    && (forall id :: id in k.members && k.expiry.Some? ==> 1000 * k.members[id] <= k.expiry.value + 1)
  }

  /** No other live lease outlasts the key expiry that the call is about to set. */
  ghost predicate Covers(h: seq<Op>, op: Op) {
    op.Acquire? || op.Refresh? ==>
      && op.ttl >= 1
      && forall id :: id in Live(h, op.at) && id != op.id ==> 1000 * Lease(h, id).value <= op.at + 1000 * op.ttl + 1
  }

  lemma {:induction false} LeaseHasId(h: seq<Op>, id: string)
    requires Lease(h, id).Some?
    ensures id in Ids(h)
  {
    var op := h[|h| - 1];
    if op.Count? || op.id != id {
      LeaseHasId(h[..|h| - 1], id);
      var i :| 0 <= i < |h| - 1 && !h[..|h| - 1][i].Count? && h[..|h| - 1][i].id == id;
      assert h[i].id == id;
    }
  }

  lemma IdsAppend(h: seq<Op>, op: Op)
    ensures Ids(h + [op]) == Ids(h) + if op.Count? then {} else {op.id}
  {
    var h' := h + [op];
    forall id | id in Ids(h) ensures id in Ids(h') {
      var i :| 0 <= i < |h| && !h[i].Count? && h[i].id == id;
      assert h'[i].id == id;
    }
    if !op.Count? {
      assert h'[|h|].id == op.id;
    }
  }

  lemma LeaseAppend(h: seq<Op>, op: Op, id: string)
    ensures Lease(h + [op], id) ==
            if op.Count? || op.id != id then Lease(h, id)
            else if op.Release? then None else Some(Seconds(op.at) + op.ttl)
  {
    assert (h + [op])[..|h|] == h;
  }

  lemma SettleAgrees(k: Key, h: seq<Op>, before: nat, now: nat)
    requires Agrees(k, h, before) && before <= now
    ensures Agrees(Settle(k, now), h, now)
  {
    if k.expiry.Some? && now > k.expiry.value {
      forall id | id in Ids(h) && Lease(h, id).Some? ensures Lease(h, id).value <= Seconds(now) {
        if id in k.members {
          assert 1000 * k.members[id] <= k.expiry.value + 1 <= now;
        }
      }
    }
  }

  lemma PruneAgrees(k: Key, h: seq<Op>, now: nat)
    requires Agrees(k, h, now)
    ensures Agrees(ZRemRangeByScore(k, Seconds(now)), h, now)
  {
  }

  /** The members left after pruning are exactly the live requests. */
  lemma PrunedMembersAreLive(k: Key, h: seq<Op>, now: nat)
    requires Agrees(k, h, now) && forall id :: id in k.members ==> k.members[id] > Seconds(now)
    ensures k.members.Keys == Live(h, now)
  {
    forall id | id in k.members ensures id in Live(h, now) {
      LeaseHasId(h, id);
    }
  }

  lemma LeaseStepAgrees(k: Key, h: seq<Op>, op: Op)
    requires (op.Acquire? || op.Refresh?) && Agrees(k, h, op.at) && Covers(h, op)
    ensures Agrees(Expire(ZAdd(k, op.id, Seconds(op.at) + op.ttl), op.at, op.ttl), h + [op], op.at)
  {
    var k' := Expire(ZAdd(k, op.id, Seconds(op.at) + op.ttl), op.at, op.ttl);
    IdsAppend(h, op);
    forall id ensures Lease(h + [op], id) == if op.id != id then Lease(h, id) else Some(Seconds(op.at) + op.ttl) {
      LeaseAppend(h, op, id);
    }
    forall id | id in k'.members && id != op.id ensures 1000 * k'.members[id] <= k'.expiry.value + 1 {
      LeaseHasId(h, id);
      if k.members[id] > Seconds(op.at) {
        assert id in Live(h, op.at);
      }
    }
  }

  lemma ReleaseStepAgrees(k: Key, h: seq<Op>, op: Op)
    requires op.Release? && Agrees(k, h, op.at)
    ensures Agrees(ZRem(k, op.id), h + [op], op.at)
  {
    IdsAppend(h, op);
    forall id ensures Lease(h + [op], id) == if op.id != id then Lease(h, id) else None {
      LeaseAppend(h, op, id);
    }
  }

  lemma CountStepAgrees(k: Key, h: seq<Op>, op: Op)
    requires op.Count? && Agrees(k, h, op.at)
    ensures Agrees(k, h + [op], op.at)
  {
    IdsAppend(h, op);
    forall id ensures Lease(h + [op], id) == Lease(h, id) {
      LeaseAppend(h, op, id);
    }
  }

  lemma AcquireAgrees(k: Key, h: seq<Op>, op: Op)
    requires op.Acquire? && Agrees(k, h, op.at) && Covers(h, op)
    ensures Agrees(Expire(ZAdd(ZRemRangeByScore(k, Seconds(op.at)), op.id, Seconds(op.at) + op.ttl), op.at, op.ttl), h + [op], op.at)
  {
    PruneAgrees(k, h, op.at);
    LeaseStepAgrees(ZRemRangeByScore(k, Seconds(op.at)), h, op);
  }

  /** One call keeps key and history in agreement ... */
  lemma StepAgrees(k: Key, h: seq<Op>, before: nat, op: Op)
    requires Agrees(k, h, before) && before <= op.at && Covers(h, op)
    ensures Agrees(After(k, op), h + [op], op.at)
  {
    var s := Settle(k, op.at);
    SettleAgrees(k, h, before, op.at);
    if op.Acquire? {
      AcquireAgrees(s, h, op);
    } else if op.Refresh? {
      LeaseStepAgrees(s, h, op);
    } else if op.Release? {
      ReleaseStepAgrees(s, h, op);
      PruneAgrees(ZRem(s, op.id), h + [op], op.at);
    } else {
      CountStepAgrees(s, h, op);
      PruneAgrees(s, h + [op], op.at);
    }
  }

  lemma CountingCallsPrune(k: Key, op: Op)
    requires !op.Refresh? && (op.Acquire? ==> op.ttl >= 1)
    ensures forall id :: id in After(k, op).members ==> After(k, op).members[id] > Seconds(op.at)
  {
  }

  /** ... and a counting call leaves exactly the live requests in the set. */
  lemma CountingCallShowsLive(k: Key, h: seq<Op>, before: nat, op: Op)
    requires Agrees(k, h, before) && before <= op.at && Covers(h, op) && !op.Refresh?
    ensures After(k, op).members.Keys == Live(h + [op], op.at)
  {
    StepAgrees(k, h, before, op);
    CountingCallsPrune(k, op);
    PrunedMembersAreLive(After(k, op), h + [op], op.at);
  }

  // ----- whole runs -----

  ghost predicate Ordered(h: seq<Op>) {
    forall i, j :: 0 <= i < j < |h| ==> h[i].at <= h[j].at
  }

  ghost predicate ConstantTtl(h: seq<Op>, ttl: nat) {
    forall i :: 0 <= i < |h| && (h[i].Acquire? || h[i].Refresh?) ==> h[i].ttl == ttl
  }

  function Replay(h: seq<Op>): Key {
    if h == [] then ABSENT else After(Replay(h[..|h| - 1]), h[|h| - 1])
  }

  lemma {:induction false} LeaseBound(h: seq<Op>, ttl: nat, id: string, now: nat)
    requires ConstantTtl(h, ttl) && Lease(h, id).Some? && forall i :: 0 <= i < |h| ==> h[i].at <= now
    ensures Lease(h, id).value <= Seconds(now) + ttl
  {
    var op := h[|h| - 1];
    if op.Count? || op.id != id {
      LeaseBound(h[..|h| - 1], ttl, id, now);
    }
  }

  /** With a constant ttl no call can shorten the key's expiry below another request's lease. */
  lemma ConstantTtlCovers(h: seq<Op>, op: Op, ttl: nat)
    requires ttl >= 1 && Ordered(h + [op]) && ConstantTtl(h + [op], ttl)
    ensures Covers(h, op)
  {
    var h' := h + [op];
    assert h'[|h|] == op;
    assert forall i :: 0 <= i < |h| ==> h[i] == h'[i];
    if op.Acquire? || op.Refresh? {
      assert h'[|h|].ttl == ttl;
      forall id | id in Live(h, op.at) ensures 1000 * Lease(h, id).value <= op.at + 1000 * ttl + 1 {
        LeaseBound(h, ttl, id, op.at);
      }
    }
  }

  function LastTime(h: seq<Op>): nat {
    if h == [] then 0 else h[|h| - 1].at
  }

  /** Every call of the run leaves the other live leases within the key expiry it sets. */
  ghost predicate CoveredRun(h: seq<Op>) {
    h == [] || (CoveredRun(h[..|h| - 1]) && Covers(h[..|h| - 1], h[|h| - 1]))
  }

  lemma {:induction false} CoveredRunAgrees(h: seq<Op>)
    requires Ordered(h) && CoveredRun(h)
    ensures Agrees(Replay(h), h, LastTime(h))
  {
    if h != [] {
      var h', op := h[..|h| - 1], h[|h| - 1];
      CoveredRunAgrees(h');
      StepAgrees(Replay(h'), h', LastTime(h'), op);
      assert h' + [op] == h;
    }
  }

  /** In every covered run the members left by a counting call are exactly the live requests. */
  lemma CoveredCountsAreExact(h: seq<Op>)
    requires Ordered(h) && CoveredRun(h) && h != [] && !h[|h| - 1].Refresh?
    ensures Replay(h).members.Keys == Live(h, LastTime(h))
  {
    var h', op := h[..|h| - 1], h[|h| - 1];
    CoveredRunAgrees(h');
    assert h' + [op] == h;
    CountingCallShowsLive(Replay(h'), h', LastTime(h'), op);
  }

  lemma {:induction false} ConstantTtlRunIsCovered(h: seq<Op>, ttl: nat)
    requires ttl >= 1 && Ordered(h) && ConstantTtl(h, ttl)
    ensures CoveredRun(h)
  {
    if h != [] {
      var h', op := h[..|h| - 1], h[|h| - 1];
      ConstantTtlRunIsCovered(h', ttl);
      assert h' + [op] == h;
      ConstantTtlCovers(h', op, ttl);
    }
  }

  /**
   Over every run with one ttl of at least a second: each count returned by acquire, release or count
   is the number of requests whose last call acquired or refreshed them less than a ttl ago.  Pruning,
   the missing prune in refresh and the expiry of the whole key cannot be observed.
   */
  lemma CountsAreExact(h: seq<Op>, ttl: nat)
    requires ttl >= 1 && Ordered(h) && ConstantTtl(h, ttl) && h != [] && !h[|h| - 1].Refresh?
    ensures |Replay(h).members| == |Live(h, LastTime(h))|
  {
    ConstantTtlRunIsCovered(h, ttl);
    CoveredCountsAreExact(h);
  }

  /**
   Exactly when a lease call is safe with ttls that vary: agreement survives all later counts if and
   only if no other live lease outlasts the key expiry being set.
   */
  lemma SafeExactlyWhenCovered(k: Key, h: seq<Op>, before: nat, op: Op)
    requires (op.Acquire? || op.Refresh?) && op.ttl >= 1
    requires Agrees(k, h, before) && before <= op.at
    ensures Covers(h, op) <==>
            forall t :: t >= op.at ==> CountShowsLive(After(k, op), h + [op], t)
  {
    var k', h' := After(k, op), h + [op];
    if Covers(h, op) {
      StepAgrees(k, h, before, op);
      forall t | t >= op.at ensures CountShowsLive(k', h', t) {
        LaterCountShowsLive(k', h', op.at, t);
      }
    } else {
      var id :| id in Live(h, op.at) && id != op.id && 1000 * Lease(h, id).value > op.at + 1000 * op.ttl + 1;
      UncoveredLeaseIsLost(k, h, op, id);
      assert !CountShowsLive(k', h', op.at + 1000 * op.ttl + 1);
    }
  }

  lemma LaterCountShowsLive(k: Key, h: seq<Op>, before: nat, t: nat)
    requires Agrees(k, h, before) && before <= t
    ensures CountShowsLive(k, h, t)
  {
    SettleAgrees(k, h, before, t);
    PruneAgrees(Settle(k, t), h, t);
    PrunedMembersAreLive(After(k, Count(t)), h, t);
  }

  /** The whole key expires while the other lease is still running. */
  lemma UncoveredLeaseIsLost(k: Key, h: seq<Op>, op: Op, id: string)
    requires (op.Acquire? || op.Refresh?) && op.ttl >= 1
    requires id in Live(h, op.at) && id != op.id && 1000 * Lease(h, id).value > op.at + 1000 * op.ttl + 1
    ensures !CountShowsLive(After(k, op), h + [op], op.at + 1000 * op.ttl + 1)
  {
    var t := op.at + 1000 * op.ttl + 1;
    LeaseAppend(h, op, id);
    IdsAppend(h, op);
    assert id in Live(h + [op], t);
    LeaseCallSetsExpiry(k, op);
    assert Settle(After(k, op), t) == ABSENT;
  }

  lemma LeaseCallSetsExpiry(k: Key, op: Op)
    requires (op.Acquire? || op.Refresh?) && op.ttl >= 1
    ensures After(k, op).expiry == Some(op.at + 1000 * op.ttl)
  {
    var s := Settle(k, op.at);
    assert op.id in ZAdd(s, op.id, Seconds(op.at) + op.ttl).members;
    assert op.id in ZAdd(ZRemRangeByScore(s, Seconds(op.at)), op.id, Seconds(op.at) + op.ttl).members;
  }

  ghost predicate CountShowsLive(k: Key, h: seq<Op>, t: nat) {
    After(k, Count(t)).members.Keys == Live(h, t)
  }

  /** After every call, if it were the last, counts made at any later time would be right. */
  ghost predicate RightWhereverCallsStop(h: seq<Op>) {
    && (h == [] || RightWhereverCallsStop(h[..|h| - 1]))
    && forall t :: t >= LastTime(h) ==> CountShowsLive(Replay(h), h, t)
  }

  /** A run is safe wherever its calls stop if and only if every call of it is covered. */
  lemma {:induction false} SafeWhereverCallsStop(h: seq<Op>)
    requires Ordered(h) && forall i :: 0 <= i < |h| && IsLease(h[i]) ==> h[i].ttl >= 1
    ensures RightWhereverCallsStop(h) <==> CoveredRun(h)
  {
    if CoveredRun(h) {
      CoveredRunAgrees(h);
      forall t | t >= LastTime(h) ensures CountShowsLive(Replay(h), h, t) {
        LaterCountShowsLive(Replay(h), h, LastTime(h), t);
      }
    }
    if h != [] {
      var h', op := h[..|h| - 1], h[|h| - 1];
      SafeWhereverCallsStop(h');
      if RightWhereverCallsStop(h) && IsLease(op) {
        CoveredRunAgrees(h');
        assert h' + [op] == h && Replay(h) == After(Replay(h'), op);
        SafeExactlyWhenCovered(Replay(h'), h', LastTime(h'), op);
      }
    }
  }

  // ----- exactly when a count is right, for ttls that vary in any way -----

  predicate IsLease(op: Op) {
    op.Acquire? || op.Refresh?
  }

  /** The moment up to which the last acquire or refresh keeps the key; `None` if it deletes it. */
  function KeptUntil(h: seq<Op>): Option<nat> {
    if h == [] then None
    else
      var op := h[|h| - 1];
      if !IsLease(op) then KeptUntil(h[..|h| - 1])
      else if op.ttl == 0 then None
      else Some(op.at + 1000 * op.ttl)
  }

  predicate Kept(h: seq<Op>, t: nat) {
    KeptUntil(h).Some? && t <= KeptUntil(h).value
  }

  /** Since the last acquire or refresh of `id` every call came while the key was kept, and none deleted it. */
  predicate Survives(h: seq<Op>, id: string) {
    if h == [] then false
    else
      var op := h[|h| - 1];
      if IsLease(op) && op.ttl == 0 then false
      else if IsLease(op) && op.id == id then true
      else Survives(h[..|h| - 1], id) && Kept(h[..|h| - 1], op.at)
  }

  lemma SurvivesAppend(h: seq<Op>, op: Op, id: string)
    ensures Survives(h + [op], id) ==
            if IsLease(op) && op.ttl == 0 then false
            else if IsLease(op) && op.id == id then true
            else Survives(h, id) && Kept(h, op.at)
  {
    assert (h + [op])[..|h|] == h;
  }

  lemma KeptAppend(h: seq<Op>, op: Op)
    ensures KeptUntil(h + [op]) ==
            if !IsLease(op) then KeptUntil(h) else if op.ttl == 0 then None else Some(op.at + 1000 * op.ttl)
  {
    assert (h + [op])[..|h|] == h;
  }

  /** The key holds leases that survived, and all of them that are live; its expiry is the one last set. */
  ghost predicate Holds(k: Key, h: seq<Op>, now: nat) {
    && (forall id :: id in k.members ==> Lease(h, id) == Some(k.members[id]) && Survives(h, id))
    && (forall id :: id in Live(h, now) && Survives(h, id) ==> id in k.members)
    && (if k.members == map[] then k == ABSENT else k.expiry.Some? && k.expiry == KeptUntil(h))
  }

  /** The same when a script begins: what is held is also kept until now. */
  ghost predicate HoldsNow(k: Key, h: seq<Op>, now: nat) {
    && (forall id :: id in k.members ==> Lease(h, id) == Some(k.members[id]) && Survives(h, id) && Kept(h, now))
    && (forall id :: id in Live(h, now) && Survives(h, id) && Kept(h, now) ==> id in k.members)
    && (if k.members == map[] then k == ABSENT else k.expiry.Some? && k.expiry == KeptUntil(h))
  }

  lemma LiveEarlier(h: seq<Op>, before: nat, now: nat, id: string)
    requires before <= now && id in Live(h, now)
    ensures id in Live(h, before)
  {
  }

  lemma SettleHolds(k: Key, h: seq<Op>, before: nat, now: nat)
    requires Holds(k, h, before) && before <= now
    ensures HoldsNow(Settle(k, now), h, now)
  {
    forall id | id in Live(h, now) && Survives(h, id) && Kept(h, now) ensures id in Settle(k, now).members {
      LiveEarlier(h, before, now, id);
    }
  }

  lemma PruneHolds(k: Key, h: seq<Op>, now: nat)
    requires HoldsNow(k, h, now)
    ensures HoldsNow(ZRemRangeByScore(k, Seconds(now)), h, now)
  {
    var m := map id | id in k.members && k.members[id] > Seconds(now) :: k.members[id];
    forall id | id in Live(h, now) && Survives(h, id) && Kept(h, now) ensures id in m {
      assert id in k.members;
    }
  }

  lemma PruneKeepsHolding(k: Key, h: seq<Op>, now: nat)
    requires Holds(k, h, now)
    ensures Holds(ZRemRangeByScore(k, Seconds(now)), h, now)
  {
    var m := map id | id in k.members && k.members[id] > Seconds(now) :: k.members[id];
    forall id | id in Live(h, now) && Survives(h, id) ensures id in m {
      assert id in k.members;
    }
  }

  /** What one more call does to an id's lease and survival. */
  lemma AppendFacts(h: seq<Op>, op: Op, id: string)
    ensures IsLease(op) && op.ttl > 0 && id == op.id ==>
      Lease(h + [op], id) == Some(Seconds(op.at) + op.ttl) && Survives(h + [op], id)
    ensures (op.Count? || id != op.id) && !(IsLease(op) && op.ttl == 0) ==>
      && Lease(h + [op], id) == Lease(h, id)
      && Survives(h + [op], id) == (Survives(h, id) && Kept(h, op.at))
      && (id in Live(h + [op], op.at) <==> id in Live(h, op.at))
  {
    LeaseAppend(h, op, id);
    SurvivesAppend(h, op, id);
    IdsAppend(h, op);
  }

  lemma LeaseStepHolds(k: Key, h: seq<Op>, op: Op)
    requires IsLease(op) && op.ttl > 0 && HoldsNow(k, h, op.at)
    ensures Holds(Expire(ZAdd(k, op.id, Seconds(op.at) + op.ttl), op.at, op.ttl), h + [op], op.at)
  {
    var k' := Expire(ZAdd(k, op.id, Seconds(op.at) + op.ttl), op.at, op.ttl);
    assert op.id in k'.members;
    KeptAppend(h, op);
    forall id | id in k'.members ensures Lease(h + [op], id) == Some(k'.members[id]) && Survives(h + [op], id) {
      AppendFacts(h, op, id);
    }
    forall id | id in Live(h + [op], op.at) && Survives(h + [op], id) ensures id in k'.members {
      AppendFacts(h, op, id);
    }
  }

  /** A ttl of zero deletes the whole key, and with it every lease. */
  lemma ZeroStepHolds(k: Key, h: seq<Op>, op: Op)
    requires IsLease(op) && op.ttl == 0
    ensures Expire(ZAdd(k, op.id, Seconds(op.at) + op.ttl), op.at, op.ttl) == ABSENT && Holds(ABSENT, h + [op], op.at)
  {
    assert op.id in ZAdd(k, op.id, Seconds(op.at) + op.ttl).members;
    forall id ensures !Survives(h + [op], id) {
      SurvivesAppend(h, op, id);
    }
  }

  lemma ReleaseStepHolds(k: Key, h: seq<Op>, op: Op)
    requires op.Release? && HoldsNow(k, h, op.at)
    ensures Holds(ZRem(k, op.id), h + [op], op.at)
  {
    KeptAppend(h, op);
    LeaseAppend(h, op, op.id);
    forall id | id in ZRem(k, op.id).members ensures Lease(h + [op], id) == Some(k.members[id]) && Survives(h + [op], id) {
      AppendFacts(h, op, id);
    }
    forall id | id in Live(h + [op], op.at) && Survives(h + [op], id) ensures id in k.members - {op.id} {
      AppendFacts(h, op, id);
    }
  }

  lemma CountStepHolds(k: Key, h: seq<Op>, op: Op)
    requires op.Count? && HoldsNow(k, h, op.at)
    ensures Holds(k, h + [op], op.at)
  {
    KeptAppend(h, op);
    forall id | id in k.members ensures Lease(h + [op], id) == Some(k.members[id]) && Survives(h + [op], id) {
      AppendFacts(h, op, id);
    }
    forall id | id in Live(h + [op], op.at) && Survives(h + [op], id) ensures id in k.members {
      AppendFacts(h, op, id);
    }
  }

  lemma StepHolds(k: Key, h: seq<Op>, before: nat, op: Op)
    requires Holds(k, h, before) && before <= op.at
    ensures Holds(After(k, op), h + [op], op.at)
  {
    var s := Settle(k, op.at);
    SettleHolds(k, h, before, op.at);
    PruneHolds(s, h, op.at);
    if IsLease(op) {
      var k' := if op.Acquire? then ZRemRangeByScore(s, Seconds(op.at)) else s;
      if op.ttl == 0 {
        ZeroStepHolds(k', h, op);
      } else {
        LeaseStepHolds(k', h, op);
      }
    } else if op.Release? {
      ReleaseStepHolds(s, h, op);
      PruneKeepsHolding(ZRem(s, op.id), h + [op], op.at);
    } else {
      CountStepHolds(s, h, op);
      PruneKeepsHolding(s, h + [op], op.at);
    }
  }

  /** In every run the key holds exactly the leases that survived, up to stale ones not yet pruned. */
  lemma {:induction false} ReplayHolds(h: seq<Op>)
    requires Ordered(h)
    ensures Holds(Replay(h), h, LastTime(h))
  {
    if h != [] {
      var h', op := h[..|h| - 1], h[|h| - 1];
      ReplayHolds(h');
      StepHolds(Replay(h'), h', LastTime(h'), op);
      assert h' + [op] == h;
    }
  }

  /** The requests that a counting call at the end of the run counts: live, and with a lease that survived. */
  lemma CountedExactly(h: seq<Op>)
    requires Ordered(h) && h != [] && !h[|h| - 1].Refresh?
    ensures Replay(h).members.Keys == set id | id in Live(h, LastTime(h)) && Survives(h, id)
  {
    var k, op := Replay(h), h[|h| - 1];
    ReplayHolds(h);
    forall id | id in k.members ensures id in Live(h, LastTime(h)) {
      LeaseHasId(h, id);
      PrunedOnCounting(Replay(h[..|h| - 1]), op);
    }
  }

  lemma PrunedOnCounting(k: Key, op: Op)
    requires !op.Refresh?
    ensures forall id :: id in After(k, op).members ==> After(k, op).members[id] > Seconds(op.at)
  {
    if op.Acquire? && op.ttl == 0 {
      ZeroStepHolds(ZRemRangeByScore(Settle(k, op.at), Seconds(op.at)), [], op);
    } else {
      CountingCallsPrune(k, op);
    }
  }

  lemma SmallerUnlessEqual(a: set<string>, b: set<string>)
    requires a <= b
    ensures |a| <= |b| && (|a| == |b| <==> a == b)
  {
    assert b == a + (b - a);
    if |a| == |b| {
      assert |b - a| == 0;
    }
  }

  /**
   With ttls that vary in any way, the number returned by acquire, release or count never exceeds the
   number of live requests, and equals it if and only if the lease of each of them survived.
   */
  lemma CountRightExactly(h: seq<Op>)
    requires Ordered(h) && h != [] && !h[|h| - 1].Refresh?
    ensures |Replay(h).members| <= |Live(h, LastTime(h))|
    ensures |Replay(h).members| == |Live(h, LastTime(h))|
            <==> forall id :: id in Live(h, LastTime(h)) ==> Survives(h, id)
  {
    var live := Live(h, LastTime(h));
    CountedExactly(h);
    SmallerUnlessEqual(Replay(h).members.Keys, live);
    assert |Replay(h).members| == |Replay(h).members.Keys|;
  }

  lemma CountedLater(h: seq<Op>, t: nat)
    requires Ordered(h) && t >= LastTime(h)
    ensures After(Replay(h), Count(t)).members.Keys == set id | id in Live(h, t) && Survives(h, id) && Kept(h, t)
  {
    var op := Count(t);
    var h' := h + [op];
    assert h'[..|h|] == h && Replay(h') == After(Replay(h), op);
    forall i, j | 0 <= i < j < |h'| ensures h'[i].at <= h'[j].at {
      assert i < |h| && h[i].at <= LastTime(h);
    }
    CountedExactly(h');
    forall id ensures (id in Live(h', t) <==> id in Live(h, t)) && Survives(h', id) == (Survives(h, id) && Kept(h, t)) {
      AppendFacts(h, op, id);
    }
  }

  /** A count made at any time after the run: right if and only if each live request survived and the key is still kept. */
  lemma LaterCountRightExactly(h: seq<Op>, t: nat)
    requires Ordered(h) && t >= LastTime(h)
    ensures CountShowsLive(Replay(h), h, t) <==> forall id :: id in Live(h, t) ==> Survives(h, id) && Kept(h, t)
  {
    CountedLater(h, t);
  }

  lemma RenewedFacts(a: string, b: string, c: string)
    requires a != b && b != c && a != c
    ensures var h := [Acquire(a, 100, 0), Acquire(b, 1, 0)];
            Survives(h, a) && Survives(h, b) && KeptUntil(h) == Some(1000) && Ids(h) <= {a, b}
    ensures var h := [Acquire(a, 100, 0), Acquire(b, 1, 0), Acquire(c, 100, 500)];
            && Survives(h, a) && Survives(h, b) && Survives(h, c) && KeptUntil(h) == Some(100500) && Ids(h) <= {a, b, c}
            && Lease(h, a) == Some(100) && Lease(h, b) == Some(1) && Lease(h, c) == Some(100)
  {
    var h1, second, third := [Acquire(a, 100, 0)], Acquire(b, 1, 0), Acquire(c, 100, 500);
    var h2 := [Acquire(a, 100, 0), second];
    assert h1 == [] + [Acquire(a, 100, 0)] && h2 == h1 + [second];
    assert [Acquire(a, 100, 0), second, third] == h2 + [third];
    KeptAppend([], Acquire(a, 100, 0));
    KeptAppend(h1, second);
    KeptAppend(h2, third);
    forall id ensures Survives(h2, id) == (id == b || (Survives(h1, id) && Kept(h1, 0))) {
      SurvivesAppend(h1, second, id);
    }
    forall id ensures Survives(h2 + [third], id) == (id == c || (Survives(h2, id) && Kept(h2, 500))) {
      SurvivesAppend(h2, third, id);
    }
    LeaseAppend(h1, second, a);
    LeaseAppend(h2, third, a);
    LeaseAppend(h2, third, b);
  }

  /** An uncovered call need not show: the key is renewed before the short expiry it set has passed. */
  lemma RenewedInTime(a: string, b: string, c: string)
    requires a != b && b != c && a != c
    ensures var h := [Acquire(a, 100, 0), Acquire(b, 1, 0), Acquire(c, 100, 500)];
            && Ordered(h) && !CoveredRun(h)
            && (forall t: nat :: t <= 500 ==> CountShowsLive(Replay(h[..2]), h[..2], t))
            && (forall t: nat :: 500 <= t ==> CountShowsLive(Replay(h), h, t))
  {
    var first, second, third := Acquire(a, 100, 0), Acquire(b, 1, 0), Acquire(c, 100, 500);
    var h := [first, second, third];
    RenewedFacts(a, b, c);
    assert h[..2] == [first, second] && h[..2][..1] == [first];
    ShortTtlIsUncovered(a, b);
    forall t: nat | t <= 500 ensures CountShowsLive(Replay(h[..2]), h[..2], t) {
      LaterCountRightExactly(h[..2], t);
    }
    forall t: nat | 500 <= t ensures CountShowsLive(Replay(h), h, t) {
      LaterCountRightExactly(h, t);
      forall id | id in Live(h, t) ensures Survives(h, id) && Kept(h, t) {
        assert id in Ids(h) && Seconds(t) < 100;
      }
    }
  }

  lemma ShortTtlIsUncovered(a: string, b: string)
    requires a != b
    ensures !Covers([Acquire(a, 100, 0)], Acquire(b, 1, 0))
  {
    var h := [Acquire(a, 100, 0)];
    assert h[0].id == a && a in Ids(h);
    assert Lease(h, a) == Some(100) && a in Live(h, 0);
  }
}
