/**
 The relay attempt loops (controller/relay.go, `Relay` from the billing reservation on).

 An outer loop picks channels, an inner loop fails over between the accounts of one channel.  What
 upstreams, the account router, billing and the audits answer is given by an environment: the n-th pass
 of the inner loop and the m-th pass of the outer loop ask `inner(n)` and `outer(m)`.
 */
module Relay {
  import opened RelayLog
  import opened Wrappers

  /** `SetupContextForSelectedChannel`: the account now selected (0 when the channel has no pool), or an error. */
  datatype Setup = Ready(account: nat) | Failed(error: ApiError)

  datatype Disposition = NotHandled | RetryInPool | Global

  /** What one pass of the inner loop is told. */
  datatype Turn = Turn(
    exempt: bool,                      // the selected account is Team-exempt from the content audit
    audit: Option<ApiError>,
    bodyTooLarge: Option<bool>,        // Some when the request body cannot be read
    reply: Option<ApiError>,           // None is a successful dispatch
    validationRepair: bool,            // one of the three Codex validation repairs applies
    itemsRepair: bool,                 // the Codex missing-items repair applies
    sends: bool,                       // the dispatch sends part of the response
    disposition: Disposition,
    inTime: bool,                      // the failover time budget is not used up
    setup: set<nat> -> Setup)          // given the excluded accounts

  /** What one pass of the outer loop is told by `getChannel`. */
  datatype Pick =
    | FromContext(setup: set<nat> -> Setup, affinitySkip: bool)
    | Selected(hasChannel: nat -> bool,   // whether the n-th automatic group has a channel for the model
               found: bool, channel: nat, setup: set<nat> -> Setup, affinitySkip: bool)

  datatype Config = Config(
    retryTimes: int, maxFailovers: nat, free: bool, specificChannel: bool,
    autoGroup: bool, groups: nat, crossGroupRetry: bool)

  datatype Env = Env(
    preConsume: Option<ApiError>, promptAudit: Option<ApiError>,
    inner: nat -> Turn, outer: nat -> Pick,
    firstChannel: nat, firstGroup: nat,
    retryByStatus: int -> bool, normalize: ApiError -> ApiError)

  // ----- shouldRetry -----

  predicate ShouldRetry(error: Option<ApiError>, retriesLeft: int, affinitySkip: bool,
                        specificChannel: bool, byStatus: int -> bool): (r: bool)
    ensures r <==>
      && error.Some? && !error.value.partial && !error.value.missingItem && !affinitySkip
      && (|| error.value.channelCode
          || (&& retriesLeft > 0 && !specificChannel && !error.value.skipRetry && !error.value.capacity
              && (|| !(100 <= error.value.status <= 599)
                  || (!(200 <= error.value.status < 300) && !error.value.alwaysSkip && byStatus(error.value.status)))))
  {
    if error.Some? && error.value.partial then false
    else if error.None? then false
    else if error.value.missingItem then false
    else if affinitySkip then false
    else if error.value.channelCode then true
    else if error.value.skipRetry then false
    else if retriesLeft <= 0 then false
    else if error.value.capacity then false
    else if specificChannel then false
    else if 200 <= error.value.status < 300 then false
    else if error.value.status < 100 || error.value.status > 599 then true
    else if error.value.alwaysSkip then false
    else byStatus(error.value.status)
  }

  function LocalError(status: int): ApiError {
    ApiError(0, false, false, false, false, true, false, false, status)
  }

  // ----- RetryParam (service/channel_select.go) -----

  datatype Retry = Retry(count: int, resetNext: bool, group: nat)

  /** `IncreaseRetry` */
  function Increase(r: Retry): Retry {
    if r.resetNext then r.(resetNext := false) else r.(count := r.count + 1)
  }

  /** Progress of the outer loop: a later group, or one more retry in the same group. */
  ghost predicate Advances(cfg: Config, before: Retry, after: Retry) {
    && after.count >= 0 && !after.resetNext
    && (|| before.group < after.group <= cfg.groups
        || (before.group == after.group && before.count < after.count))
  }

  /**
   `cacheGetRandomSatisfiedChannel` with an automatic group: the first group from the current one on that
   has a channel.  Groups without one are skipped and restart the retry counter; a group whose retries are
   used up still serves this attempt, and the next attempt goes to the group after it.
   */
  method SelectGroup(before: Retry, cfg: Config, hasChannel: nat -> bool)
    returns (retry: Retry, group: nat)
    requires before.count >= 0 && !before.resetNext
    ensures before.group <= group && (forall g: nat | before.group <= g < group :: !hasChannel(g))
    ensures group < cfg.groups ==> hasChannel(group)
    ensures group < cfg.groups ==> Advances(cfg, before, Increase(retry))
    ensures group < cfg.groups ==>
      var tries := if group == before.group then before.count else 0;
      if cfg.crossGroupRetry && tries >= cfg.retryTimes
      then Increase(retry) == Retry(0, false, group + 1) && retry.count == 0
      else retry == Retry(tries, false, group)
  {
    retry, group := before, before.group;
    while group < cfg.groups && !hasChannel(group)
      invariant before.group <= group && (before.group < group ==> group <= cfg.groups)
      invariant forall g: nat | before.group <= g < group :: !hasChannel(g)
      invariant retry == if group == before.group then before else Retry(0, false, group)
    {
      group := group + 1;
      retry := Retry(0, false, group);
    }
    if group < cfg.groups {
      if cfg.crossGroupRetry && retry.count >= cfg.retryTimes {
        retry := Retry(0, true, group + 1);
      } else {
        retry := retry.(group := group);
      }
    }
  }

  // ----- the loops -----

  /** The request context as the loops use it. */
  datatype Context = Context(
    excluded: set<nat>, account: nat,
    audited: bool,          // contentModerationCompleted
    eofUsed: bool,          // incompleteEOFFailoverUsed
    validationUsed: bool, itemsUsed: bool,   // the one-shot flags of the Codex repairs
    billed: bool,           // relayInfo.Billing is set
    sent: bool,             // SendResponseCount is not zero
    turn: nat, log: Log)
  {
    function Record(e: Event): (c: Context)
      ensures AuditPassed(c.log) == (e == Audited(None) || AuditPassed(log))
      ensures Closed(c.log) == (Closes(e) || Closed(log))
      ensures Lawful(c.log) == (Lawful(log) && Allowed(log, e))
      ensures !e.NewPool? ==>
        FailedAccounts(c.log) == FailedAccounts(log) + if e.FailedOver? then {e.from} else {}
      ensures Dispatches(c.log) == Dispatches(log) + if e.Dispatched? then 1 else 0
      ensures Charges(c.log) == Charges(log) + if e.Charged? then 1 else 0
      ensures Sent(c.log) == ((e.Dispatched? && e.sends) || Sent(log))
      ensures Replayed(c.log) == (Replayed(log) || (e.Dispatched? && Sent(log)))
      ensures DispatchedHere(c.log) == (e.Dispatched? || (!e.Retried? && DispatchedHere(log)))
    {
      this.(log := Then(log, e))
    }

    /** One-shot repairs still available. */
    function Unused(): nat {
      (if eofUsed then 0 else 1) + (if validationUsed then 0 else 1) + (if itemsUsed then 0 else 1)
    }
  }

  datatype Exit = Served | Rejected(error: ApiError) | Broken(error: ApiError, exhausted: bool)

  predicate Honours(s: Setup, excluded: set<nat>) {
    s.Ready? ==> s.account == 0 || s.account !in excluded
  }

  ghost predicate HonoursAll(setup: set<nat> -> Setup) {
    forall excluded :: Honours(setup(excluded), excluded)
  }

  /** The account router never returns an excluded account. */
  ghost predicate LawfulRouter(env: Env) {
    && (forall n :: HonoursAll(env.inner(n).setup))
    && (forall m :: HonoursAll(env.outer(m).setup))
  }

  /** The context agrees with the log, and the log keeps the rules. */
  ghost predicate Sound(c: Context) {
    && Lawful(c.log) && Refunds(c.log) == 0 && Charges(c.log) == (if c.billed then 1 else 0)
    && AuditPassed(c.log) == c.audited && Sent(c.log) == c.sent
    && FailedAccounts(c.log) <= c.excluded && (0 in FailedAccounts(c.log) ==> c.eofUsed)
  }

  /** Dispatching is still allowed. */
  ghost predicate Open(c: Context) {
    Sound(c) && !Closed(c.log) && Successes(c.log) == 0
  }

  /** No capacity error waits, and the account is not excluded. */
  ghost predicate AccountSelected(c: Context) {
    Open(c) && !CapacityOpen(c.log) && (c.account == 0 || c.account !in c.excluded)
  }

  /** The state in which a pass over a channel may begin: once something is sent, only the first pass may. */
  ghost predicate CanServe(c: Context) {
    AccountSelected(c) && (c.sent ==> !DispatchedHere(c.log))
  }

  /**
   `ShouldRetryUpstreamAccount` and `ShouldRetryUpstreamCapacityAccount`: the first failover after a capacity
   error does not depend on time.
   */
  predicate RetryAllowed(t: Turn, cfg: Config, capacity: bool, failovers: nat) {
    failovers < cfg.maxFailovers && ((capacity && failovers == 0) || t.inTime)
  }

  /** The pass gets as far as dispatching: the audit lets it through and the body can be read. */
  ghost predicate Sendable(t: Turn, c: Context) {
    (t.exempt || c.audited || t.audit.None?) && t.bodyTooLarge.None?
  }

  /** How the pass ends when something has been sent: with the upstream's answer, whatever it is. */
  ghost function AfterSending(t: Turn, account: nat): Exit {
    match t.reply
    case None => Served
    case Some(e) =>
      Broken(e, e.capacity && !e.partial && !e.incomplete && t.disposition != NotHandled && account > 0)
  }

  /** No failover is possible after this failed dispatch. */
  ghost predicate NoFailover(t: Turn, c: Context, failovers: nat, cfg: Config)
    requires t.reply.Some?
  {
    if t.reply.value.incomplete then c.eofUsed || c.sent || t.setup(c.excluded).Failed?
    else t.disposition != RetryInPool || c.account == 0 || c.sent || t.setup(c.excluded).Failed?
         || failovers >= cfg.maxFailovers || !(t.inTime || (t.reply.value.capacity && failovers == 0))
  }

  /** Why a channel may be given up after a pass: nothing the inner loop could still try. */
  ghost predicate NothingLeft(t: Turn, c: Context, failovers: nat, cfg: Config) {
    || t.bodyTooLarge.Some?
    || (t.reply.Some? && t.reply.value.partial)
    || (t.reply.Some? && (t.validationRepair ==> c.validationUsed || c.sent) && (t.itemsRepair ==> c.itemsUsed || c.sent)
        && NoFailover(t, c, failovers, cfg))
  }

  /** Turn, audit, billing, repairs and what was sent are the same. */
  ghost predicate Kin(a: Context, b: Context) {
    && a.turn == b.turn && a.audited == b.audited && a.billed == b.billed && a.sent == b.sent
    && a.validationUsed == b.validationUsed && a.itemsUsed == b.itemsUsed
  }

  /**
   Excludes the account that failed and selects another one of the same channel; `eof` marks the
   one-shot failover after an incomplete stream.
   */
  method FailOver(t: Turn, start: Context, eof: bool) returns (c: Context, failed: Option<ApiError>)
    requires HonoursAll(t.setup) && Open(start) && !start.sent && start.account !in FailedAccounts(start.log)
    requires start.account == 0 ==> eof
    ensures Kin(c, start)
    ensures c.excluded == start.excluded + {start.account}
    ensures failed.None? ==>
      && t.setup(c.excluded) == Ready(c.account)
      && CanServe(c) && c.eofUsed == (start.eofUsed || eof)
      && c.log == Then(start.log, FailedOver(start.account, c.account))
      && Dispatches(c.log) == Dispatches(start.log)
    ensures failed.Some? ==>
      && t.setup(c.excluded) == Failed(failed.value)
      && c.account == 0 && c.eofUsed == start.eofUsed && c.log == start.log && Open(c)
  {
    c := start.(excluded := start.excluded + {start.account});
    var setup := t.setup(c.excluded);
    assert Honours(setup, c.excluded);
    match setup {
      case Ready(account) =>
        c := c.(account := account, eofUsed := c.eofUsed || eof).Record(FailedOver(start.account, account));
        return c, None;
      case Failed(error) =>
        return c.(account := 0), Some(error);
    }
  }

  /** The error a channel is left with: the unreadable body, the upstream's answer, or the failed reselection. */
  ghost predicate Reports(t: Turn, c: Context, error: ApiError) {
    if t.bodyTooLarge.Some? then error == LocalError(if t.bodyTooLarge.value then 413 else 400)
    else
      && t.reply.Some?
      && (|| error == t.reply.value
          || (t.setup(c.excluded) == Failed(error) && t.disposition == RetryInPool && !c.sent
              && !t.reply.value.capacity && !t.reply.value.partial && !t.reply.value.incomplete))
  }

  ghost predicate Objected(log: Log) {
    log.Then? && log.event.Audited? && log.event.objection.Some?
  }

  /** How a channel is left, in terms of what was last logged. */
  ghost predicate Left(t: Turn, c: Context, exit: Exit) {
    && (exit.Served? ==>
          Successes(c.log) == 1 && c.log.Then? && c.log.event.Dispatched? && c.log.event.reply.None?)
    && (!exit.Served? ==> Successes(c.log) == 0)
    && (exit.Rejected? ==> t.audit == Some(exit.error) && Objected(c.log))
    && Blame(c.log) == (if exit.Served? then None else Some(exit.error))
    && (exit.Broken? ==> Reports(t, c, exit.error) && (Closed(c.log) ==> exit.error.partial))
    && (CapacityOpen(c.log) <==> exit.Broken? && exit.exhausted)
    && (CapacityOpen(c.log) ==> c.log.event.error == exit.error)
  }

  lemma AuditRecorded(start: Context, objection: Option<ApiError>)
    requires CanServe(start) && !start.audited
    ensures objection.None? ==> CanServe(start.Record(Audited(None)).(audited := true))
    ensures objection.Some? ==>
      Sound(start.Record(Audited(objection))) && Successes(start.Record(Audited(objection)).log) == 0
  {
    var c := start.Record(Audited(objection));
    assert FailedAccounts(c.log) == FailedAccounts(start.log);
  }

  /** `applyContentModerationForSelectedAccount`: at most one audit passes, a Team exemption does not complete it. */
  method ApplyAudit(t: Turn, start: Context) returns (c: Context, rejected: Option<ApiError>)
    requires CanServe(start)
    ensures Sound(c) && c == start.(audited := c.audited, log := c.log)
    ensures rejected.None? ==> CanServe(c) && (t.exempt || c.audited)
    ensures rejected.None? <==> t.exempt || start.audited || t.audit.None?
    ensures Replayed(c.log) == Replayed(start.log)
    ensures rejected.Some? ==> Left(t, c, Rejected(rejected.value))
    ensures Dispatches(c.log) == Dispatches(start.log)
  {
    if start.audited || t.exempt {
      return start, None;
    }
    AuditRecorded(start, t.audit);
    if t.audit.Some? {
      return start.Record(Audited(t.audit)), t.audit;
    }
    return start.Record(Audited(None)).(audited := true), None;
  }

  /** One more pass over the channel, or the end of it. */
  datatype Next = Again(failovers: nat) | Leave(exit: Exit)

  lemma HandledRecorded(start: Context, error: ApiError)
    requires AccountSelected(start)
    ensures Open(start.Record(Handled(error)))
    ensures FailedAccounts(start.Record(Handled(error)).log) == FailedAccounts(start.log)
    ensures Blame(start.Record(Handled(error)).log) == Blame(start.log)
  {
  }

  lemma UnselectedRecorded(start: Context, error: ApiError)
    requires Open(start) && !CapacityOpen(start.log)
    ensures Open(start.Record(Unselected(error))) && Blame(start.Record(Unselected(error)).log) == Some(error)
  {
    var c := start.Record(Unselected(error));
    assert FailedAccounts(c.log) == FailedAccounts(start.log);
  }

  /** No other account was found: a capacity error stays the error, any other is replaced. */
  method LeaveUnselected(t: Turn, start: Context, failure: ApiError) returns (c: Context, exit: Exit)
    requires Open(start) && Blame(start.log) == t.reply && !start.sent && t.bodyTooLarge.None?
    requires t.reply.Some? && !t.reply.value.partial && !t.reply.value.incomplete
    requires t.disposition == RetryInPool && t.setup(start.excluded) == Failed(failure)
    requires start.log.Then? && start.log.event == Handled(t.reply.value)
    ensures Sound(c) && Kin(c, start) && c.excluded == start.excluded && c.account == start.account && c.eofUsed == start.eofUsed
    ensures Dispatches(c.log) == Dispatches(start.log) && Replayed(c.log) == Replayed(start.log)
    ensures exit == Broken(if t.reply.value.capacity then t.reply.value else failure, t.reply.value.capacity)
    ensures Left(t, c, exit)
  {
    if t.reply.value.capacity {
      return start, Broken(t.reply.value, true);
    }
    UnselectedRecorded(start, failure);
    return start.Record(Unselected(failure)), Broken(failure, false);
  }

  /** An account error: fail over within the pool when that is allowed. */
  method RecoverAccount(t: Turn, cfg: Config, start: Context, failovers: nat) returns (c: Context, next: Next)
    requires HonoursAll(t.setup) && AccountSelected(start) && failovers <= cfg.maxFailovers
    requires Blame(start.log) == t.reply
    requires t.bodyTooLarge.None? && t.reply.Some? && !t.reply.value.partial && !t.reply.value.incomplete
    requires t.disposition != NotHandled && start.account > 0
    ensures Sound(c) && Dispatches(c.log) == Dispatches(start.log)
    ensures Kin(c, start) && c.eofUsed == start.eofUsed
    ensures start.excluded <= c.excluded
    ensures Replayed(c.log) == Replayed(start.log)
    ensures start.sent ==> next == Leave(Broken(t.reply.value, t.reply.value.capacity))
    ensures next.Leave? ==> next.exit.Broken? && next.exit.exhausted == t.reply.value.capacity
    ensures next.Again? ==> CanServe(c) && next.failovers == failovers + 1 <= cfg.maxFailovers
    ensures next.Again? ==>
      c.log == Then(Then(start.log, Handled(t.reply.value)), FailedOver(start.account, c.account)) && t.setup(c.excluded) == Ready(c.account)
    ensures next.Again? ==> !start.sent && t.disposition == RetryInPool
    ensures next.Again? ==> failovers < cfg.maxFailovers && (t.inTime || (t.reply.value.capacity && failovers == 0))
    ensures next.Leave? ==> next.exit.Broken? && Left(t, c, next.exit) && NoFailover(t, c, failovers, cfg)
  {
    var error := t.reply.value;
    HandledRecorded(start, error);
    c := start.Record(Handled(error));
    if t.disposition == RetryInPool && !start.sent && RetryAllowed(t, cfg, error.capacity, failovers) {
      var failed;
      c, failed := FailOver(t, c, false);
      if failed.None? {
        return c, Again(failovers + 1);
      }
      var exit;
      c, exit := LeaveUnselected(t, c, failed.value);
      return c, Leave(exit);
    }
    return c, Leave(Broken(error, error.capacity));
  }

  /** An incomplete stream: one failover per request, as long as nothing was sent. */
  method RecoverIncomplete(t: Turn, start: Context, failovers: nat) returns (c: Context, next: Next)
    requires HonoursAll(t.setup) && AccountSelected(start) && Blame(start.log) == t.reply
    requires t.bodyTooLarge.None? && t.reply.Some? && !t.reply.value.partial && t.reply.value.incomplete
    ensures Sound(c) && Dispatches(c.log) == Dispatches(start.log) && Replayed(c.log) == Replayed(start.log)
    ensures Kin(c, start)
    ensures start.excluded <= c.excluded && (start.eofUsed ==> c.eofUsed)
    ensures next.Again? ==> CanServe(c) && next.failovers == failovers && !start.sent && !start.eofUsed && c.eofUsed
    ensures next.Again? ==> c.log == Then(start.log, FailedOver(start.account, c.account)) && t.setup(c.excluded) == Ready(c.account)
    ensures next.Leave? ==>
      && next.exit == Broken(t.reply.value, false) && Left(t, c, next.exit)
      && (c.eofUsed || start.sent || t.setup(c.excluded).Failed?) && c.eofUsed == start.eofUsed
  {
    c := start;
    if !c.eofUsed && !c.sent {
      var failed;
      c, failed := FailOver(t, c, true);
      if failed.None? {
        return c, Again(failovers);
      }
    }
    return c, Leave(Broken(t.reply.value, false));
  }

  lemma LeftWithReply(t: Turn, start: Context)
    requires AccountSelected(start) && Blame(start.log) == t.reply && t.reply.Some? && t.bodyTooLarge.None?
    ensures Left(t, start, Broken(t.reply.value, false))
  {
  }

  /** What is done about a failed dispatch that no repair applies to. */
  method Recover(t: Turn, cfg: Config, start: Context, failovers: nat) returns (c: Context, next: Next)
    requires HonoursAll(t.setup) && AccountSelected(start) && failovers <= cfg.maxFailovers
    requires Blame(start.log) == t.reply
    requires t.bodyTooLarge.None? && t.reply.Some? && !t.reply.value.partial
    ensures Sound(c) && Dispatches(c.log) == Dispatches(start.log)
    ensures Kin(c, start)
    ensures start.excluded <= c.excluded && (start.eofUsed ==> c.eofUsed)
    ensures Replayed(c.log) == Replayed(start.log)
    ensures start.sent ==> next == Leave(AfterSending(t, start.account))
    ensures next.Leave? ==> next.exit.Broken? && next.exit.exhausted == AfterSending(t, start.account).exhausted
    ensures next.Again? ==>
      && CanServe(c) && failovers <= next.failovers <= cfg.maxFailovers
      && next.failovers - failovers + start.Unused() - c.Unused() == 1
      && !start.sent && (if t.reply.value.incomplete then !start.eofUsed else t.disposition == RetryInPool)
    ensures next.Leave? ==>
      next.exit.Broken? && Left(t, c, next.exit) && NoFailover(t, c, failovers, cfg)
  {
    c := start;
    var error := t.reply.value;
    if error.incomplete {
      c, next := RecoverIncomplete(t, c, failovers);
      return;
    }
    if t.disposition != NotHandled && c.account > 0 {
      c, next := RecoverAccount(t, cfg, c, failovers);
      return;
    }
    LeftWithReply(t, start);
    return c, Leave(Broken(error, false));
  }

  /** A failed dispatch: the one-shot Codex repairs come first. */
  method RepairOrRecover(t: Turn, cfg: Config, start: Context, failovers: nat) returns (c: Context, next: Next)
    requires HonoursAll(t.setup) && AccountSelected(start) && failovers <= cfg.maxFailovers
    requires Blame(start.log) == t.reply
    requires t.bodyTooLarge.None? && t.reply.Some? && !t.reply.value.partial
    ensures Sound(c) && c.turn == start.turn && c.billed == start.billed && start.excluded <= c.excluded
    ensures Dispatches(c.log) == Dispatches(start.log) && Replayed(c.log) == Replayed(start.log)
    ensures c.sent == start.sent
    ensures start.sent ==> next == Leave(AfterSending(t, start.account))
    ensures next.Leave? ==> next.exit.Broken? && next.exit.exhausted == AfterSending(t, start.account).exhausted
    ensures next.Again? ==>
      && CanServe(c) && failovers <= next.failovers <= cfg.maxFailovers
      && next.failovers - failovers + start.Unused() - c.Unused() == 1
    ensures next.Again? ==> !start.sent
    ensures next.Leave? ==>
      && next.exit.Broken? && Left(t, c, next.exit) && c.Unused() <= start.Unused()
      && NothingLeft(t, c, failovers, cfg)
  {
    if t.validationRepair && !start.sent && !start.validationUsed {
      return start.(validationUsed := true), Again(failovers);
    }
    if t.itemsRepair && !start.sent && !start.itemsUsed {
      return start.(itemsUsed := true), Again(failovers);
    }
    c, next := Recover(t, cfg, start, failovers);
  }

  /** Sends the request to the selected account. */
  method Dispatch(t: Turn, start: Context) returns (c: Context)
    requires CanServe(start) && (t.exempt || start.audited) && t.bodyTooLarge.None?
    ensures Kin(c, start.(sent := start.sent || t.sends)) && c.account == start.account && c.excluded == start.excluded
    ensures c.Unused() == start.Unused()
    ensures c.log.Then? && c.log.before == start.log && c.log.event == Dispatched(start.account, t.exempt, t.sends, t.reply)
    ensures Sound(c) && !CapacityOpen(c.log) && Dispatches(c.log) == Dispatches(start.log) + 1
    ensures Replayed(c.log) == (Replayed(start.log) || start.sent)
    ensures t.reply.None? ==> Left(t, c, Served)
    ensures t.reply.Some? && t.reply.value.partial ==> Left(t, c, Broken(t.reply.value, false))
    ensures t.reply.Some? && !t.reply.value.partial ==> AccountSelected(c)
  {
    c := start.(sent := start.sent || t.sends).Record(Dispatched(start.account, t.exempt, t.sends, t.reply));
  }

  /** Sends the request and deals with the answer. */
  method SendAndRecover(t: Turn, cfg: Config, start: Context, failovers: nat) returns (c: Context, next: Next)
    requires HonoursAll(t.setup) && CanServe(start) && failovers <= cfg.maxFailovers
    requires (t.exempt || start.audited) && t.bodyTooLarge.None?
    ensures Sound(c) && c.turn == start.turn && c.billed == start.billed && start.excluded <= c.excluded
    ensures Dispatches(c.log) == Dispatches(start.log) + 1
    ensures Replayed(c.log) == (Replayed(start.log) || start.sent) && c.sent == (start.sent || t.sends)
    ensures c.sent ==> next == Leave(AfterSending(t, start.account))
    ensures next.Leave? && next.exit.Broken? ==> t.reply.Some? && next.exit.exhausted == AfterSending(t, start.account).exhausted
    ensures next.Again? ==>
      && CanServe(c) && failovers <= next.failovers <= cfg.maxFailovers
      && next.failovers - failovers + start.Unused() - c.Unused() == 1
    ensures next.Leave? ==>
      && Left(t, c, next.exit) && c.Unused() <= start.Unused()
      && (next.exit.Broken? ==> NothingLeft(t, c, failovers, cfg))
  {
    c := Dispatch(t, start);
    if t.reply.None? {
      return c, Leave(Served);
    }
    if t.reply.value.partial {
      return c, Leave(Broken(t.reply.value, false));
    }
    c, next := RepairOrRecover(t, cfg, c, failovers);
  }

  lemma BodyRecorded(start: Context, tooLarge: bool)
    requires CanServe(start)
    ensures Open(start.Record(Unreadable(tooLarge)))
  {
    var c := start.Record(Unreadable(tooLarge));
    assert FailedAccounts(c.log) == FailedAccounts(start.log);
  }

  /** A request whose body cannot be read is given up. */
  method ReadBody(t: Turn, start: Context) returns (c: Context, left: Option<Exit>)
    requires CanServe(start)
    ensures Sound(c) && c == start.(log := c.log)
    ensures Dispatches(c.log) == Dispatches(start.log) && Replayed(c.log) == Replayed(start.log)
    ensures left.None? <==> t.bodyTooLarge.None?
    ensures left.None? ==> c == start
    ensures left.Some? ==> Left(t, c, left.value) && left.value.Broken? && !left.value.exhausted
  {
    if t.bodyTooLarge.None? {
      return start, None;
    }
    BodyRecorded(start, t.bodyTooLarge.value);
    c := start.Record(Unreadable(t.bodyTooLarge.value));
    left := Some(Broken(LocalError(if t.bodyTooLarge.value then 413 else 400), false));
  }

  /** What comes before sending: the audit, then the body. */
  method GateAndRead(t: Turn, start: Context) returns (c: Context, left: Option<Exit>)
    requires CanServe(start)
    ensures Sound(c) && c == start.(audited := c.audited, log := c.log)
    ensures Dispatches(c.log) == Dispatches(start.log) && Replayed(c.log) == Replayed(start.log)
    ensures left.None? <==> Sendable(t, start)
    ensures left.None? ==> CanServe(c) && (t.exempt || c.audited) && t.bodyTooLarge.None?
    ensures left.Some? ==> Left(t, c, left.value)
    ensures left.Some? && left.value.Broken? ==> t.bodyTooLarge.Some? && !left.value.exhausted
  {
    var rejected;
    c, rejected := ApplyAudit(t, start);
    if rejected.Some? {
      return c, Some(Rejected(rejected.value));
    }
    c, left := ReadBody(t, c);
  }

  /** One pass of the inner loop. */
  method Pass(t: Turn, cfg: Config, start: Context, failovers: nat) returns (c: Context, next: Next)
    requires HonoursAll(t.setup) && CanServe(start) && failovers <= cfg.maxFailovers
    ensures Sound(c) && c.turn == start.turn && c.billed == start.billed && start.excluded <= c.excluded
    ensures Dispatches(c.log) == Dispatches(start.log) + if Sendable(t, start) then 1 else 0
    ensures Replayed(c.log) == (Replayed(start.log) || (start.sent && Sendable(t, start)))
    ensures c.sent == (start.sent || (t.sends && Sendable(t, start)))
    ensures Sendable(t, start) && c.sent ==> next == Leave(AfterSending(t, start.account))
    ensures next.Again? ==> Sendable(t, start)
    ensures next.Leave? && next.exit.Broken? && next.exit.exhausted ==>
      Sendable(t, start) && t.reply.Some? && AfterSending(t, start.account).exhausted
    ensures next.Again? ==>
      && CanServe(c) && failovers <= next.failovers <= cfg.maxFailovers
      && next.failovers - failovers + start.Unused() - c.Unused() == 1
    ensures next.Leave? ==>
      && Left(t, c, next.exit) && c.Unused() <= start.Unused()
      && (next.exit.Broken? ==> NothingLeft(t, c, failovers, cfg))
  {
    var left;
    c, left := GateAndRead(t, start);
    if left.Some? {
      return c, Leave(left.value);
    }
    c, next := SendAndRecover(t, cfg, c, failovers);
  }

  /** The account failover loop over one channel. */
  method ServeChannel(env: Env, cfg: Config, start: Context)
    returns (c: Context, exit: Exit, failovers: nat)
    requires LawfulRouter(env) && CanServe(start)
    ensures Sound(c) && c.turn > start.turn && c.billed == start.billed
    ensures start.excluded <= c.excluded && failovers <= cfg.maxFailovers
    ensures Left(env.inner(c.turn - 1), c, exit)
    ensures exit.Broken? ==> NothingLeft(env.inner(c.turn - 1), c, failovers, cfg)
    ensures Dispatches(c.log) + c.Unused() <= Dispatches(start.log) + start.Unused() + failovers + 1
    ensures Dispatches(c.log) >= Dispatches(start.log)
    ensures Dispatches(c.log) > Dispatches(start.log) <==> Sendable(env.inner(start.turn), start)
    ensures Replayed(c.log) == (Replayed(start.log) || (start.sent && Sendable(env.inner(start.turn), start)))
    ensures var t := env.inner(start.turn); Sendable(t, start) && (start.sent || t.sends) ==>
      c.sent && exit == AfterSending(t, start.account) && Dispatches(c.log) == Dispatches(start.log) + 1
  {
    c, failovers := start, 0;
    while true
      invariant CanServe(c) && c.turn >= start.turn && c.billed == start.billed
      invariant start.excluded <= c.excluded && failovers <= cfg.maxFailovers
      invariant if c.turn == start.turn then c == start
                else Sendable(env.inner(start.turn), start) && Dispatches(c.log) > Dispatches(start.log)
      invariant c.turn > start.turn ==> !c.sent && !start.sent && !env.inner(start.turn).sends
      invariant Replayed(c.log) == Replayed(start.log)
      invariant Dispatches(c.log) + c.Unused() <= Dispatches(start.log) + start.Unused() + failovers
      decreases cfg.maxFailovers - failovers + c.Unused()
    {
      var t := env.inner(c.turn);
      var next;
      c, next := Pass(t, cfg, c.(turn := c.turn + 1), failovers);
      match next {
        case Again(n) => failovers := n;
        case Leave(e) => return c, e, failovers;
      }
    }
  }

  /** The state between two passes of the outer loop. */
  ghost predicate Between(c: Context) {
    Open(c) && !CapacityOpen(c.log) && !DispatchedHere(c.log)
  }

  lemma NewPoolRecorded(start: Context)
    requires Between(start)
    ensures Between(start.(excluded := {}).Record(NewPool))
  {
  }

  lemma AccountEntered(start: Context, account: nat)
    requires Between(start) && (account == 0 || account !in start.excluded)
    ensures Between(start.(account := account)) && CanServe(start.(account := account))
  {
  }

  /** Another channel's accounts start with no exclusions. */
  method ResetExclusions(start: Context, current: nat, channel: nat) returns (c: Context)
    requires Between(start)
    ensures Between(c) && c == start.(excluded := c.excluded, log := c.log)
    ensures c.excluded == (if channel != current then {} else start.excluded)
    ensures channel == current ==> c.log == start.log
    ensures Dispatches(c.log) == Dispatches(start.log) && Replayed(c.log) == Replayed(start.log)
  {
    c := start;
    if channel != current {
      NewPoolRecorded(c);
      c := c.(excluded := {}).Record(NewPool);
    }
  }

  /** `SetupContextForSelectedChannel` as the outer loop uses it. */
  method EnterChannel(start: Context, current: nat, pick: Pick) returns (c: Context, channel: nat, setup: Setup)
    requires Between(start) && HonoursAll(pick.setup)
    ensures Between(c) && CanServe(c)
    ensures channel == (if pick.Selected? then pick.channel else current)
    ensures c.excluded == (if channel != current then {} else start.excluded)
    ensures setup == pick.setup(c.excluded) && c.account == (if setup.Ready? then setup.account else 0)
    ensures c == start.(excluded := c.excluded, account := c.account, log := c.log)
    ensures Replayed(c.log) == Replayed(start.log)
    ensures Dispatches(c.log) == Dispatches(start.log) && c.Unused() == start.Unused() && c.billed == start.billed
  {
    channel := if pick.Selected? then pick.channel else current;
    c := ResetExclusions(start, current, channel);
    setup := pick.setup(c.excluded);
    assert Honours(setup, c.excluded);
    var account := if setup.Ready? then setup.account else 0;
    AccountEntered(c, account);
    c := c.(account := account);
  }

  /** Nothing was found to send the request to. */
  method NoteUnselected(start: Context, error: ApiError) returns (c: Context)
    requires Between(start)
    ensures Between(c) && c.billed == start.billed && c.Unused() == start.Unused()
    ensures Blame(c.log) == Some(error) && !Objected(c.log)
    ensures Dispatches(c.log) == Dispatches(start.log) && Replayed(c.log) == Replayed(start.log)
  {
    UnselectedRecorded(start, error);
    c := start.Record(Unselected(error));
  }

  /** Why the outer loop stopped with an error. */
  ghost predicate MayStop(env: Env, cfg: Config, c: Context, error: ApiError, retry: Retry, attempts: nat) {
    || retry.count > cfg.retryTimes
    || CapacityOpen(c.log)
    || Objected(c.log)
    || (attempts > 0 && !RetryAfter(env, cfg, error, retry, attempts - 1))
  }

  predicate RetryAfter(env: Env, cfg: Config, error: ApiError, retry: Retry, attempt: nat) {
    ShouldRetry(Some(error), cfg.retryTimes - retry.count, env.outer(attempt).affinitySkip,
                cfg.specificChannel, env.retryByStatus)
  }

  /** The selection finds no channel: none at all, or none in any automatic group from the current one on. */
  ghost predicate NoChannel(cfg: Config, before: Retry, pick: Pick) {
    && pick.Selected?
    && (!pick.found || (cfg.autoGroup && forall g: nat | before.group <= g < cfg.groups :: !pick.hasChannel(g)))
  }

  /** The exclusions with which the picked channel is entered. */
  ghost function Exclusions(c: Context, current: nat, pick: Pick): set<nat> {
    if pick.Selected? && pick.channel != current then {} else c.excluded
  }

  /** What selecting a channel and an account leads to; finding no channel is an error that is not retried. */
  ghost function Found(cfg: Config, c: Context, current: nat, before: Retry, pick: Pick): Setup {
    if NoChannel(cfg, before, pick) then Failed(ApiError(0, false, false, false, false, true, false, false, 500))
    else pick.setup(Exclusions(c, current, pick))
  }

  /** A pass of the outer loop gets as far as dispatching: it finds a channel, an account, and may send. */
  ghost predicate Reaches(env: Env, cfg: Config, c: Context, current: nat, before: Retry, attempt: nat) {
    Found(cfg, c, current, before, env.outer(attempt)).Ready? && Sendable(env.inner(c.turn), c)
  }

  /** `getChannel`: the channel of the first selection, or a newly selected one. */
  method GetChannel(cfg: Config, start: Context, current: nat, before: Retry, pick: Pick)
    returns (c: Context, channel: nat, retry: Retry, setup: Setup)
    requires Between(start) && HonoursAll(pick.setup)
    requires before.count >= 0 && !before.resetNext
    ensures Between(c)
    ensures setup.Ready? ==> CanServe(c) && c.account == setup.account
    ensures Dispatches(c.log) == Dispatches(start.log) && c.Unused() == start.Unused() && c.billed == start.billed
    ensures setup == Found(cfg, start, current, before, pick)
    ensures (setup.Failed? && setup.error.skipRetry && !setup.error.channelCode) || Advances(cfg, before, Increase(retry))
    ensures setup.Ready? ==> channel == (if pick.Selected? then pick.channel else current)
    ensures setup.Ready? ==> c.excluded == Exclusions(start, current, pick)
    ensures pick.FromContext? || !cfg.autoGroup ==> retry == before
    ensures c.turn == start.turn && c.sent == start.sent && c.audited == start.audited
    ensures Replayed(c.log) == Replayed(start.log)
  {
    c, channel, retry := start, current, before;
    if pick.Selected? {
      var found := true;
      if cfg.autoGroup {
        var group;
        retry, group := SelectGroup(before, cfg, pick.hasChannel);
        found := group < cfg.groups;
      }
      if !found || !pick.found {
        setup := Failed(LocalError(500));
        return;
      }
    }
    c, channel, setup := EnterChannel(c, channel, pick);
  }

  /** Serves the channel and decides whether the outer loop goes on. */
  method ServeAndJudge(env: Env, cfg: Config, start: Context, retry: Retry, attempt: nat)
    returns (c: Context, error: Option<ApiError>, stop: bool)
    requires LawfulRouter(env) && CanServe(start) && Between(start)
    ensures Sound(c) && c.billed == start.billed && error == Blame(c.log)
    ensures error.None? ==>
      && stop && Successes(c.log) == 1 && !CapacityOpen(c.log)
      && c.log.Then? && c.log.event.Dispatched? && c.log.event.reply.None?
    ensures error.Some? ==> Successes(c.log) == 0
    ensures CapacityOpen(c.log) ==> error == Some(c.log.event.error)
    ensures stop <==>
      error.None? || CapacityOpen(c.log) || Objected(c.log) || !RetryAfter(env, cfg, error.value, retry, attempt)
    ensures !stop ==> Open(c)
    ensures Dispatches(c.log) >= Dispatches(start.log)
    ensures Dispatches(c.log) > Dispatches(start.log) <==> Sendable(env.inner(start.turn), start)
    ensures Replayed(c.log) <==> Replayed(start.log) || (start.sent && Sendable(env.inner(start.turn), start))
    ensures Sendable(env.inner(start.turn), start) && (start.sent || env.inner(start.turn).sends) ==>
      && c.sent && Dispatches(c.log) == Dispatches(start.log) + 1
      && error == env.inner(start.turn).reply
      && (stop <==> error.None? || CapacityOpen(c.log) || !RetryAfter(env, cfg, error.value, retry, attempt))
    ensures Dispatches(c.log) + c.Unused() <= Dispatches(start.log) + start.Unused() + cfg.maxFailovers + 1
  {
    var exit, failovers;
    c, exit, failovers := ServeChannel(env, cfg, start);
    match exit {
      case Served =>
        error, stop := None, true;
      case Rejected(e) =>
        error, stop := Some(e), true;
      case Broken(e, exhausted) =>
        error := Some(e);
        stop := exhausted || !RetryAfter(env, cfg, e, retry, attempt);
    }
  }

  /**
   One pass of the outer loop.  It goes on exactly when the error may be retried and no capacity error is
   left open, whether or not part of the response has been sent.
   */
  method Attempt(env: Env, cfg: Config, start: Context, current: nat, before: Retry, attempt: nat)
    returns (c: Context, channel: nat, retry: Retry, error: Option<ApiError>, stop: bool)
    requires LawfulRouter(env) && Between(start)
    requires before.count >= 0 && !before.resetNext
    ensures Sound(c) && c.billed == start.billed
    ensures error.None? ==>
      && stop && Successes(c.log) == 1 && !CapacityOpen(c.log)
      && c.log.Then? && c.log.event.Dispatched? && c.log.event.reply.None?
    ensures error.Some? ==> Successes(c.log) == 0
    ensures error == Blame(c.log)
    ensures var found := Found(cfg, start, current, before, env.outer(attempt));
      found.Failed? ==> error == Some(found.error)
    ensures CapacityOpen(c.log) ==> error == Some(c.log.event.error)
    ensures stop <==>
      || error.None?
      || CapacityOpen(c.log)
      || Objected(c.log)
      || !RetryAfter(env, cfg, error.value, retry, attempt)
    ensures !stop ==> error.Some? && Open(c) && !CapacityOpen(c.log) && Advances(cfg, before, Increase(retry))
    ensures Dispatches(c.log) >= Dispatches(start.log)
    ensures Dispatches(c.log) > Dispatches(start.log) <==> Reaches(env, cfg, start, current, before, attempt)
    ensures Replayed(c.log)
      <==> Replayed(start.log) || (start.sent && Reaches(env, cfg, start, current, before, attempt))
    ensures Reaches(env, cfg, start, current, before, attempt) && (start.sent || env.inner(start.turn).sends) ==>
      && c.sent && Dispatches(c.log) == Dispatches(start.log) + 1
      && error == env.inner(start.turn).reply
      && (stop <==> error.None? || CapacityOpen(c.log) || !RetryAfter(env, cfg, error.value, retry, attempt))
    ensures env.outer(attempt).FromContext? || !cfg.autoGroup ==> retry == before
    ensures Dispatches(c.log) + c.Unused() <= Dispatches(start.log) + start.Unused() + cfg.maxFailovers + 1
  {
    var pick, setup := env.outer(attempt), Ready(0);
    c, channel, retry, setup := GetChannel(cfg, start, current, before, pick);
    if setup.Ready? {
      c, error, stop := ServeAndJudge(env, cfg, c, retry, attempt);
    } else {
      c := NoteUnselected(c, setup.error);
      error, stop := Some(setup.error), !RetryAfter(env, cfg, setup.error, retry, attempt);
    }
  }

  /** The state in which a pass of the outer loop begins. */
  datatype Visit = Visit(start: Context, channel: nat, retry: Retry)

  /** The n-th pass dispatches although part of the response has been sent before. */
  ghost predicate Replays(env: Env, cfg: Config, v: Visit, n: nat) {
    v.start.sent && Reaches(env, cfg, v.start, v.channel, v.retry, n)
  }

  /** Every dispatch sends something and then fails with one retryable error; channels and accounts are always found. */
  ghost predicate Insistent(env: Env, cfg: Config) {
    var reply := env.inner(0).reply;
    && !cfg.autoGroup && reply.Some? && !reply.value.capacity && !reply.value.channelCode
    && ShouldRetry(reply, 1, false, cfg.specificChannel, env.retryByStatus)
    && (forall n :: InsistentTurn(env.inner(n), reply))
    && (forall m :: InsistentPick(env.outer(m)))
  }

  ghost predicate InsistentTurn(t: Turn, reply: Option<ApiError>) {
    t.exempt && t.bodyTooLarge.None? && t.sends && t.reply == reply
  }

  ghost predicate InsistentPick(pick: Pick) {
    !pick.affinitySkip && (pick.Selected? ==> pick.found) && forall excluded :: pick.setup(excluded).Ready?
  }

  lemma InsistentReaches(env: Env, cfg: Config, v: Visit, n: nat)
    requires Insistent(env, cfg)
    ensures Reaches(env, cfg, v.start, v.channel, v.retry, n)
    ensures env.inner(v.start.turn).sends && env.inner(v.start.turn).reply == env.inner(0).reply
    ensures RetryAfter(env, cfg, env.inner(0).reply.value, v.retry, n) <==> cfg.retryTimes > v.retry.count
  {
    assert InsistentTurn(env.inner(v.start.turn), env.inner(0).reply);
    assert InsistentPick(env.outer(n));
  }

  /** What an insistent environment has led to after so many passes. */
  ghost predicate Insisted(env: Env, cfg: Config, start: Context, c: Context, attempts: nat) {
    Insistent(env, cfg) ==>
      && Dispatches(c.log) == Dispatches(start.log) + attempts
      && (attempts > 0 ==> c.sent) && (attempts > 1 ==> Replayed(c.log))
  }

  /** The dispatches that so many passes may make without any repair. */
  function Budget(attempts: nat, maxFailovers: nat): nat {
    if attempts == 0 then 0 else Budget(attempts - 1, maxFailovers) + maxFailovers + 1
  }

  lemma {:induction false} BudgetIsProduct(attempts: nat, maxFailovers: nat)
    ensures Budget(attempts, maxFailovers) == attempts * (maxFailovers + 1)
  {
    if attempts > 0 {
      BudgetIsProduct(attempts - 1, maxFailovers);
    }
  }

  ghost predicate SomeReplays(env: Env, cfg: Config, visits: seq<Visit>) {
    exists n: nat | n < |visits| :: Replays(env, cfg, visits[n], n)
  }

  lemma VisitAdded(env: Env, cfg: Config, visits: seq<Visit>, visit: Visit)
    ensures SomeReplays(env, cfg, visits + [visit])
            <==> SomeReplays(env, cfg, visits) || Replays(env, cfg, visit, |visits|)
  {
    var all := visits + [visit];
    assert all[|visits|] == visit;
    assert forall n: nat | n < |visits| :: all[n] == visits[n];
  }

  /** A pass of the outer loop and the step to the next one. */
  method GoOn(env: Env, cfg: Config, v: Visit, attempt: nat)
    returns (c: Context, channel: nat, retry: Retry, error: Option<ApiError>, stop: bool)
    requires LawfulRouter(env) && Between(v.start) && v.retry.count >= 0 && !v.retry.resetNext
    ensures Sound(c) && c.billed == v.start.billed
    ensures error.None? ==>
      stop && Successes(c.log) == 1 && c.log.Then? && c.log.event.Dispatched? && c.log.event.reply.None?
    ensures error.Some? ==> Successes(c.log) == 0
    ensures error == Blame(c.log)
    ensures CapacityOpen(c.log) ==> error == Some(c.log.event.error)
    ensures error.Some? && stop ==> MayStop(env, cfg, c, error.value, retry, attempt + 1)
    ensures !stop ==> error.Some? && Between(c) && Advances(cfg, v.retry, retry)
    ensures Dispatches(c.log) + c.Unused() <= Dispatches(v.start.log) + v.start.Unused() + cfg.maxFailovers + 1
    ensures Replayed(c.log) <==> Replayed(v.start.log) || Replays(env, cfg, v, attempt)
    ensures Insistent(env, cfg) ==>
      && Dispatches(c.log) == Dispatches(v.start.log) + 1 && c.sent && (v.start.sent ==> Replayed(c.log))
      && (stop <==> cfg.retryTimes <= v.retry.count) && (!stop ==> retry.count == v.retry.count + 1)
  {
    c, channel, retry, error, stop := Attempt(env, cfg, v.start, v.channel, v.retry, attempt);
    if Insistent(env, cfg) {
      InsistentReaches(env, cfg, v, attempt);
    }
    if !stop {
      c := c.Record(Retried(error.value));
      retry := Increase(retry);
    }
  }

  /** The channel retry loop. */
  method TryChannels(env: Env, cfg: Config, start: Context)
    returns (c: Context, error: Option<ApiError>, retry: Retry, attempts: nat, visits: seq<Visit>)
    requires LawfulRouter(env) && Between(start) && Blame(start.log) == None
    ensures Sound(c) && c.billed == start.billed && error == Blame(c.log)
    ensures error.None? && cfg.retryTimes >= 0 ==>
      Successes(c.log) == 1 && c.log.Then? && c.log.event.Dispatched? && c.log.event.reply.None?
    ensures cfg.retryTimes < 0 ==> error.None? && c == start
    ensures error.Some? ==> Successes(c.log) == 0 && MayStop(env, cfg, c, error.value, retry, attempts)
    ensures CapacityOpen(c.log) ==> error == Some(c.log.event.error)
    ensures Dispatches(c.log) + c.Unused()
            <= Dispatches(start.log) + start.Unused() + Budget(attempts, cfg.maxFailovers)
    ensures |visits| == attempts
    ensures attempts > 0 ==> visits[0] == Visit(start, env.firstChannel, Retry(0, false, env.firstGroup))
    ensures Replayed(c.log) <==> Replayed(start.log) || SomeReplays(env, cfg, visits)
    ensures Insisted(env, cfg, start, c, attempts) && (Insistent(env, cfg) ==> attempts == cfg.retryTimes + 1 || cfg.retryTimes < 0)
  {
    c, error, attempts, visits := start, None, 0, [];
    retry := Retry(0, false, env.firstGroup);
    var channel := env.firstChannel;
    while retry.count <= cfg.retryTimes
      invariant Between(c) && c.billed == start.billed && error == Blame(c.log)
      invariant retry.count >= 0 && !retry.resetNext
      invariant attempts == 0 ==> error.None? && c == start && retry.count == 0
      invariant attempts > 0 ==> error.Some? && cfg.retryTimes >= 0
      invariant Dispatches(c.log) + c.Unused()
                <= Dispatches(start.log) + start.Unused() + Budget(attempts, cfg.maxFailovers)
      invariant |visits| == attempts && (attempts == 0 ==> channel == env.firstChannel && retry == Retry(0, false, env.firstGroup))
      invariant attempts > 0 ==> visits[0] == Visit(start, env.firstChannel, Retry(0, false, env.firstGroup))
      invariant Replayed(c.log) <==> Replayed(start.log) || SomeReplays(env, cfg, visits)
      invariant Insisted(env, cfg, start, c, attempts)
      invariant Insistent(env, cfg) ==> retry.count == attempts && (attempts <= cfg.retryTimes || cfg.retryTimes < 0)
      decreases if retry.group <= cfg.groups then cfg.groups - retry.group else 0, cfg.retryTimes + 1 - retry.count
    {
      var stop;
      VisitAdded(env, cfg, visits, Visit(c, channel, retry));
      visits := visits + [Visit(c, channel, retry)];
      c, channel, retry, error, stop := GoOn(env, cfg, visits[attempts], attempts);
      attempts := attempts + 1;
      if stop {
        break;
      }
    }
  }

  /** A handled capacity error that no failover follows is the error the caller gets. */
  ghost predicate CapacityReported(env: Env, ev: seq<Event>, error: Option<ApiError>) {
    forall i: nat | i < |ev| && ev[i].Handled? && ev[i].error.capacity
                    && !(i + 1 < |ev| && ev[i + 1].FailedOver?) ::
      error == Some(env.normalize(ev[i].error))
  }

  /** What is reported when the loops end with `error` and the refund follows. */
  lemma EndIsReported(env: Env, before: Log, error: Option<ApiError>, log: Log)
    requires Lawful(log) && Refunds(before) == 0
    requires log == before || log == Then(before, Refunded)
    requires CapacityOpen(before) ==> error == Some(env.normalize(before.event.error))
    ensures CapacityReported(env, Events(log), error)
  {
    var ev := Events(log);
    forall i: nat | i < |ev| && ev[i].Handled? && ev[i].error.capacity
                    && !(i + 1 < |ev| && ev[i + 1].FailedOver?)
      ensures error == Some(env.normalize(ev[i].error))
    {
      OpenAtTheEnd(log, i);
    }
  }

  /** The context of a request whose quota is reserved, unless the model is free. */
  method Begin(billed: bool) returns (c: Context)
    ensures Between(c) && c.billed == billed && c.Unused() == 3
    ensures Dispatches(c.log) == 0 && !Replayed(c.log) && Blame(c.log) == None
  {
    c := Context({}, 0, false, false, false, false, false, false, 0, Start);
    if billed {
      c := c.(billed := true).Record(Charged);
    }
  }

  /** A reported error is normalised. */
  ghost function Normalized(env: Env, error: Option<ApiError>): Option<ApiError> {
    if error.None? then None else Some(env.normalize(error.value))
  }

  /** The deferred end: normalise the error, and refund what was reserved. */
  method Finish(env: Env, c: Context, failure: Option<ApiError>) returns (error: Option<ApiError>, log: Log)
    requires Sound(c) && (CapacityOpen(c.log) ==> failure == Some(c.log.event.error))
    ensures error == Normalized(env, failure) && Blame(log) == Blame(c.log)
    ensures KeepsRules(Events(log)) && CapacityReported(env, Events(log), error)
    ensures Refunds(log) == if failure.Some? && c.billed then 1 else 0
    ensures Charges(log) == Charges(c.log) && Successes(log) == Successes(c.log)
    ensures Dispatches(log) == Dispatches(c.log) && Replayed(log) == Replayed(c.log)
    ensures failure.None? ==> log == c.log
  {
    error, log := failure, c.log;
    if failure.Some? {
      error := Some(env.normalize(failure.value));
      if c.billed {
        log := c.Record(Refunded).log;
      }
    }
    LawfulMeansRules(log);
    EndIsReported(env, c.log, error, log);
  }

  /** The relay from the billing reservation to the response. */
  method Relay(env: Env, cfg: Config) returns (error: Option<ApiError>, log: Log, attempts: nat)
    requires LawfulRouter(env)
    ensures KeepsRules(Events(log))
    ensures if !cfg.free && env.preConsume.Some? then error == env.preConsume && log == Start
            else error == Normalized(env, if env.promptAudit.Some? then env.promptAudit else Blame(log))
    ensures (cfg.free || env.preConsume.None?) && env.promptAudit.Some? ==> Dispatches(log) == 0
    ensures Charges(log) == if !cfg.free && env.preConsume.None? then 1 else 0
    ensures Settled(error, log)
      <==> cfg.retryTimes >= 0 || (!cfg.free && env.preConsume.Some?) || env.promptAudit.Some?
    ensures !Settled(error, log) ==> error.None? && Dispatches(log) == 0 && Refunds(log) == 0
    ensures Successes(log) == 1 ==> log.Then? && log.event.Dispatched? && log.event.reply.None?
    ensures CapacityReported(env, Events(log), error)
    ensures Dispatches(log) <= attempts * (cfg.maxFailovers + 1) + 3
    ensures Insistent(env, cfg) && (cfg.free || env.preConsume.None?) && env.promptAudit.None? && cfg.retryTimes >= 0 ==>
      Dispatches(log) == cfg.retryTimes + 1 && (cfg.retryTimes > 0 ==> Replayed(log))
  {
    attempts := 0;
    if !cfg.free && env.preConsume.Some? {
      return env.preConsume, Start, 0;
    }
    var c := Begin(!cfg.free);
    error := env.promptAudit;
    if error.None? {
      var retry, visits;
      c, error, retry, attempts, visits := TryChannels(env, cfg, c);
    }
    error, log := Finish(env, c, error);
    BudgetIsProduct(attempts, cfg.maxFailovers);
  }

  // ----- a run that replays a response already begun -----

  const SERVER_ERROR := ApiError(1, false, false, false, false, false, false, false, 500)

  /** A channel without account pool whose upstream always breaks off after the first part of the response. */
  function BreakingOff(): Env {
    var none: set<nat> -> Setup := excluded => Ready(0);
    Env(None, None,
        n => Turn(true, None, None, Some(SERVER_ERROR), false, false, true, NotHandled, true, none),
        m => Pick.Selected(g => true, true, 0, none, false),
        0, 0, status => true, e => e)
  }

  /** With it every retry that is configured sends the request, and the response, once more. */
  method ReplayExample(retryTimes: nat) returns (log: Log)
    ensures Dispatches(log) == retryTimes + 1
    ensures retryTimes > 0 ==> Replayed(log)
  {
    var env, cfg := BreakingOff(), Config(retryTimes, 3, true, false, false, 0, false);
    var error, attempts;
    error, log, attempts := Relay(env, cfg);
  }
}
