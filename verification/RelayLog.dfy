/**
 The log of one relayed request (controller/relay.go): everything that touches money, audits, upstream
 accounts and failover, in order, and the rules such a log keeps.
 */
module RelayLog {
  import opened Wrappers

  /** An upstream or local error, by what the loops ask of it. */
  datatype ApiError = ApiError(
    id: nat,
    partial: bool,       // code "managed_partial_response"
    incomplete: bool,    // the upstream stream ended early
    missingItem: bool,   // IsCodexResponsesMissingItemError
    channelCode: bool,   // IsChannelError
    skipRetry: bool,
    capacity: bool,      // IsUpstreamCapacityError
    alwaysSkip: bool,    // IsAlwaysSkipRetryCode
    status: int)

  datatype Event =
    | Charged                                                      // quota reserved
    | Audited(objection: Option<ApiError>)                         // content audit of the request; None when it passes
    | Unreadable(tooLarge: bool)                                   // the request body cannot be read
    | Dispatched(account: nat, exempt: bool, sends: bool, reply: Option<ApiError>)
    | Handled(error: ApiError)                                     // account error taken care of
    | FailedOver(from: nat, to: nat)
    | Unselected(error: ApiError)                                  // no channel or account was found
    | Retried(error: ApiError)                                     // the outer loop goes on
    | NewPool                                                      // another channel: exclusions start afresh
    | Refunded

  datatype Log = Start | Then(before: Log, event: Event)

  ghost predicate AuditPassed(log: Log) {
    log.Then? && (log.event == Audited(None) || AuditPassed(log.before))
  }

  /** Nothing may be dispatched after a success, a partly published response or a rejected audit. */
  ghost predicate Closes(e: Event) {
    || (e.Dispatched? && (e.reply.None? || e.reply.value.partial))
    || (e.Audited? && e.objection.Some?)
  }

  ghost predicate Closed(log: Log) {
    log.Then? && (Closes(log.event) || Closed(log.before))
  }

  /** Accounts failed over from since the channel was entered. */
  ghost function FailedAccounts(log: Log): set<nat> {
    match log
    case Start => {}
    case Then(before, event) =>
      if event.NewPool? then {}
      else if event.FailedOver? then FailedAccounts(before) + {event.from}
      else FailedAccounts(before)
  }

  /** Part of the response has been sent. */
  ghost predicate Sent(log: Log) {
    log.Then? && ((log.event.Dispatched? && log.event.sends) || Sent(log.before))
  }

  /** The current pass of the outer loop has dispatched. */
  ghost predicate DispatchedHere(log: Log) {
    log.Then? && (log.event.Dispatched? || (!log.event.Retried? && DispatchedHere(log.before)))
  }

  /** A dispatch has followed one that sent part of the response. */
  ghost predicate Replayed(log: Log) {
    log.Then? && (Replayed(log.before) || (log.event.Dispatched? && Sent(log.before)))
  }

  /** The error that the log blames: that of the last audit, body, selection or dispatch that went wrong. */
  ghost function Blame(log: Log): Option<ApiError> {
    match log
    case Start => None
    case Then(before, event) =>
      match event
      case Audited(objection) => if objection.Some? then objection else Blame(before)
      case Unreadable(tooLarge) =>
        Some(ApiError(0, false, false, false, false, true, false, false, if tooLarge then 413 else 400))
      case Unselected(error) => Some(error)
      case Dispatched(_, _, _, reply) => reply
      case _ => Blame(before)
  }

  ghost function Refunds(log: Log): nat {
    if log.Start? then 0 else Refunds(log.before) + if log.event.Refunded? then 1 else 0
  }

  ghost function Successes(log: Log): nat {
    if log.Start? then 0
    else Successes(log.before) + if log.event.Dispatched? && log.event.reply.None? then 1 else 0
  }

  ghost function Charges(log: Log): nat {
    if log.Start? then 0 else Charges(log.before) + if log.event.Charged? then 1 else 0
  }

  ghost function Dispatches(log: Log): nat {
    if log.Start? then 0 else Dispatches(log.before) + if log.event.Dispatched? then 1 else 0
  }

  /** A capacity error was handled and no failover has followed. */
  ghost predicate CapacityOpen(log: Log) {
    log.Then? && log.event.Handled? && log.event.error.capacity
  }

  /** What may come next. */
  ghost predicate Allowed(log: Log, e: Event) {
    && (e.Dispatched? ==> !Closed(log) && (e.exempt || AuditPassed(log)))
    && (e.Dispatched? && e.account > 0 ==> e.account !in FailedAccounts(log))
    && (e.Dispatched? && DispatchedHere(log) ==> !Sent(log))
    && (e == Audited(None) ==> !AuditPassed(log))
    && (e.FailedOver? ==> e.from !in FailedAccounts(log) && !Sent(log))
    && (CapacityOpen(log) ==> e.FailedOver? || e.Refunded?)
    && (log.Then? ==> !log.event.Refunded?)
  }

  ghost predicate Lawful(log: Log) {
    log.Then? ==> Lawful(log.before) && Allowed(log.before, log.event)
  }

  /**
   What a caller sees of the money: either one successful dispatch and nothing refunded, or an error, no
   successful dispatch, and whatever was charged refunded.
   */
  ghost predicate Settled(error: Option<ApiError>, log: Log) {
    if error.None? then Successes(log) == 1 && Refunds(log) == 0
    else Successes(log) == 0 && Refunds(log) == Charges(log)
  }

  // ----- the rules, read off the sequence of events -----

  ghost function Events(log: Log): seq<Event> {
    if log.Start? then [] else Events(log.before) + [log.event]
  }

  /** The channel does not change from event `i` up to event `j`. */
  ghost predicate SamePool(ev: seq<Event>, i: nat, j: nat)
    requires i <= j <= |ev|
  {
    forall k | i <= k < j :: !ev[k].NewPool?
  }

  /** The outer loop goes on between events `i` and `j`. */
  ghost predicate RetriedBetween(ev: seq<Event>, i: nat, j: nat)
    requires i < j <= |ev|
  {
    exists k | i < k < j :: ev[k].Retried?
  }

  /** Event `j` is in order after event `i`. */
  ghost predicate InOrder(ev: seq<Event>, i: nat, j: nat)
    requires i < j < |ev|
  {
    && (Closes(ev[i]) ==> !ev[j].Dispatched?)
    && !(ev[i] == Audited(None) && ev[j] == Audited(None))
    && (ev[i].FailedOver? && ev[j].FailedOver? && SamePool(ev, i, j) ==> ev[i].from != ev[j].from)
    && (ev[i].FailedOver? && ev[j].Dispatched? && SamePool(ev, i, j) && ev[j].account > 0 ==>
          ev[i].from != ev[j].account)
    && (ev[i].Dispatched? && ev[i].sends ==> !ev[j].FailedOver? && (ev[j].Dispatched? ==> RetriedBetween(ev, i, j)))
    && !ev[i].Refunded?
  }

  /** A dispatch to an account that is not exempt comes after a passed audit. */
  ghost predicate AuditedFirst(ev: seq<Event>, j: nat)
    requires j < |ev|
  {
    ev[j].Dispatched? && !ev[j].exempt ==> exists i: nat | i < j :: ev[i] == Audited(None)
  }

  /** After a capacity error that was handled there is a failover, or at most the refund. */
  ghost predicate CapacityAnswered(ev: seq<Event>, i: nat)
    requires i < |ev|
  {
    ev[i].Handled? && ev[i].error.capacity && i + 1 < |ev| ==>
      ev[i + 1].FailedOver? || (ev[i + 1].Refunded? && i + 2 == |ev|)
  }

  ghost predicate KeepsRules(ev: seq<Event>) {
    && (forall i: nat, j: nat | i < j < |ev| :: InOrder(ev, i, j))
    && (forall j: nat | j < |ev| :: AuditedFirst(ev, j) && CapacityAnswered(ev, j))
  }

  lemma {:induction false} ClosedInEvents(log: Log)
    ensures Closed(log) <==> exists i: nat | i < |Events(log)| :: Closes(Events(log)[i])
    ensures AuditPassed(log) <==> exists i: nat | i < |Events(log)| :: Events(log)[i] == Audited(None)
  {
    if log.Then? {
      var ev, was := Events(log), Events(log.before);
      ClosedInEvents(log.before);
      assert ev == was + [log.event];
      assert ev[|was|] == log.event;
      assert forall i: nat | i < |was| :: ev[i] == was[i];
    }
  }

  /** The failed accounts are the ones failed over from since the channel was last changed. */
  lemma {:induction false} FailedInEvents(log: Log, i: nat)
    requires i < |Events(log)| && Events(log)[i].FailedOver? && SamePool(Events(log), i, |Events(log)|)
    ensures Events(log)[i].from in FailedAccounts(log)
  {
    if i < |Events(log.before)| {
      assert forall k | i <= k < |Events(log.before)| :: Events(log.before)[k] == Events(log)[k];
      FailedInEvents(log.before, i);
      assert Events(log)[|Events(log.before)|] == log.event;
    }
  }

  /** After a sending dispatch the outer loop has gone on, or the current pass has dispatched and sent. */
  lemma {:induction false} SentInEvents(log: Log, i: nat)
    requires i < |Events(log)| && Events(log)[i].Dispatched? && Events(log)[i].sends
    ensures Sent(log) && (DispatchedHere(log) || RetriedBetween(Events(log), i, |Events(log)|))
  {
    var ev, was := Events(log), Events(log.before);
    assert ev[|was|] == log.event;
    if i < |was| {
      assert forall k: nat | k < |was| :: ev[k] == was[k];
      SentInEvents(log.before, i);
      if log.event.Retried? {
        assert RetriedBetween(ev, i, |ev|);
      } else if k :| i < k < |was| && was[k].Retried? {
        assert ev[k].Retried?;
      }
    }
  }

  lemma NextInOrder(log: Log, i: nat)
    requires log.Then? && Lawful(log) && i < |Events(log.before)|
    ensures InOrder(Events(log), i, |Events(log.before)|)
  {
    var ev, was, j := Events(log), Events(log.before), |Events(log.before)|;
    ClosedInEvents(log.before);
    assert ev[j] == log.event && ev[i] == was[i];
    if ev[i].FailedOver? && SamePool(ev, i, j) {
      assert forall k | i <= k < j :: was[k] == ev[k];
      FailedInEvents(log.before, i);
    }
    if ev[i].Dispatched? && ev[i].sends {
      SentInEvents(log.before, i);
      if k :| i < k < |was| && was[k].Retried? {
        assert ev[k].Retried?;
      }
    }
    if ev[i].Refunded? {
      RefundIsLast(log.before, i);
    }
  }

  lemma {:induction false} RefundIsLast(log: Log, i: nat)
    requires Lawful(log) && i < |Events(log)| && Events(log)[i].Refunded?
    ensures i + 1 == |Events(log)| && log.event.Refunded?
  {
    if i < |Events(log.before)| {
      assert Events(log.before)[i] == Events(log)[i];
      RefundIsLast(log.before, i);
    }
  }

  lemma {:induction false} LawfulKeepsOrder(log: Log, i: nat, j: nat)
    requires Lawful(log) && i < j < |Events(log)|
    ensures InOrder(Events(log), i, j)
  {
    var ev, was := Events(log), Events(log.before);
    if j < |was| {
      LawfulKeepsOrder(log.before, i, j);
      assert forall k: nat | k < |was| :: ev[k] == was[k];
    } else {
      NextInOrder(log, i);
    }
  }

  lemma {:induction false} LawfulAudits(log: Log, j: nat)
    requires Lawful(log) && j < |Events(log)|
    ensures AuditedFirst(Events(log), j)
  {
    var ev, was := Events(log), Events(log.before);
    assert forall k: nat | k < |was| :: ev[k] == was[k];
    if j < |was| {
      LawfulAudits(log.before, j);
    } else {
      ClosedInEvents(log.before);
      assert ev[j] == log.event;
    }
  }

  lemma {:induction false} LawfulAnswers(log: Log, i: nat)
    requires Lawful(log) && i < |Events(log)|
    ensures CapacityAnswered(Events(log), i)
  {
    var ev, was := Events(log), Events(log.before);
    assert forall k: nat | k < |was| :: ev[k] == was[k];
    if i + 1 < |was| {
      LawfulAnswers(log.before, i);
      if ev[i + 1].Refunded? {
        RefundIsLast(log, i + 1);
      }
    } else if i + 1 == |was| {
      assert ev[i] == log.before.event && ev[i + 1] == log.event;
    }
  }

  lemma LawfulMeansRules(log: Log)
    requires Lawful(log)
    ensures KeepsRules(Events(log))
  {
    var ev := Events(log);
    forall i: nat, j: nat | i < j < |ev| ensures InOrder(ev, i, j) {
      LawfulKeepsOrder(log, i, j);
    }
    forall j: nat | j < |ev| ensures AuditedFirst(ev, j) && CapacityAnswered(ev, j) {
      LawfulAudits(log, j);
      LawfulAnswers(log, j);
    }
  }

  lemma {:induction false} OpenAtTheEnd(log: Log, i: nat)
    requires Lawful(log) && i < |Events(log)| && Events(log)[i].Handled? && Events(log)[i].error.capacity
    requires i + 1 < |Events(log)| ==> !Events(log)[i + 1].FailedOver?
    ensures if log.event.Refunded? then CapacityOpen(log.before) && log.before.event == Events(log)[i]
            else CapacityOpen(log) && log.event == Events(log)[i]
  {
    LawfulAnswers(log, i);
    if i + 1 < |Events(log)| {
      RefundIsLast(log, i + 1);
      assert Events(log.before)[i] == Events(log)[i];
      assert log.before.Then?;
    }
  }
}
