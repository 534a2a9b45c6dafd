/**
 Admission to dashboard queries (controller/dashboard_query.go): a bounded pool of slots with a
 bounded waiting room, both buffered channels.  Any number of callers run `acquireDashboardSlot` and,
 on success, the release closure.  The state records the length of each channel and where every caller
 stands; an event lets one caller make one channel operation or branch.
 */
module DashboardSlots {

  datatype Reason = Busy | Cancelled

  datatype Pc =
    | Entry              // about to look at ctx.Err()
    | TrySlot            // select { case slots <- ...: default: }
    | TryWaiter          // select { case waiters <- ...: default: }
    | Waiting            // select over slots, ctx.Done() and the timer
    | LeaveWithSlot      // got a slot, deferred <-waiters still to run
    | LeaveEmpty(why: Reason)  // gave up, deferred <-waiters still to run
    | Holding            // returned; release not yet called
    | Released
    | Refused(why: Reason)

  datatype State = State(slots: nat, waiters: nat, callers: map<nat, Pc>)

  datatype Limits = Limits(slots: nat, waiters: nat)

  /** What a caller finds ready: a channel operation, a cancelled context or the timer. */
  datatype Choice = Proceed | CtxDone | Timeout

  datatype Event = Arrive(who: nat) | Step(who: nat, choice: Choice)

  function Goto(s: State, who: nat, pc: Pc): State {
    s.(callers := s.callers[who := pc])
  }

  /** One event; an event that is not possible leaves the state as it is (a blocked caller). */
  function Next(s: State, e: Event, max: Limits): State {
    match e
    case Arrive(who) => if who in s.callers then s else Goto(s, who, Entry)
    case Step(who, choice) => if who in s.callers then Advance(s, who, choice, max) else s
  }

  function Advance(s: State, who: nat, choice: Choice, max: Limits): State
    requires who in s.callers
  {
    match s.callers[who]
    case Entry => Goto(s, who, if choice == CtxDone then Refused(Cancelled) else TrySlot)
    case TrySlot =>
      if s.slots < max.slots then Goto(s.(slots := s.slots + 1), who, Holding) else Goto(s, who, TryWaiter)
    case TryWaiter =>
      if s.waiters < max.waiters then Goto(s.(waiters := s.waiters + 1), who, Waiting) else Goto(s, who, Refused(Busy))
    case Waiting =>
      (match choice
       case Proceed => if s.slots < max.slots then Goto(s.(slots := s.slots + 1), who, LeaveWithSlot) else s
       case CtxDone => Goto(s, who, LeaveEmpty(Cancelled))
       case Timeout => Goto(s, who, LeaveEmpty(Busy)))
    case LeaveWithSlot => if s.waiters > 0 then Goto(s.(waiters := s.waiters - 1), who, Holding) else s
    case LeaveEmpty(why) => if s.waiters > 0 then Goto(s.(waiters := s.waiters - 1), who, Refused(why)) else s
    case Holding => if s.slots > 0 then Goto(s.(slots := s.slots - 1), who, Released) else s
    case Released => s
    case Refused(_) => s
  }

  const INITIAL := State(0, 0, map[])

  function Run(schedule: seq<Event>, max: Limits): State {
    if schedule == [] then INITIAL
    else Next(Run(schedule[..|schedule| - 1], max), schedule[|schedule| - 1], max)
  }

  // ----- ownership -----

  ghost predicate OwnsSlot(pc: Pc) {
    pc.LeaveWithSlot? || pc.Holding?
  }

  ghost predicate OwnsWaiter(pc: Pc) {
    pc.Waiting? || pc.LeaveWithSlot? || pc.LeaveEmpty?
  }

  ghost predicate Finished(pc: Pc) {
    pc.Released? || pc.Refused?
  }

  ghost function SlotOwners(s: State): set<nat> {
    set who | who in s.callers && OwnsSlot(s.callers[who])
  }

  ghost function WaiterOwners(s: State): set<nat> {
    set who | who in s.callers && OwnsWaiter(s.callers[who])
  }

  /** Each channel holds one element per owner, and no more than its capacity. */
  ghost predicate Balanced(s: State, max: Limits) {
    && s.slots == |SlotOwners(s)| <= max.slots
    && s.waiters == |WaiterOwners(s)| <= max.waiters
  }

  ghost function With(owners: set<nat>, who: nat, owns: bool): set<nat> {
    if owns then owners + {who} else owners - {who}
  }

  lemma GotoOwners(s: State, who: nat, pc: Pc)
    ensures SlotOwners(Goto(s, who, pc)) == With(SlotOwners(s), who, OwnsSlot(pc))
    ensures WaiterOwners(Goto(s, who, pc)) == With(WaiterOwners(s), who, OwnsWaiter(pc))
  {
  }

  lemma WithSize(owners: set<nat>, who: nat, owns: bool)
    ensures |With(owners, who, owns)| == |owners| + (if owns then 1 else 0) - (if who in owners then 1 else 0)
  {
  }

  lemma OwnerCounts(s: State, who: nat)
    requires who in s.callers
    ensures OwnsSlot(s.callers[who]) ==> who in SlotOwners(s) && |SlotOwners(s)| > 0
    ensures OwnsWaiter(s.callers[who]) ==> who in WaiterOwners(s) && |WaiterOwners(s)| > 0
  {
  }

  /** Moving one caller changes each owner count by what that caller gains and gives up. */
  lemma MoveCounts(s: State, who: nat, pc: Pc)
    ensures var slotBefore, waiterBefore := who in SlotOwners(s), who in WaiterOwners(s);
            && |SlotOwners(Goto(s, who, pc))| == |SlotOwners(s)| + (if OwnsSlot(pc) then 1 else 0) - (if slotBefore then 1 else 0)
            && |WaiterOwners(Goto(s, who, pc))| == |WaiterOwners(s)| + (if OwnsWaiter(pc) then 1 else 0) - (if waiterBefore then 1 else 0)
  {
    GotoOwners(s, who, pc);
    WithSize(SlotOwners(s), who, OwnsSlot(pc));
    WithSize(WaiterOwners(s), who, OwnsWaiter(pc));
  }

  lemma ChannelsDoNotMatter(s: State, t: State)
    requires s.callers == t.callers
    ensures SlotOwners(s) == SlotOwners(t) && WaiterOwners(s) == WaiterOwners(t)
  {
  }

  lemma NextBalanced(s: State, e: Event, max: Limits)
    requires Balanced(s, max)
    ensures Balanced(Next(s, e, max), max)
  {
    var t := Next(s, e, max);
    if t != s {
      var pc := t.callers[e.who];
      MoveCounts(s, e.who, pc);
      ChannelsDoNotMatter(t, Goto(s, e.who, pc));
    }
  }

  /** Under every interleaving of any number of callers both bounds and both counts hold. */
  lemma {:induction false} AlwaysBalanced(schedule: seq<Event>, max: Limits)
    ensures Balanced(Run(schedule, max), max)
  {
    if schedule == [] {
      assert SlotOwners(INITIAL) == {} && WaiterOwners(INITIAL) == {};
    } else {
      var before := schedule[..|schedule| - 1];
      AlwaysBalanced(before, max);
      NextBalanced(Run(before, max), schedule[|schedule| - 1], max);
    }
  }

  /**
   No receive ever blocks: neither `release` nor the deferred exit from the waiting room can find its
   channel empty, in any reachable state.
   */
  lemma ReceivesNeverBlock(schedule: seq<Event>, max: Limits, who: nat, choice: Choice)
    requires who in Run(schedule, max).callers
    ensures var s := Run(schedule, max); var t := Next(s, Step(who, choice), max);
            && (s.callers[who] == Holding ==> t.callers[who] == Released && t.slots == s.slots - 1)
            && (s.callers[who] == LeaveWithSlot ==> t.callers[who] == Holding && t.waiters == s.waiters - 1)
            && (s.callers[who].LeaveEmpty? ==> t.callers[who] == Refused(s.callers[who].why) && t.waiters == s.waiters - 1)
  {
    AlwaysBalanced(schedule, max);
    OwnerCounts(Run(schedule, max), who);
  }

  /** How many operations a caller still has in front of it, at most. */
  ghost function Remaining(pc: Pc): nat {
    match pc
    case Entry => 6
    case TrySlot => 5
    case TryWaiter => 4
    case Waiting => 3
    case LeaveWithSlot => 2
    case LeaveEmpty(_) => 1
    case Holding => 1
    case Released => 0
    case Refused(_) => 0
  }

  /** No caller is ever stuck, and every operation brings it closer to its end and moves no one else. */
  lemma EveryCallerAdvances(schedule: seq<Event>, max: Limits, who: nat)
    requires who in Run(schedule, max).callers && !Finished(Run(schedule, max).callers[who])
    ensures var s := Run(schedule, max);
            exists choice :: var t := Next(s, Step(who, choice), max);
              && Remaining(t.callers[who]) < Remaining(s.callers[who])
              && t.callers == s.callers[who := t.callers[who]]
  {
    var s := Run(schedule, max);
    AlwaysBalanced(schedule, max);
    OwnerCounts(s, who);
    var t := Next(s, Step(who, Timeout), max);
    assert Remaining(t.callers[who]) < Remaining(s.callers[who]);
  }

  /** Nothing leaks: once every caller has finished, both channels are empty again. */
  lemma QuietMeansEmpty(schedule: seq<Event>, max: Limits)
    requires forall who :: who in Run(schedule, max).callers ==> Finished(Run(schedule, max).callers[who])
    ensures Run(schedule, max).slots == 0 && Run(schedule, max).waiters == 0
  {
    var s := Run(schedule, max);
    AlwaysBalanced(schedule, max);
    assert SlotOwners(s) == {} && WaiterOwners(s) == {};
  }

  // ----- who is admitted and who is refused -----

  /** A caller is let through wherever there is room: into a slot at once, else into the waiting room, else from there. */
  lemma AdmittedWhereverThereIsRoom(schedule: seq<Event>, max: Limits, who: nat, choice: Choice)
    requires who in Run(schedule, max).callers
    ensures var s := Run(schedule, max); var pc := Next(s, Step(who, choice), max).callers[who];
            && (s.callers[who] == Entry && choice != CtxDone ==> pc == TrySlot)
            && (s.callers[who] == TrySlot && |SlotOwners(s)| < max.slots ==> pc == Holding)
            && (s.callers[who] == TryWaiter && |WaiterOwners(s)| < max.waiters ==> pc == Waiting)
            && (s.callers[who] == Waiting && choice == Proceed && |SlotOwners(s)| < max.slots ==> OwnsSlot(pc))
  {
    AlwaysBalanced(schedule, max);
  }

  /** At event `i` of the schedule, `who` makes a step from `pc`. */
  ghost predicate StepsFrom(schedule: seq<Event>, max: Limits, who: nat, i: nat, pc: Pc) {
    && i < |schedule| && schedule[i].Step? && schedule[i].who == who
    && who in Run(schedule[..i], max).callers && Run(schedule[..i], max).callers[who] == pc
  }

  /** It has looked for a slot when all of them were owned. */
  ghost predicate FoundSlotsTaken(schedule: seq<Event>, max: Limits, who: nat) {
    exists i: nat :: StepsFrom(schedule, max, who, i, TrySlot) && |SlotOwners(Run(schedule[..i], max))| == max.slots
  }

  /** After that, it has looked for a place to wait when all of them were owned. */
  ghost predicate FoundRoomTaken(schedule: seq<Event>, max: Limits, who: nat) {
    exists i: nat :: StepsFrom(schedule, max, who, i, TryWaiter) && FoundSlotsTaken(schedule[..i], max, who)
                     && |WaiterOwners(Run(schedule[..i], max))| == max.waiters
  }

  /** After that, its timer has fired while it waited. */
  ghost predicate TimedOut(schedule: seq<Event>, max: Limits, who: nat) {
    exists i: nat :: StepsFrom(schedule, max, who, i, Waiting) && FoundSlotsTaken(schedule[..i], max, who)
                     && schedule[i].choice == Timeout
  }

  /** Its context had ended on entry or ended while it waited. */
  ghost predicate ContextEnded(schedule: seq<Event>, max: Limits, who: nat) {
    exists i: nat :: (StepsFrom(schedule, max, who, i, Entry) || StepsFrom(schedule, max, who, i, Waiting))
                     && schedule[i].choice == CtxDone
  }

  ghost predicate Explained(schedule: seq<Event>, max: Limits, who: nat, pc: Pc) {
    match pc
    case TryWaiter => FoundSlotsTaken(schedule, max, who)
    case Waiting => FoundSlotsTaken(schedule, max, who)
    case LeaveEmpty(why) => if why == Busy then TimedOut(schedule, max, who) else ContextEnded(schedule, max, who)
    case Refused(why) =>
      if why == Busy then FoundRoomTaken(schedule, max, who) || TimedOut(schedule, max, who)
      else ContextEnded(schedule, max, who)
    case _ => true
  }

  lemma StepsFromLater(schedule: seq<Event>, e: Event, max: Limits, who: nat, i: nat, pc: Pc)
    requires StepsFrom(schedule, max, who, i, pc)
    ensures StepsFrom(schedule + [e], max, who, i, pc) && (schedule + [e])[..i] == schedule[..i]
  {
    assert (schedule + [e])[..i] == schedule[..i];
  }

  /** What explained a caller's place keeps explaining it. */
  lemma ExplainedLater(schedule: seq<Event>, e: Event, max: Limits, who: nat, pc: Pc)
    requires Explained(schedule, max, who, pc)
    ensures Explained(schedule + [e], max, who, pc)
  {
    forall i: nat, p | StepsFrom(schedule, max, who, i, p)
      ensures StepsFrom(schedule + [e], max, who, i, p) && (schedule + [e])[..i] == schedule[..i] && (schedule + [e])[i] == schedule[i]
    {
      StepsFromLater(schedule, e, max, who, i, p);
    }
  }

  /** A caller's own step is explained by what it found. */
  lemma StepExplained(schedule: seq<Event>, max: Limits, who: nat, choice: Choice)
    requires who in Run(schedule, max).callers && Explained(schedule, max, who, Run(schedule, max).callers[who])
    ensures var s := Run(schedule, max);
            Explained(schedule + [Step(who, choice)], max, who, Next(s, Step(who, choice), max).callers[who])
  {
    var s, e := Run(schedule, max), Step(who, choice);
    var longer := schedule + [e];
    AlwaysBalanced(schedule, max);
    assert longer[..|schedule|] == schedule && longer[|schedule|] == e;
    assert StepsFrom(longer, max, who, |schedule|, s.callers[who]);
    ExplainedLater(schedule, e, max, who, s.callers[who]);
  }

  /**
   Over every schedule: a caller is refused as busy only after it found all slots taken and then either the
   whole waiting room taken or its time up, and as cancelled only after its context ended.
   */
  lemma {:induction false} RefusalsAreExplained(schedule: seq<Event>, max: Limits, who: nat)
    requires who in Run(schedule, max).callers
    ensures Explained(schedule, max, who, Run(schedule, max).callers[who])
  {
    var before, e := schedule[..|schedule| - 1], schedule[|schedule| - 1];
    assert before + [e] == schedule;
    if who in Run(before, max).callers {
      RefusalsAreExplained(before, max, who);
      if e.Step? && e.who == who {
        StepExplained(before, max, who, e.choice);
      } else {
        ExplainedLater(before, e, max, who, Run(before, max).callers[who]);
      }
    }
  }
}
