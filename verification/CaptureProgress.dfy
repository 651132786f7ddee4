/**
  A capture that nothing disturbs delivers: from its admission on, every run in
  which the device, the core and the clock do their part parks the core's bytes,
  and a confirmation publishes them; and there are such runs for every plan.
*/
module CaptureProgress {
  import opened Basics
  import opened DiscTocs
  import opened CompletePcm
  import opened CaptureMonitor
  import opened CaptureProtocol
  import opened CaptureSafety
  import opened CaptureTheorems

  /** A job, and the bytes its core hands back. */
  datatype Goal = Goal(plan: Plan, ticket: nat, bytes: seq<Byte>) {
    /** As all plans the capture's input is made for. */
    predicate Sound() {
      && WellFormed(plan.toc) && 0 < plan.duration && 0 < BlockFrames(plan.policy) && 0 < plan.policy.timeBudgetMs
      && bytes != []
    }
  }

  /** The device, the core and the allocator do their part. */
  predicate Serves(e: Event, g: Goal) {
    e.Work? ==> e.answer.Accepted? && e.toc == g.plan.toc && e.bytes == g.bytes
  }

  /** A call is reserved with less than a millisecond of the job's time left. */
  predicate Hurried(s: Sys, e: Event) {
    e.Work? && s.thread.Running? && s.thread.at.AtReserve?
    && (e.clock.ClockThrew? || s.m.jobDeadline < e.clock.t + NS_PER_MS)
  }

  /** The step serves the job: nothing revokes it, time does not run out, and no newer job takes its place. */
  predicate Undisturbed(s: Sys, e: Event, g: Goal)
    requires Enabled(s, e)
  {
    Serves(e, g) && !Revokes(s, e) && !Hurried(s, e) && Next(s, e).m.activeTicket == s.m.activeTicket
  }

  predicate UndisturbedRun(s: Sys, g: Goal, es: seq<Event>)
    decreases es
  {
    es == [] || (Enabled(s, es[0]) && Undisturbed(s, es[0], g) && UndisturbedRun(Next(s, es[0]), g, es[1..]))
  }

  // ---------------------------------------------------------------- on course

  predicate Alive(m: Monitor, g: Goal) {
    && m.activeTicket == g.ticket <= m.epoch && !m.closing && m.status.busy && m.status.inputState == Some(Collecting)
    && m.status.identity == Some(g.plan.identity) && m.status.phase != AwaitingConfirm
    && m.callBudgetMs == g.plan.policy.timeBudgetMs
  }

  predicate CallOk(t: Thread, op: Op, g: Goal)
    requires t.Running?
  {
    && (op.ReadBlock? ==> 0 < op.frames <= g.plan.toc.leadoutLba - t.core.nextLba)
    && (op.ReleaseReader? ==> t.prepared && t.probed == g.plan.toc)
  }

  predicate Probes(op: Op) { op == InitialProbe || op == FinalProbe }

  /** No point of a job that is giving up. */
  predicate PointOk(t: Thread, g: Goal)
    requires t.Running?
  {
    match t.at
    case AtEnter(op) => CallOk(t, op, g)
    case AtAccess(op) => CallOk(t, op, g)
    case AtReserve(op) => CallOk(t, op, g)
    case AtAction(op) => CallOk(t, op, g)
    case AtEnd(op, ok) => ok && CallOk(t, op, g) && (Probes(op) ==> t.probed == g.plan.toc)
    case AtLeave(op, ok) => ok && CallOk(t, op, g) && (Probes(op) ==> t.probed == g.plan.toc)
    case AtCompareToc => t.probed == g.plan.toc
    case AtStoreRead(frames) => 0 < frames <= g.plan.toc.leadoutLba - t.core.nextLba
    case AtAppend(frames) => 0 < frames <= g.plan.toc.leadoutLba - t.core.nextLba
    case AtPublishRejected => false
    case AtPublishUnconfirmed => false
    case AtUnwind => t.prepared && t.probed == g.plan.toc
    case AtConfirmGate => t.prepared && t.probed == g.plan.toc
    case AtConfirm => t.prepared && t.probed == g.plan.toc
    case AtFinish => t.candidate == g.bytes
    case _ => true
  }

  predicate OnCourse(t: Thread, g: Goal)
    requires t.Running?
  {
    && t.job == Job(g.plan, g.ticket) && t.core.nextLba <= g.plan.toc.leadoutLba && !Terminal(t.core.state)
    && PointOk(t, g)
  }

  /** The job is queued or under way. */
  predicate Under(s: Sys, g: Goal) {
    && Alive(s.m, g)
    && if s.thread.Waiting? then s.m.queued == Some(Job(g.plan, g.ticket))
       else s.m.queued.None? && OnCourse(s.thread, g)
  }

  /** The bytes wait to be confirmed. */
  predicate Parked(s: Sys, g: Goal) {
    && s.thread.Waiting? && s.m.queued.None? && s.m.activeTicket == g.ticket <= s.m.epoch && !s.m.closing
    && s.m.status.busy && s.m.status.phase == AwaitingConfirm && s.m.status.inputState == Some(Prepared)
    && s.m.status.identity == Some(g.plan.identity) && s.m.status.readerReleased && s.m.pendingResult == g.bytes
  }

  /** The bytes are published. */
  predicate Out(s: Sys, g: Goal) {
    && s.thread.Waiting? && s.m.queued.None? && s.m.activeTicket == g.ticket <= s.m.epoch && !s.m.status.busy
    && s.m.status.identity == Some(g.plan.identity) && s.m.status.inputState == Some(Complete) && s.m.result == g.bytes
  }

  // ---------------------------------------------------------------- how far it is

  /** Steps left in a call before it leaves for what follows. */
  function CallRank(at: Point): nat
    requires InCall(at)
  {
    match at
    case AtEnter(_) => 6
    case AtAccess(_) => 5
    case AtReserve(_) => 4
    case AtAction(_) => 3
    case AtEnd(_, _) => 2
    case AtLeave(_, _) => 1
  }

  function BehindCall(op: Op): nat {
    match op
    case InitialProbe => 43
    case OpenReader => 36
    case SeekReader => 30
    case ReadBlock(_) => 21
    case FinalProbe => 9
    case ReleaseReader => 2
  }

  function PointRank(at: Point): nat {
    match at
    case AtCompareToc => 43
    case AtBuffer => 30
    case AtPublishAccepted => 29
    case AtLoop => 28
    case AtStoreRead(_) => 21
    case AtAppend(_) => 20
    case AtFinalizing => 17
    case AtPrepare => 16
    case AtUnwind => 9
    case AtConfirmGate => 2
    case AtConfirm => 1
    case _ => if InCall(at) then BehindCall(at.op) + CallRank(at) else 0
  }

  /** At most so many steps of the worker are left: sixteen for a frame, and fifty for the rest. */
  function Rank(t: Thread, g: Goal): int {
    if t.Waiting? then 16 * SpanFrames(g.plan.toc) + 50
    else 16 * (g.plan.toc.leadoutLba - t.core.nextLba) + PointRank(t.at)
  }

  /** Only the call's own deadline is set, and behind the clock's last reading. */
  predicate Timely(m: Monitor) { m.callDeadline.Some? ==> m.lastNow < m.callDeadline.value }

  predicate SameTime(m: Monitor, m': Monitor) {
    m'.lastNow == m.lastNow && m'.jobDeadline == m.jobDeadline && (Timely(m) ==> Timely(m'))
  }

  /** One step further. */
  predicate Further(s: Sys, s': Sys, g: Goal) {
    Under(s', g) && s'.thread.Running? && Rank(s'.thread, g) < Rank(s.thread, g) && SameTime(s.m, s'.m)
  }

  // ---------------------------------------------------------------- one step of the worker

  lemma EnterFurther(s: Sys, op: Op, g: Goal)
    requires Under(s, g) && s.thread.Running? && s.thread.at == AtEnter(op)
    ensures Further(s, EnterStep(s, op), g)
  {
  }

  lemma AccessFurther(s: Sys, op: Op, g: Goal)
    requires Under(s, g) && s.thread.Running? && s.thread.at == AtAccess(op)
    ensures Further(s, Goto(s, s.m, AtReserve(op)).(access := Worker), g)
  {
  }

  lemma BudgetLeft(m: Monitor)
    requires 0 < m.callBudgetMs && m.lastNow + NS_PER_MS <= m.jobDeadline
    ensures 0 < CallBudget(m) && m.lastNow < m.lastNow + CallBudget(m) * NS_PER_MS
  {
    var left := m.jobDeadline - m.lastNow;
    assert left == left / NS_PER_MS * NS_PER_MS + left % NS_PER_MS;
  }

  lemma ReserveFurther(s: Sys, op: Op, g: Goal)
    requires Under(s, g) && s.thread.Running? && s.thread.at == AtReserve(op)
    requires 0 < g.plan.policy.timeBudgetMs && s.m.lastNow + NS_PER_MS <= s.m.jobDeadline
    ensures Further(s, ReserveStep(s, op), g)
  {
    BudgetLeft(s.m);
  }

  lemma ActionFurther(s: Sys, op: Op, g: Goal)
    requires Under(s, g) && s.thread.Running? && s.thread.at == AtAction(op)
    ensures Further(s, ActionStep(s, op, Accepted, g.plan.toc), g)
  {
  }

  lemma EndFurther(s: Sys, op: Op, ok: bool, g: Goal)
    requires Under(s, g) && s.thread.Running? && s.thread.at == AtEnd(op, ok)
    ensures Further(s, Goto(s, EndCall(s.m), AtLeave(op, ok)).(access := Free), g)
  {
  }

  lemma LeaveFurther(s: Sys, op: Op, ok: bool, g: Goal)
    requires Under(s, g) && s.thread.Running? && s.thread.at == AtLeave(op, ok)
    ensures Further(s, LeaveStep(s, op, ok), g)
  {
  }

  lemma CallFurther(s: Sys, g: Goal)
    requires Under(s, g) && s.thread.Running? && InCall(s.thread.at)
    requires 0 < g.plan.policy.timeBudgetMs
    requires s.thread.at.AtReserve? ==> s.m.lastNow + NS_PER_MS <= s.m.jobDeadline
    ensures Further(s, CallStep(s, Accepted, g.plan.toc), g)
  {
    match s.thread.at
    case AtEnter(op) => EnterFurther(s, op, g);
    case AtAccess(op) => AccessFurther(s, op, g);
    case AtReserve(op) => ReserveFurther(s, op, g);
    case AtAction(op) => ActionFurther(s, op, g);
    case AtEnd(op, ok) => EndFurther(s, op, ok, g);
    case AtLeave(op, ok) => LeaveFurther(s, op, ok, g);
  }

  lemma LoopFurther(s: Sys, g: Goal)
    requires Under(s, g) && s.thread.Running? && s.thread.at.AtLoop? && 0 < BlockFrames(g.plan.policy)
    ensures Further(s, LoopStep(s), g)
  {
  }

  lemma AppendFurther(s: Sys, frames: nat, g: Goal)
    requires Under(s, g) && s.thread.Running? && s.thread.at == AtAppend(frames)
    ensures Further(s, AppendStep(s, frames, Accepted), g)
  {
  }

  lemma PublishFurther(s: Sys, g: Goal)
    requires Under(s, g) && s.thread.Running? && s.thread.at.AtPublishAccepted?
    ensures Further(s, Goto(s, Published(s), AtLoop), g)
  {
  }

  lemma PrepareFurther(s: Sys, g: Goal)
    requires Under(s, g) && s.thread.Running? && (s.thread.at.AtFinalizing? || s.thread.at.AtPrepare?)
    ensures Further(s, if s.thread.at.AtFinalizing? then FinalizingStep(s) else PrepareStep(s, Accepted), g)
  {
  }

  /** The sections between the calls. */
  lemma BetweenFurther(s: Sys, g: Goal)
    requires Under(s, g) && s.thread.Running?
    requires s.thread.at.AtCompareToc? || s.thread.at.AtBuffer? || s.thread.at.AtStoreRead? || s.thread.at.AtUnwind?
             || s.thread.at.AtConfirmGate? || s.thread.at.AtConfirm?
    ensures Further(s, ExecuteStep(s, Accepted, g.bytes), g)
  {
  }

  lemma ExecuteFurther(s: Sys, g: Goal)
    requires Under(s, g) && s.thread.Running? && !InCall(s.thread.at) && !s.thread.at.AtFinish?
    requires 0 < BlockFrames(g.plan.policy)
    ensures Further(s, ExecuteStep(s, Accepted, g.bytes), g)
  {
    match s.thread.at
    case AtLoop => LoopFurther(s, g);
    case AtAppend(frames) => AppendFurther(s, frames, g);
    case AtPublishAccepted => PublishFurther(s, g);
    case AtFinalizing => PrepareFurther(s, g);
    case AtPrepare => PrepareFurther(s, g);
    case _ => BetweenFurther(s, g);
  }

  /** The last section parks the bytes. */
  lemma FinishParks(s: Sys, g: Goal)
    requires Under(s, g) && s.thread.Running? && s.thread.at.AtFinish? && g.bytes != []
    ensures Parked(FinishStep(s), g) && SameTime(s.m, FinishStep(s).m)
  {
  }

  lemma TakeFurther(s: Sys, g: Goal)
    requires Under(s, g) && s.thread.Waiting? && WellFormed(g.plan.toc)
    ensures Further(s, TakeJob(s), g)
  {
    FirstBelowLeadout(g.plan.toc);
  }

  /** A reading that is not bad only moves the clock on. */
  lemma CalmRefresh(m: Monitor, clock: ClockRead)
    requires m.status.busy && Open(m.status) && !BadClock(m, clock)
    ensures RefreshLocked(m, clock) == m.(lastNow := clock.t)
  {
  }

  lemma RefreshUnder(s: Sys, clock: ClockRead, g: Goal)
    requires Under(s, g) && s.thread.Running? && (ReadsClock(s.thread) ==> !BadClock(s.m, clock))
    ensures var s1 := RefreshFirst(s, clock);
            && s1 == s.(m := s1.m) && Under(s1, g) && s1.m.jobDeadline == s.m.jobDeadline
            && (ReadsClock(s.thread) ==> s1.m == s.m.(lastNow := clock.t)) && (!ReadsClock(s.thread) ==> s1.m == s.m)
  {
    if ReadsClock(s.thread) { CalmRefresh(s.m, clock); }
  }

  /** A step of the worker, while nothing disturbs it, leads on or parks the bytes. */
  lemma WorkLeads(s: Sys, e: Event, g: Goal)
    requires Under(s, g) && g.Sound() && Enabled(s, e) && e.Work? && Undisturbed(s, e, g)
    ensures Next(s, e) == RawNext(s, e)
    ensures Parked(Next(s, e), g)
            || (Under(Next(s, e), g) && Next(s, e).thread.Running? && Rank(Next(s, e).thread, g) < Rank(s.thread, g))
  {
    if s.thread.Waiting? {
      TakeFurther(s, g);
    } else {
      RefreshUnder(s, e.clock, g);
      var s1 := RefreshFirst(s, e.clock);
      if InCall(s.thread.at) {
        CallFurther(s1, g);
      } else if s.thread.at.AtFinish? {
        FinishParks(s1, g);
      } else {
        ExecuteFurther(s1, g);
      }
    }
  }

  // ---------------------------------------------------------------- the control side

  lemma ControlLeads(s: Sys, e: Event, g: Goal)
    requires Under(s, g) && Enabled(s, e) && !e.Work? && Undisturbed(s, e, g)
    ensures Under(Next(s, e), g) && Next(s, e).thread == s.thread
  {
    match e
    case PollCall(_, _, clock) => CalmRefresh(s.m, clock);
    case ConfirmCall(_, _, clock) => CalmRefresh(s.m, clock);
    case Guard(clock) => CalmRefresh(s.m, clock);
    case _ =>
  }

  lemma ParkedStays(s: Sys, e: Event, g: Goal)
    requires Parked(s, g) && g.bytes != [] && Enabled(s, e) && Undisturbed(s, e, g)
    ensures !e.Work?
    ensures if e.ConfirmCall? then Out(Next(s, e), g) else Parked(Next(s, e), g)
  {
    match e
    case PollCall(_, _, clock) => CalmRefresh(s.m, clock);
    case ConfirmCall(_, _, clock) => CalmRefresh(s.m, clock);
    case _ =>
  }

  lemma OutStays(s: Sys, e: Event, g: Goal)
    requires Out(s, g) && Enabled(s, e) && Undisturbed(s, e, g)
    ensures !e.Work? && Out(Next(s, e), g)
  {
  }

  // ---------------------------------------------------------------- over a whole run

  /** The worker's steps in a run. */
  function Works(es: seq<Event>): nat {
    if es == [] then 0 else (if es[0].Work? then 1 else 0) + Works(es[1..])
  }

  lemma {:induction false} OutRun(s: Sys, g: Goal, es: seq<Event>)
    requires Out(s, g) && UndisturbedRun(s, g, es)
    ensures RunFrom(s, es).Some? && Out(RunFrom(s, es).value, g) && Works(es) == 0
    decreases es
  {
    if es != [] {
      OutStays(s, es[0], g);
      OutRun(Next(s, es[0]), g, es[1..]);
    }
  }

  lemma {:induction false} ParkedRun(s: Sys, g: Goal, es: seq<Event>)
    requires Parked(s, g) && g.bytes != [] && UndisturbedRun(s, g, es)
    ensures RunFrom(s, es).Some? && Works(es) == 0
    ensures Parked(RunFrom(s, es).value, g) || Out(RunFrom(s, es).value, g)
    decreases es
  {
    if es != [] {
      ParkedStays(s, es[0], g);
      if es[0].ConfirmCall? { OutRun(Next(s, es[0]), g, es[1..]); } else { ParkedRun(Next(s, es[0]), g, es[1..]); }
    }
  }

  lemma {:induction false} RankNotNegative(s: Sys, g: Goal)
    requires Under(s, g) && g.Sound()
    ensures 0 <= Rank(s.thread, g)
  {
    FirstBelowLeadout(g.plan.toc);
  }

  lemma {:induction false} UnderRun(s: Sys, g: Goal, es: seq<Event>)
    requires Under(s, g) && g.Sound() && UndisturbedRun(s, g, es)
    ensures RunFrom(s, es).Some?
    ensures var end := RunFrom(s, es).value;
            || (Under(end, g) && Works(es) + Rank(end.thread, g) <= Rank(s.thread, g))
            || ((Parked(end, g) || Out(end, g)) && Works(es) <= Rank(s.thread, g) + 1)
    decreases es
  {
    RankNotNegative(s, g);
    if es != [] {
      var next := Next(s, es[0]);
      if es[0].Work? { WorkLeads(s, es[0], g); } else { ControlLeads(s, es[0], g); }
      if Under(next, g) { UnderRun(next, g, es[1..]); } else { ParkedRun(next, g, es[1..]); }
    }
  }

  // ---------------------------------------------------------------- such runs exist

  /** There is time for another call, and none is overdue. */
  predicate InGoodTime(m: Monitor) { Timely(m) && m.lastNow + NS_PER_MS <= m.jobDeadline }

  /** The worker's next step, with a clock that stands still. */
  function Serving(s: Sys, g: Goal): Event { Work(Now(s.m.lastNow), Accepted, g.plan.toc, g.bytes) }

  lemma ServingUndisturbed(s: Sys, g: Goal)
    requires Inv(s) && InGoodTime(s.m) && Enabled(s, Serving(s, g))
    ensures Undisturbed(s, Serving(s, g), g)
  {
    WorkKeepsInv(s, Serving(s, g));
  }

  lemma ServingLeads(s: Sys, g: Goal)
    requires Inv(s) && Under(s, g) && g.Sound() && InGoodTime(s.m) && Enabled(s, Serving(s, g))
    ensures var next := Next(s, Serving(s, g));
            InGoodTime(next.m)
            && (Parked(next, g) || (Under(next, g) && Rank(next.thread, g) < Rank(s.thread, g)))
  {
    ServingUndisturbed(s, g);
    var e := Serving(s, g);
    if s.thread.Waiting? {
      TakeFurther(s, g);
    } else {
      StandingStill(s);
      if InCall(s.thread.at) {
        CallFurther(s, g);
      } else if s.thread.at.AtFinish? {
        FinishParks(s, g);
      } else {
        ExecuteFurther(s, g);
      }
    }
  }

  lemma StandingStill(s: Sys)
    requires s.thread.Running? && InGoodTime(s.m)
    ensures RefreshFirst(s, Now(s.m.lastNow)) == s
  {
  }

  /** Nothing but another user of the drive can keep the worker waiting. */
  lemma NeverStuck(s: Sys, g: Goal)
    requires Inv(s) && Under(s, g)
    ensures Enabled(s, Serving(s, g)) || (s.access == Other && Enabled(s, OtherUnlocks))
  {
  }

  /** From wherever an undisturbed job stands, it can be brought to its end. */
  lemma {:induction false} Completes(s: Sys, g: Goal) returns (es: seq<Event>)
    requires Inv(s) && Under(s, g) && g.Sound() && InGoodTime(s.m)
    ensures UndisturbedRun(s, g, es) && RunFrom(s, es).Some?
    ensures Parked(RunFrom(s, es).value, g) && InGoodTime(RunFrom(s, es).value.m)
    decreases Rank(s.thread, g) + 1, s.access == Other
  {
    RankNotNegative(s, g);
    NeverStuck(s, g);
    var e := if Enabled(s, Serving(s, g)) then Serving(s, g) else OtherUnlocks;
    var next := Next(s, e);
    NextKeepsInv(s, e);
    if e.Work? {
      ServingUndisturbed(s, g);
      ServingLeads(s, g);
    } else {
      ControlLeads(s, e, g);
    }
    var rest: seq<Event> := [];
    if Under(next, g) {
      RankNotNegative(next, g);
      rest := Completes(next, g);
    }
    es := [e] + rest;
    assert es[1..] == rest;
  }

  // ---------------------------------------------------------------- from an admission on

  /** This step admits a job for a sound plan. */
  predicate Admits(s: Sys, i: nat, g: Goal) {
    && i < |s.pending| && MayAdmit(s.m, s.pending[i].plan, s.pending[i].before)
    && g.Sound() && g.plan == s.pending[i].plan && g.ticket == s.m.epoch + 1
  }

  lemma AdmittedUnder(s: Sys, i: nat, startTime: int, g: Goal)
    requires Inv(s) && Admits(s, i, g)
    ensures Under(Next(s, Admitted(i, startTime)), g) && InGoodTime(Next(s, Admitted(i, startTime)).m)
    ensures Next(s, Admitted(i, startTime)).thread.Waiting?
  {
  }

  /**
    A job admitted and left undisturbed ends delivered: once the worker waits again, the core's bytes are parked, and a
    confirmation publishes them, if none has yet. The worker takes at most sixteen steps for each frame and fifty-one
    besides, so it never goes on for ever.
  */
  lemma UndisturbedDelivers(before: seq<Event>, i: nat, startTime: int, g: Goal, es: seq<Event>, clock: ClockRead)
    requires Run(before).Some? && Admits(Run(before).value, i, g)
    requires UndisturbedRun(Next(Run(before).value, Admitted(i, startTime)), g, es)
    ensures RunFrom(Next(Run(before).value, Admitted(i, startTime)), es).Some?
    ensures Works(es) <= 16 * SpanFrames(g.plan.toc) + 51
    ensures var end := RunFrom(Next(Run(before).value, Admitted(i, startTime)), es).value;
            var confirmed := Next(end, ConfirmCall(g.plan.identity, true, clock));
            end.thread.Waiting? && end.m.queued.None? ==>
              || ResultOf(end.m, g.plan.identity) == g.bytes
              || (end.m.pendingResult == g.bytes
                  && (!BadClock(end.m, clock) ==> ResultOf(confirmed.m, g.plan.identity) == g.bytes))
  {
    var s := Run(before).value;
    RunFromKeepsInv(INITIAL, before);
    AdmittedUnder(s, i, startTime, g);
    var admitted := Next(s, Admitted(i, startTime));
    UnderRun(admitted, g, es);
    var end := RunFrom(admitted, es).value;
    if Under(end, g) {
      RankNotNegative(end, g);
    } else if Parked(end, g) && !BadClock(end.m, clock) {
      ParkedStays(end, ConfirmCall(g.plan.identity, true, clock), g);
    }
  }

  /** And every such job has such a run, whatever its block size. */
  lemma UndisturbedRunExists(before: seq<Event>, i: nat, startTime: int, g: Goal) returns (es: seq<Event>)
    requires Run(before).Some? && Admits(Run(before).value, i, g)
    ensures var admitted := Next(Run(before).value, Admitted(i, startTime));
            && UndisturbedRun(admitted, g, es) && RunFrom(admitted, es).Some?
            && var end := RunFrom(admitted, es).value;
               end.thread.Waiting? && end.m.queued.None? && end.m.pendingResult == g.bytes
  {
    var s := Run(before).value;
    RunFromKeepsInv(INITIAL, before);
    NextKeepsInv(s, Admitted(i, startTime));
    AdmittedUnder(s, i, startTime, g);
    es := Completes(Next(s, Admitted(i, startTime)), g);
  }

  lemma {:induction false} RunFromConcat(s: Sys, es: seq<Event>, more: seq<Event>)
    requires RunFrom(s, es).Some?
    ensures RunFrom(s, es + more) == RunFrom(RunFrom(s, es).value, more)
    decreases es
  {
    if es == [] {
      assert es + more == more;
    } else {
      RunFromConcat(Next(s, es[0]), es[1..], more);
      assert (es + more)[1..] == es[1..] + more;
    }
  }

  lemma RunOfOne(s: Sys, e: Event)
    requires Enabled(s, e)
    ensures RunFrom(s, [e]) == Some(Next(s, e))
  {
    assert [e][1..] == [];
    assert RunFrom(Next(s, e), []) == Some(Next(s, e));
  }

  lemma RunOfTwo(s: Sys, a: Event, b: Event, more: seq<Event>)
    requires Enabled(s, a) && Enabled(Next(s, a), b)
    ensures RunFrom(s, [a, b] + more) == RunFrom(Next(Next(s, a), b), more)
  {
    assert ([a, b] + more)[1..] == [b] + more;
    assert ([b] + more)[1..] == more;
  }

  /** A fresh worker takes a first job. */
  lemma FirstAdmission(plan: Plan, startTime: int, g: Goal)
    requires g.Sound() && g.plan == plan && g.ticket == 1 && 0 < plan.identity.jobId
    ensures var s := Next(INITIAL, Request(plan, true));
            Inv(s) && Admits(s, 0, g) && Enabled(s, Admitted(0, startTime))
  {
    NextKeepsInv(INITIAL, Request(plan, true));
  }

  /** So for every sound plan some run of a fresh worker delivers. */
  lemma DeliveringRunExists(plan: Plan, startTime: int, bytes: seq<Byte>) returns (es: seq<Event>)
    requires Goal(plan, 1, bytes).Sound() && 0 < plan.identity.jobId
    ensures Run(es).Some? && ResultOf(Run(es).value.m, plan.identity) == bytes
  {
    var g := Goal(plan, 1, bytes);
    var asked, admitted := Request(plan, true), Admitted(0, startTime);
    FirstAdmission(plan, startTime, g);
    var s := Next(INITIAL, asked);
    var middle := FromAdmission(s, 0, startTime, g);
    es := [asked, admitted] + middle;
    RunOfTwo(INITIAL, asked, admitted, middle);
  }

  lemma FromAdmission(s: Sys, i: nat, startTime: int, g: Goal) returns (es: seq<Event>)
    requires Inv(s) && Admits(s, i, g)
    ensures RunFrom(Next(s, Admitted(i, startTime)), es).Some?
    ensures ResultOf(RunFrom(Next(s, Admitted(i, startTime)), es).value.m, g.plan.identity) == g.bytes
  {
    var s0 := Next(s, Admitted(i, startTime));
    NextKeepsInv(s, Admitted(i, startTime));
    AdmittedUnder(s, i, startTime, g);
    var middle := Completes(s0, g);
    var end := RunFrom(s0, middle).value;
    var confirm := ConfirmCall(g.plan.identity, true, Now(end.m.lastNow));
    ParkedConfirms(end, g);
    RunOfOne(end, confirm);
    RunFromConcat(s0, middle, [confirm]);
    es := middle + [confirm];
  }

  lemma ParkedConfirms(s: Sys, g: Goal)
    requires Parked(s, g) && g.bytes != [] && InGoodTime(s.m)
    ensures var confirm := ConfirmCall(g.plan.identity, true, Now(s.m.lastNow));
            Out(Next(s, confirm), g)
  {
    CalmRefresh(s.m, Now(s.m.lastNow));
  }
}
