/**
  Every interleaving of the capture worker: control-side calls, other users of
  the drive, and the worker thread's `execute`, one mutex critical section or
  one device-action boundary per step. The receipt is a history variable: it
  records what the job really did, independently of the monitor's own fields.
*/
module CaptureProtocol {
  import opened Basics
  import opened DiscTocs
  import opened CompletePcm
  import opened CaptureMonitor

  /** Device actions `execute` passes to `call`. */
  datatype Op = InitialProbe | OpenReader | SeekReader | ReadBlock(frames: nat) | FinalProbe | ReleaseReader

  /** Where the worker thread stands; each value names the section it runs next. */
  datatype Point =
    | AtEnter(op: Op) | AtAccess(op: Op) | AtReserve(op: Op) | AtAction(op: Op) | AtEnd(op: Op, ok: bool)
    | AtLeave(op: Op, ok: bool)
    | AtCompareToc | AtBuffer | AtLoop | AtStoreRead(frames: nat) | AtAppend(frames: nat)
    | AtPublishRejected | AtPublishAccepted | AtFinalizing | AtPrepare | AtUnwind | AtConfirmGate | AtConfirm
    | AtPublishUnconfirmed | AtFinish

  /** The thread-confined CompletePcmInput, as far as `execute` sees it. */
  datatype Core = Core(nextLba: int, state: InputState)

  datatype Thread =
    | Waiting
    | Running(job: Job, at: Point, reader: bool, core: Core, probed: DiscToc, prepared: bool, candidate: seq<Byte>)

  datatype Owner = Free | Worker | Other

  datatype Admission = Admission(plan: Plan, before: nat)

  datatype Receipt = Receipt(plan: Plan, ticket: nat, revoked: bool, initialTocMatched: bool, appendedTo: int,
                             finalTocMatched: bool, readerClosed: bool, bytes: seq<Byte>)

  datatype Sys = Sys(m: Monitor, thread: Thread, access: Owner, pending: seq<Admission>, receipt: Receipt)

  const NO_TOC := DiscToc([], 0)
  const NO_PLAN := Plan(NO_TOC, Identity("", 0, 0, 0, 0, None, Profile("", "", "", 0, 0), 0),
                        ReadPolicy(Single, 0, 0, 0, 0), 0)
  const NO_RECEIPT := Receipt(NO_PLAN, 0, false, false, 0, false, false, [])
  const INITIAL := Sys(INITIAL_MONITOR, Waiting, Free, [], NO_RECEIPT)

  /** What the core, the device or the allocator answers a worker step. */
  datatype Answer = Accepted | Rejected(state: InputState) | Threw

  datatype Event =
    | Request(plan: Plan, ready: bool)
    | Admitted(index: nat, startTime: int)
    | Withdrawn(index: nat)
    | CancelCall | InvalidateCall | CloseCall
    | PollCall(current: Identity, ready: bool, clock: ClockRead)
    | ConfirmCall(current: Identity, ready: bool, clock: ClockRead)
    | OtherLocks | OtherUnlocks
    | Guard(clock: ClockRead)
    | Work(clock: ClockRead, answer: Answer, toc: DiscToc, bytes: seq<Byte>)

  function PhaseOf(op: Op): Phase {
    match op
    case InitialProbe => ProbingInitialToc
    case OpenReader => OpeningReader
    case SeekReader => SeekingStart
    case ReadBlock(_) => ReadingBlock
    case FinalProbe => ProbingFinalToc
    case ReleaseReader => ReleasingReader
  }

  predicate Enabled(s: Sys, e: Event) {
    match e
    case Admitted(i, _) => i < |s.pending|
    case Withdrawn(i) => i < |s.pending|
    case OtherLocks => s.access == Free
    case OtherUnlocks => s.access == Other
    case Guard(_) => s.thread.Running?
    case Work(_, _, _, _) =>
      if s.thread.Waiting? then s.m.queued.Some?
      else s.thread.at.AtAccess? ==> s.access == Free
    case _ => true
  }

  /** The worker step at this point reads the shared clock. */
  predicate ReadsClock(t: Thread)
    requires t.Running?
  {
    match t.at
    case AtEnter(op) => op != ReleaseReader
    case AtReserve(_) => true
    case AtEnd(_, _) => true
    case AtLeave(op, ok) => ok && op != ReleaseReader
    case AtLoop => t.core.nextLba < t.job.plan.toc.leadoutLba
    case AtStoreRead(_) => true
    case AtPublishRejected => true
    case AtPublishAccepted => true
    case AtFinalizing => true
    case AtConfirmGate => t.prepared
    case AtPublishUnconfirmed => true
    case AtFinish => true
    case _ => false
  }

  /** This reading fails, runs backwards, or reaches the job's deadline or that of the call in flight. */
  predicate BadClock(m: Monitor, clock: ClockRead) {
    || clock.ClockThrew? || clock.t < m.lastNow || m.jobDeadline <= clock.t
    || (m.status.callInflight && m.callDeadline.Some? && m.callDeadline.value <= clock.t)
  }

  /** The events after which an unfinished job must never deliver bytes, stated without the stopping code. */
  predicate Revokes(s: Sys, e: Event) {
    match e
    case CancelCall => true
    case InvalidateCall => true
    case CloseCall => true
    case PollCall(current, ready, clock) => s.m.status.identity != Some(current) || !ready || BadClock(s.m, clock)
    case ConfirmCall(current, ready, clock) => s.m.status.identity != Some(current) || !ready || BadClock(s.m, clock)
    case Guard(clock) => BadClock(s.m, clock)
    case Work(clock, _, _, _) => s.thread.Running? && ReadsClock(s.thread) && BadClock(s.m, clock)
    case _ => false
  }

  predicate InCall(at: Point) {
    at.AtEnter? || at.AtAccess? || at.AtReserve? || at.AtAction? || at.AtEnd? || at.AtLeave?
  }

  function Goto(s: Sys, m: Monitor, at: Point): Sys
    requires s.thread.Running?
  {
    s.(m := m, thread := s.thread.(at := at))
  }

  /** `call` from its first section to its return value (src/complete_pcm_worker.cpp:204-244), refreshed. */
  function CallStep(s: Sys, answer: Answer, toc: DiscToc): Sys
    requires s.thread.Running?
    requires InCall(s.thread.at)
  {
    var op := s.thread.at.op;
    match s.thread.at
    case AtEnter(_) => EnterStep(s, op)
    case AtAccess(_) => Goto(s, s.m, AtReserve(op)).(access := Worker)
    case AtReserve(_) => ReserveStep(s, op)
    case AtAction(_) => ActionStep(s, op, answer, toc)
    case AtEnd(_, ok) => Goto(s, EndCall(s.m), AtLeave(op, ok)).(access := Free)
    case AtLeave(_, ok) => LeaveStep(s, op, ok)
  }

  function EnterStep(s: Sys, op: Op): Sys
    requires s.thread.Running?
  {
    if op == ReleaseReader || Live(s.m, s.thread.job.ticket)
    then Goto(s, EnterCall(s.m, PhaseOf(op)), AtAccess(op)) else Goto(s, s.m, AtUnwind)
  }

  function ReserveStep(s: Sys, op: Op): Sys
    requires s.thread.Running?
  {
    var (m1, reserved) := ReserveCall(s.m, s.thread.job.ticket, op == ReleaseReader);
    if reserved then Goto(s, m1, AtAction(op)) else Goto(s, m1, AtLeave(op, false)).(access := Free)
  }

  function LeaveStep(s: Sys, op: Op, ok: bool): Sys
    requires s.thread.Running?
  {
    if op == ReleaseReader then Goto(s, s.m, AtConfirmGate)
    else if ok && Live(s.m, s.thread.job.ticket) then
      s.(thread := s.thread.(at := AfterCall(op), prepared := s.thread.prepared || op == FinalProbe))
    else Goto(s, s.m, AtUnwind)
  }

  /** Where `execute` continues after a call returned true. */
  function AfterCall(op: Op): Point {
    match op
    case InitialProbe => AtCompareToc
    case OpenReader => AtEnter(SeekReader)
    case SeekReader => AtBuffer
    case ReadBlock(frames) => AtStoreRead(frames)
    case _ => AtUnwind
  }

  /**
    The device action itself: it fails, or it has its effect. An opening that is rejected, rather than throws at once,
    fails behind the factory and leaves a reader. Destroying a reader cannot fail.
  */
  function ActionStep(s: Sys, op: Op, answer: Answer, toc: DiscToc): Sys
    requires s.thread.Running?
  {
    var t := s.thread;
    if op == ReleaseReader then s.(thread := t.(at := AtEnd(op, true), reader := false))
    else if !answer.Accepted? then
      var reader := t.reader || (op == OpenReader && answer.Rejected?);
      s.(m := StopLocked(s.m, Incomplete, OperationFailed), thread := t.(at := AtEnd(op, false), reader := reader))
    else if op == OpenReader then s.(thread := t.(at := AtEnd(op, true), reader := true))
    else if op == InitialProbe || op == FinalProbe then s.(thread := t.(at := AtEnd(op, true), probed := toc))
    else s.(thread := t.(at := AtEnd(op, true)))
  }

  /** The sections of `execute` outside `call` (src/complete_pcm_worker.cpp:268-352), refreshed. */
  function ExecuteStep(s: Sys, answer: Answer, bytes: seq<Byte>): Sys
    requires s.thread.Running?
    requires !InCall(s.thread.at)
  {
    var t := s.thread;
    var live := Live(s.m, t.job.ticket);
    match t.at
    case AtCompareToc => CompareStep(s)
    case AtBuffer =>
      if answer.Accepted? then Goto(s, s.m, AtLoop) else Goto(s, StopLocked(s.m, Incomplete, MemoryLimit), AtUnwind)
    case AtLoop => LoopStep(s)
    case AtStoreRead(frames) => Goto(s, s.m, if live then AtAppend(frames) else AtUnwind)
    case AtAppend(frames) => AppendStep(s, frames, answer)
    case AtPublishRejected => Goto(s, Published(s), AtUnwind)
    case AtPublishAccepted => Goto(s, Published(s), AtLoop)
    case AtFinalizing => FinalizingStep(s)
    case AtPrepare => PrepareStep(s, answer)
    case AtUnwind => Goto(s, s.m, if t.reader then AtEnter(ReleaseReader) else AtConfirmGate)
    case AtConfirmGate => Goto(s, s.m, if t.prepared && live then AtConfirm else AtFinish)
    case AtConfirm => ConfirmStep(s, answer, bytes)
    case AtPublishUnconfirmed => Goto(s, Published(s), AtFinish)
    case AtFinish => FinishStep(s)
  }

  function CompareStep(s: Sys): Sys
    requires s.thread.Running?
  {
    if s.thread.probed == s.thread.job.plan.toc
    then Goto(s, s.m, AtEnter(OpenReader)).(receipt := s.receipt.(initialTocMatched := true))
    else Goto(s, StopLocked(s.m, Invalid, TocChanged), AtUnwind)
  }

  /** Head of the read loop. */
  function LoopStep(s: Sys): Sys
    requires s.thread.Running?
  {
    var plan := s.thread.job.plan;
    var next := s.thread.core.nextLba;
    if plan.toc.leadoutLba <= next then Goto(s, s.m, AtFinalizing)
    else if Live(s.m, s.thread.job.ticket) then
      Goto(s, s.m, AtEnter(ReadBlock(Min(BlockFrames(plan.policy), plan.toc.leadoutLba - next))))
    else Goto(s, s.m, AtUnwind)
  }

  function FinalizingStep(s: Sys): Sys
    requires s.thread.Running?
  {
    if Live(s.m, s.thread.job.ticket)
    then Goto(s, s.m.(status := s.m.status.(phase := Finalizing)), AtPrepare) else Goto(s, s.m, AtUnwind)
  }

  function FinishStep(s: Sys): Sys
    requires s.thread.Running?
  {
    Sys(FinishJob(s.m, s.thread.job.ticket, s.thread.candidate), Waiting, s.access, s.pending,
        s.receipt.(readerClosed := !s.thread.reader))
  }

  function Published(s: Sys): Monitor
    requires s.thread.Running?
  {
    var t := s.thread;
    PublishCore(s.m, t.job.ticket, t.core.nextLba - FirstLba(t.job.plan.toc), t.core.state)
  }

  /** `append` advances the core only when it accepts. */
  function AppendStep(s: Sys, frames: nat, answer: Answer): Sys
    requires s.thread.Running?
  {
    var t := s.thread;
    match answer
    case Accepted =>
      var next := t.core.nextLba + frames;
      s.(thread := t.(at := AtPublishAccepted, core := t.core.(nextLba := next)),
         receipt := s.receipt.(appendedTo := next))
    case Rejected(state) => s.(thread := t.(at := AtPublishRejected, core := t.core.(state := state)))
    case Threw => Goto(s, StopLocked(s.m, Incomplete, OperationFailed), AtUnwind)
  }

  function PrepareStep(s: Sys, answer: Answer): Sys
    requires s.thread.Running?
  {
    var t := s.thread;
    match answer
    case Accepted => s.(thread := t.(at := AtEnter(FinalProbe), core := t.core.(state := Prepared)))
    case Rejected(state) => s.(thread := t.(at := AtPublishRejected, core := t.core.(state := state)))
    case Threw => Goto(s, StopLocked(s.m, Incomplete, OperationFailed), AtUnwind)
  }

  /** The core confirms only against an unchanged TOC (src/complete_pcm_input.cpp:208-216). */
  function ConfirmStep(s: Sys, answer: Answer, bytes: seq<Byte>): Sys
    requires s.thread.Running?
  {
    var t := s.thread;
    match answer
    case Accepted =>
      if t.probed == t.job.plan.toc then
        s.(thread := t.(at := AtFinish, candidate := bytes),
           receipt := s.receipt.(finalTocMatched := true, bytes := bytes))
      else s.(thread := t.(at := AtPublishUnconfirmed, core := t.core.(state := Invalid)))
    case Rejected(state) => s.(thread := t.(at := AtPublishUnconfirmed, core := t.core.(state := state)))
    case Threw => Goto(s, StopLocked(s.m, Incomplete, OperationFailed), AtFinish)
  }

  function TakeJob(s: Sys): Sys
    requires s.thread.Waiting? && s.m.queued.Some?
  {
    var job := s.m.queued.value;
    s.(m := s.m.(queued := None),
       thread := Running(job, AtEnter(InitialProbe), false,
                         Core(FirstLba(job.plan.toc), Collecting), NO_TOC, false, []))
  }

  /** A section that reads the clock begins with `refresh_locked`. */
  function RefreshFirst(s: Sys, clock: ClockRead): Sys
    requires s.thread.Running?
  {
    if ReadsClock(s.thread) then s.(m := RefreshLocked(s.m, clock)) else s
  }

  function WorkStep(s: Sys, clock: ClockRead, answer: Answer, toc: DiscToc, bytes: seq<Byte>): Sys
    requires s.thread.Waiting? ==> s.m.queued.Some?
  {
    if s.thread.Waiting? then TakeJob(s)
    else
      var s1 := RefreshFirst(s, clock);
      if InCall(s.thread.at) then CallStep(s1, answer, toc) else ExecuteStep(s1, answer, bytes)
  }

  function Without<T>(xs: seq<T>, i: nat): seq<T>
    requires i < |xs|
  {
    xs[..i] + xs[i + 1..]
  }

  /** The step without the receipt's revocation flag. */
  function RawNext(s: Sys, e: Event): Sys
    requires Enabled(s, e)
  {
    match e
    case Request(plan, ready) =>
      if MayStart(s.m, plan, ready) then s.(pending := s.pending + [Admission(plan, s.m.epoch)]) else s
    case Admitted(i, startTime) =>
      var a := s.pending[i];
      var s1 := s.(pending := Without(s.pending, i));
      if MayAdmit(s.m, a.plan, a.before) && WellFormed(a.plan.toc) && 0 < a.plan.duration then
        s1.(m := Admit(s.m, a.plan, startTime),
            receipt := Receipt(a.plan, s.m.epoch + 1, false, false, FirstLba(a.plan.toc), false, false, []))
      else s1
    case Withdrawn(i) => s.(pending := Without(s.pending, i))
    case CancelCall => s.(m := Cancel(s.m))
    case InvalidateCall => s.(m := Invalidate(s.m))
    case CloseCall => s.(m := Close(s.m))
    case PollCall(current, ready, clock) => s.(m := UpdateLocked(s.m, current, ready, clock))
    case ConfirmCall(current, ready, clock) => s.(m := Confirm(s.m, current, ready, clock))
    case OtherLocks => s.(access := Other)
    case OtherUnlocks => s.(access := Free)
    case Guard(clock) => s.(m := RefreshLocked(s.m, clock))
    case Work(clock, answer, toc, bytes) => WorkStep(s, clock, answer, toc, bytes)
  }

  function Next(s: Sys, e: Event): Sys
    requires Enabled(s, e)
  {
    var s1 := RawNext(s, e);
    if Open(s.m.status) && Revokes(s, e) then s1.(receipt := s1.receipt.(revoked := true)) else s1
  }
}
