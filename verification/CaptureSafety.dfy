/**
  What holds in every reachable state of the capture protocol, for every
  interleaving and every answer of the clock, the device and the core.
*/
module CaptureSafety {
  import opened Basics
  import opened DiscTocs
  import opened CompletePcm
  import opened CaptureMonitor
  import opened CaptureProtocol

  /** Everything a delivered result stands for. */
  predicate GoodReceipt(r: Receipt) {
    && !r.revoked && r.initialTocMatched && r.appendedTo == r.plan.toc.leadoutLba
    && r.finalTocMatched && r.readerClosed && r.bytes != []
  }

  /** The job ended without delivering. */
  predicate Stopped(st: Status) { st.inputState == Some(Incomplete) || st.inputState == Some(Invalid) }

  /** The status fields agree with each other. */
  ghost predicate StatusOk(m: Monitor) {
    var st := m.status;
    && (st.busy <==> st.phase != Idle && st.phase != Finished)
    && (st.identity.Some? <==> st.inputState.Some?)
    && (st.identity.None? <==> st.phase == Idle)
    && (st.inputState == Some(Prepared) <==> st.phase == AwaitingConfirm)
    && (st.inputState == Some(Complete) ==> st.phase == Finished)
    && (st.phase == Finished ==> !Open(st))
    && (m.result != [] <==> st.inputState == Some(Complete))
    && (m.pendingResult != [] <==> st.inputState == Some(Prepared))
    && (st.identity.Some? ==> st.identity.value.jobId == m.lastJobId)
    && (m.callDeadline.Some? ==> m.callDeadline.value <= m.jobDeadline)
    && m.activeTicket <= m.epoch
    && (m.closing ==> !Open(st))
  }

  /** The receipt belongs to the monitor's job, and a revoked job is stopped. */
  ghost predicate ReceiptOk(s: Sys) {
    && (s.m.status.identity.Some? ==>
          var r := s.receipt;
          && SpanOk(r.plan.toc)
          && s.m.status.identity == Some(r.plan.identity)
          && s.m.activeTicket == r.ticket
          && (r.revoked ==> Stopped(s.m.status))
          && (s.m.status.inputState == Some(Prepared) ==> s.m.pendingResult == r.bytes)
          && (s.m.status.inputState == Some(Complete) ==> s.m.result == r.bytes)
          && (s.m.status.inputState == Some(Prepared) || s.m.status.inputState == Some(Complete) ==>
                GoodReceipt(r) && s.m.status.acceptedFrames == SpanFrames(r.plan.toc)))
  }

  /** What the worker's arithmetic needs of a validated TOC. */
  ghost predicate SpanOk(toc: DiscToc) {
    FirstLba(toc) < toc.leadoutLba && SpanFrames(toc) == toc.leadoutLba - FirstLba(toc)
  }

  /** An admission still in preflight saw an epoch of the past. */
  ghost predicate PendingOk(s: Sys) { forall a <- s.pending :: a.before <= s.m.epoch }

  /** The worker is between jobs. */
  ghost predicate WaitingOk(s: Sys)
    requires s.thread.Waiting?
  {
    var st := s.m.status;
    && s.access != Worker && !st.callInflight && !st.waitingForAccess && s.m.callDeadline.None?
    && (s.m.queued.None? ==> st.readerReleased && (st.busy ==> st.phase == AwaitingConfirm))
    && (s.m.queued.None? && st.identity.Some? ==> s.receipt.readerClosed)
    && (s.m.queued.Some? ==>
          && st.phase == Queued && !st.readerReleased && st.identity.Some?
          && s.m.queued.value == Job(s.receipt.plan, s.receipt.ticket)
          && s.receipt.appendedTo == FirstLba(s.receipt.plan.toc)
          && st.acceptedFrames == 0)
  }

  /** The initial TOC has been compared. */
  predicate PastProbe(at: Point) {
    match at
    case AtCompareToc => false
    case AtUnwind => false
    case AtConfirmGate => false
    case AtConfirm => false
    case AtPublishUnconfirmed => false
    case AtFinish => false
    case _ => InCall(at) ==> at.op != InitialProbe && at.op != ReleaseReader
  }

  /** The core is prepared and the final probe is under way. */
  predicate InFinalProbe(at: Point) { InCall(at) && at.op == FinalProbe }

  /** The final section of `execute`, after the reader is gone. */
  predicate AfterRelease(at: Point) { at.AtConfirmGate? || at.AtConfirm? || at.AtPublishUnconfirmed? || at.AtFinish? }

  predicate Unwinding(at: Point) { at.AtUnwind? || AfterRelease(at) || (InCall(at) && at.op == ReleaseReader) }

  ghost predicate RunningOk(s: Sys)
    requires s.thread.Running?
  {
    var t := s.thread;
    var st := s.m.status;
    && s.m.queued.None? && st.identity.Some?
    && t.job == Job(s.receipt.plan, s.receipt.ticket)
    && st.busy && st.phase != AwaitingConfirm && !st.readerReleased
    && (st.callInflight <==> t.at.AtAction? || t.at.AtEnd?)
    && (st.waitingForAccess <==> t.at.AtAccess? || t.at.AtReserve?)
    && (s.m.callDeadline.Some? ==> st.callInflight)
    && (s.access == Worker <==> t.at.AtReserve? || t.at.AtAction? || t.at.AtEnd?)
  }

  /** How far the job's own work has come. */
  ghost predicate ProgressOk(s: Sys)
    requires s.thread.Running?
  {
    var t := s.thread;
    var r := s.receipt;
    var toc := r.plan.toc;
    && r.appendedTo == t.core.nextLba && FirstLba(toc) <= t.core.nextLba <= toc.leadoutLba
    && (PastProbe(t.at) ==> r.initialTocMatched)
    && (InCall(t.at) && t.at.op.ReadBlock? ==> t.core.nextLba + t.at.op.frames <= toc.leadoutLba)
    && (t.at.AtStoreRead? ==> t.core.nextLba + t.at.frames <= toc.leadoutLba)
    && (t.at.AtAppend? ==> t.core.nextLba + t.at.frames <= toc.leadoutLba)
    && (t.at.AtFinalizing? || t.at.AtPrepare? || InFinalProbe(t.at) ==> t.core.nextLba == toc.leadoutLba)
    && (t.prepared ==> Unwinding(t.at) && r.initialTocMatched && t.core.nextLba == toc.leadoutLba)
    && (t.at.AtConfirm? || t.at.AtPublishUnconfirmed? ==> t.prepared)
    && (AfterRelease(t.at) || t.at == AtEnd(ReleaseReader, true) || t.at == AtLeave(ReleaseReader, true) ==> !t.reader)
    && (t.at.AtEnd? || t.at.AtLeave? ==> t.at.op == ReleaseReader ==> t.at.ok)
    && (t.candidate != [] ==> t.at.AtFinish? && t.prepared && r.finalTocMatched && r.bytes == t.candidate)
    && (Open(s.m.status) && !t.at.AtPublishAccepted? ==>
          s.m.status.acceptedFrames == t.core.nextLba - FirstLba(toc))
  }

  ghost predicate Inv(s: Sys) { JobOk(s) && PendingOk(s) }

  ghost predicate JobOk(s: Sys) {
    && StatusOk(s.m) && ReceiptOk(s)
    && (s.thread.Waiting? ==> WaitingOk(s))
    && (s.thread.Running? ==> RunningOk(s) && ProgressOk(s))
  }


  /**
    One step takes a job's input state from collecting to prepared, from prepared to complete, or down to incomplete and
    invalid.
  */
  predicate Advances(a: Status, b: Status) {
    || a.inputState == b.inputState
    || (a.inputState == Some(Collecting) && b.inputState.Some? && b.inputState != Some(Complete))
    || (a.inputState == Some(Prepared) && b.inputState.Some? && b.inputState != Some(Collecting))
    || (a.inputState == Some(Complete) && b.inputState == Some(Invalid))
    || (a.inputState == Some(Incomplete) && b.inputState == Some(Invalid))
  }

  // ------------------------------------------------------------ stopping and refreshing

  /**
    `post` is `pre` after stops and clock readings only: the job's outcome is untouched, or the job is stopped
    and its bytes are gone. Nothing the worker thread relies on changes.
  */
  ghost predicate Settles(pre: Monitor, post: Monitor) {
    var a := pre.status;
    var b := post.status;
    && post == pre.(epoch := post.epoch, closing := post.closing, lastNow := post.lastNow, status := b,
                    pendingResult := post.pendingResult, result := post.result)
    && pre.epoch <= post.epoch
    && (post.closing == pre.closing || !Open(b))
    && Advances(a, b)
    && b == a.(inputState := b.inputState, failure := b.failure, busy := b.busy, phase := b.phase)
    && (|| (b == a && post.pendingResult == pre.pendingResult && post.result == pre.result)
        || (&& a.identity.Some? && Stopped(b) && post.pendingResult == [] && post.result == []
            && b.busy == (a.busy && a.phase != AwaitingConfirm)
            && b.phase == if a.phase == AwaitingConfirm then Finished else a.phase))
  }

  lemma StopSettles(m: Monitor, state: InputState, reason: Reason)
    requires StatusOk(m) && Terminal(state)
    ensures Settles(m, StopLocked(m, state, reason))
    ensures Open(m.status) ==> Stopped(StopLocked(m, state, reason).status)
  {
    var st := m.status;
    if st.identity.None? || st.inputState == Some(Invalid)
       || (state == Incomplete && (st.inputState == Some(Incomplete) || st.inputState == Some(Complete))) {
      assert StopLocked(m, state, reason) == m;
    } else {
      StopEnds(m, state, reason);
    }
  }

  /** A stop that takes effect. */
  lemma StopEnds(m: Monitor, state: InputState, reason: Reason)
    requires StatusOk(m) && Terminal(state) && m.status.identity.Some? && m.status.inputState != Some(Invalid)
    requires state == Incomplete ==> m.status.inputState != Some(Incomplete) && m.status.inputState != Some(Complete)
    ensures Settles(m, StopLocked(m, state, reason)) && Stopped(StopLocked(m, state, reason).status)
  {
    var post := StopLocked(m, state, reason);
    match m.status.inputState.value
    case Collecting => assert Advances(m.status, post.status);
    case Prepared => assert Advances(m.status, post.status);
    case Complete => assert Advances(m.status, post.status);
    case Incomplete => assert Advances(m.status, post.status);
    case Invalid =>
  }

  lemma SettlesTransitive(a: Monitor, b: Monitor, c: Monitor)
    requires Settles(a, b) && Settles(b, c) && StatusOk(a)
    ensures Settles(a, c)
  {
  }

  lemma SettlesStatusOk(a: Monitor, b: Monitor)
    requires Settles(a, b) && StatusOk(a)
    ensures StatusOk(b)
  {
  }

  lemma RefreshSettles(m: Monitor, clock: ClockRead)
    requires StatusOk(m)
    ensures Settles(m, RefreshLocked(m, clock)) && StatusOk(RefreshLocked(m, clock))
    ensures Open(m.status) && BadClock(m, clock) ==> Stopped(RefreshLocked(m, clock).status)
    ensures Open(RefreshLocked(m, clock).status) ==> RefreshLocked(m, clock).lastNow < m.jobDeadline
  {
    if clock.Now? {
      StopSettles(m.(lastNow := clock.t), Incomplete, JobDeadline);
      StopSettles(m.(lastNow := clock.t), Incomplete, CallDeadline);
    }
    StopSettles(m, Invalid, ClockFailed);
    StopSettles(m, Invalid, ClockRegressed);
    SettlesStatusOk(m, RefreshLocked(m, clock));
  }

  lemma CheckIdentitySettles(m: Monitor, current: Identity)
    requires StatusOk(m)
    ensures Settles(m, CheckIdentity(m, current)) && StatusOk(CheckIdentity(m, current))
    ensures Open(m.status) && m.status.identity != Some(current) ==> Stopped(CheckIdentity(m, current).status)
  {
    StopSettles(m.(epoch := m.epoch + 1), Invalid, ContextChanged);
    SettlesStatusOk(m, CheckIdentity(m, current));
  }

  lemma CheckGateSettles(m: Monitor, ready: bool)
    requires StatusOk(m)
    ensures Settles(m, CheckGate(m, ready)) && StatusOk(CheckGate(m, ready))
    ensures Open(m.status) && !ready ==> Stopped(CheckGate(m, ready).status)
  {
    StopSettles(m.(epoch := m.epoch + 1), Invalid, NotReady);
    SettlesStatusOk(m, CheckGate(m, ready));
  }

  lemma UpdateSettles(m: Monitor, current: Identity, ready: bool, clock: ClockRead)
    requires StatusOk(m)
    ensures Settles(m, UpdateLocked(m, current, ready, clock)) && StatusOk(UpdateLocked(m, current, ready, clock))
    ensures Open(m.status) && (m.status.identity != Some(current) || !ready || BadClock(m, clock)) ==>
              Stopped(UpdateLocked(m, current, ready, clock).status)
  {
    var m1 := CheckIdentity(m, current);
    CheckIdentitySettles(m, current);
    var m2 := CheckGate(m1, ready);
    CheckGateSettles(m1, ready);
    SettlesTransitive(m, m1, m2);
    RefreshSettles(m2, clock);
    SettlesTransitive(m, m2, RefreshLocked(m2, clock));
  }

  lemma SettleKeepsInv(s: Sys, m: Monitor)
    requires Inv(s) && Settles(s.m, m)
    ensures Inv(s.(m := m))
  {
    SettleKeepsJob(s, m);
  }

  lemma SettleKeepsJob(s: Sys, m: Monitor)
    requires JobOk(s) && Settles(s.m, m)
    ensures JobOk(s.(m := m))
  {
    SettlesStatusOk(s.m, m);
    if s.thread.Waiting? { assert WaitingOk(s.(m := m)); }
  }

  // ------------------------------------------------------------ control-side events

  lemma CancelSettles(m: Monitor)
    requires StatusOk(m)
    ensures Settles(m, Cancel(m)) && (Open(m.status) ==> Stopped(Cancel(m).status))
  {
    StopSettles(m.(epoch := m.epoch + 1), Incomplete, Cancelled);
  }

  lemma InvalidateSettles(m: Monitor)
    requires StatusOk(m)
    ensures Settles(m, Invalidate(m)) && (Open(m.status) ==> Stopped(Invalidate(m).status))
  {
    StopSettles(m.(epoch := m.epoch + 1), Invalid, ContextChanged);
  }

  lemma CloseSettles(m: Monitor)
    requires StatusOk(m)
    ensures Settles(m, Close(m)) && (Open(m.status) ==> Stopped(Close(m).status))
  {
    CancelSettles(m);
    assert Close(m) == Cancel(m).(closing := true);
  }

  lemma ConfirmKeepsInv(s: Sys, current: Identity, ready: bool, clock: ClockRead)
    requires Inv(s)
    ensures Inv(s.(m := Confirm(s.m, current, ready, clock)))
    ensures Advances(s.m.status, Confirm(s.m, current, ready, clock).status)
    ensures Open(s.m.status) && (s.m.status.identity != Some(current) || !ready || BadClock(s.m, clock)) ==>
              Stopped(Confirm(s.m, current, ready, clock).status)
  {
    UpdateSettles(s.m, current, ready, clock);
    SettleKeepsInv(s, UpdateLocked(s.m, current, ready, clock));
  }

  lemma {:induction false} FirstBelowLeadout(toc: DiscToc)
    requires WellFormed(toc)
    ensures FirstLba(toc) < toc.leadoutLba && SpanFrames(toc) == toc.leadoutLba - FirstLba(toc)
  {
    EndsBelowLeadout(toc, 0);
  }

  lemma AdmitKeepsInv(s: Sys, i: nat, startTime: int)
    requires Inv(s) && i < |s.pending|
    ensures Inv(RawNext(s, Admitted(i, startTime)))
  {
    var a := s.pending[i];
    assert forall b <- Without(s.pending, i) :: b in s.pending;
    if WellFormed(a.plan.toc) {
      FirstBelowLeadout(a.plan.toc);
    }
  }

  lemma ControlKeepsInv(s: Sys, e: Event)
    requires Inv(s) && Enabled(s, e) && !e.Work?
    ensures Inv(RawNext(s, e))
    ensures Open(s.m.status) && Revokes(s, e) ==> Stopped(RawNext(s, e).m.status)
  {
    match e
    case CancelCall => CancelSettles(s.m); SettleKeepsInv(s, Cancel(s.m));
    case InvalidateCall => InvalidateSettles(s.m); SettleKeepsInv(s, Invalidate(s.m));
    case CloseCall => CloseSettles(s.m); SettleKeepsInv(s, Close(s.m));
    case PollCall(current, ready, clock) =>
      UpdateSettles(s.m, current, ready, clock);
      SettleKeepsInv(s, UpdateLocked(s.m, current, ready, clock));
    case ConfirmCall(current, ready, clock) => ConfirmKeepsInv(s, current, ready, clock);
    case Guard(clock) => RefreshSettles(s.m, clock); SettleKeepsInv(s, RefreshLocked(s.m, clock));
    case Admitted(i, startTime) => AdmitKeepsInv(s, i, startTime);
    case Withdrawn(i) => assert forall a <- Without(s.pending, i) :: a in s.pending;
    case Request(_, _) =>
    case OtherLocks =>
    case OtherUnlocks =>
  }

  /** A control-side step keeps the job and only advances its state, or admits a newer ticket. */
  lemma ControlOneWay(s: Sys, e: Event)
    requires Inv(s) && Enabled(s, e) && !e.Work?
    ensures s.m.epoch <= RawNext(s, e).m.epoch
    ensures if RawNext(s, e).m.activeTicket == s.m.activeTicket
            then Advances(s.m.status, RawNext(s, e).m.status)
            else s.m.epoch < RawNext(s, e).m.activeTicket
  {
    match e
    case CancelCall => CancelSettles(s.m);
    case InvalidateCall => InvalidateSettles(s.m);
    case CloseCall => CloseSettles(s.m);
    case PollCall(current, ready, clock) => UpdateSettles(s.m, current, ready, clock);
    case ConfirmCall(current, ready, clock) =>
      UpdateSettles(s.m, current, ready, clock);
      ConfirmKeepsInv(s, current, ready, clock);
    case Guard(clock) => RefreshSettles(s.m, clock);
    case _ =>
  }

  // ------------------------------------------------------------ worker steps

  /** A worker step leaves epochs, tickets and admissions to the control side. */
  predicate SameTicket(s: Sys, s': Sys) {
    s'.m.epoch == s.m.epoch && s'.m.activeTicket == s.m.activeTicket && s'.m.closing == s.m.closing
    && s'.pending == s.pending
  }

  lemma TakeJobKeepsInv(s: Sys)
    requires JobOk(s) && s.thread.Waiting? && s.m.queued.Some?
    ensures JobOk(TakeJob(s))
  {
  }

  lemma RefreshKeepsInv(s: Sys, clock: ClockRead)
    requires JobOk(s) && s.thread.Running?
    ensures JobOk(RefreshFirst(s, clock)) && SameTicket(s, RefreshFirst(s, clock))
    ensures RefreshFirst(s, clock).thread == s.thread && RefreshFirst(s, clock).access == s.access
    ensures Open(s.m.status) && ReadsClock(s.thread) && BadClock(s.m, clock) ==>
              Stopped(RefreshFirst(s, clock).m.status)
  {
    RefreshSettles(s.m, clock);
    SettleKeepsJob(s, RefreshLocked(s.m, clock));
  }

  lemma EnterKeepsInv(s: Sys, op: Op)
    requires JobOk(s) && s.thread.Running? && s.thread.at == AtEnter(op)
    ensures JobOk(EnterStep(s, op)) && SameTicket(s, EnterStep(s, op))
    ensures Advances(s.m.status, EnterStep(s, op).m.status)
  {
    if op == ReleaseReader || Live(s.m, s.thread.job.ticket) {
      EnterAccess(s, op, PhaseOf(op));
    } else {
      assert EnterStep(s, op) == Goto(s, s.m, AtUnwind);
    }
  }

  lemma EnterAccess(s: Sys, op: Op, phase: Phase)
    requires JobOk(s) && s.thread.Running? && s.thread.at == AtEnter(op)
    requires phase != Idle && phase != AwaitingConfirm && phase != Finished
    ensures JobOk(Goto(s, EnterCall(s.m, phase), AtAccess(op)))
  {
    var s1 := Goto(s, EnterCall(s.m, phase), AtAccess(op));
    assert StatusOk(s1.m);
    assert RunningOk(s1);
    assert ProgressOk(s1);
  }

  lemma AccessKeepsInv(s: Sys, op: Op, answer: Answer, toc: DiscToc)
    requires JobOk(s) && s.thread.Running? && s.thread.at == AtAccess(op) && s.access == Free
    ensures JobOk(Goto(s, s.m, AtReserve(op)).(access := Worker))
    ensures SameTicket(s, Goto(s, s.m, AtReserve(op)).(access := Worker))
  {
  }

  /** A reservation is a stop at most, apart from the call's own flags and deadline. */
  lemma ReserveShape(m: Monitor, ticket: nat, cleanup: bool)
    requires StatusOk(m)
    ensures var (m1, reserved) := ReserveCall(m, ticket, cleanup);
            && StatusOk(m1)
            && (cleanup ==> reserved)
            && m1.status.callInflight == (reserved || m.status.callInflight)
            && (m1.callDeadline.Some? ==> m1.status.callInflight || m1.callDeadline == m.callDeadline)
            && Settles(Flagged(m, m1.callDeadline, m1.status.callInflight), m1)
  {
    var m2 := Flagged(m, None, m.status.callInflight);
    if Live(Flagged(m, m.callDeadline, m.status.callInflight), ticket) && CallBudget(m) <= 0 {
      StopSettles(m2, Incomplete, JobDeadline);
      var m3 := StopLocked(m2, Incomplete, JobDeadline);
      SettlesStatusOk(m2, m3);
      SettlesFlags(m2, m3, true);
    }
  }

  function Flagged(m: Monitor, deadline: Option<int>, inflight: bool): Monitor {
    m.(callDeadline := deadline, status := m.status.(waitingForAccess := false, callInflight := inflight))
  }

  lemma SettlesFlags(m: Monitor, m': Monitor, inflight: bool)
    requires StatusOk(m) && StatusOk(m') && Settles(m, m') && !m.status.waitingForAccess
    ensures Settles(Flagged(m, m.callDeadline, inflight), Flagged(m', m'.callDeadline, inflight))
    ensures StatusOk(Flagged(m', m'.callDeadline, inflight))
  {
  }

  lemma ReserveKeepsReceipt(s: Sys, op: Op)
    requires JobOk(s) && s.thread.Running? && s.thread.at == AtReserve(op)
    ensures StatusOk(ReserveStep(s, op).m) && ReceiptOk(ReserveStep(s, op)) && SameTicket(s, ReserveStep(s, op))
    ensures Advances(s.m.status, ReserveStep(s, op).m.status)
  {
    ReserveShape(s.m, s.thread.job.ticket, op == ReleaseReader);
  }

  lemma ReserveKeepsRunning(s: Sys, op: Op)
    requires JobOk(s) && s.thread.Running? && s.thread.at == AtReserve(op)
    ensures ReserveStep(s, op).thread.Running? && RunningOk(ReserveStep(s, op))
  {
    ReserveShape(s.m, s.thread.job.ticket, op == ReleaseReader);
  }

  lemma ReserveKeepsProgress(s: Sys, op: Op)
    requires JobOk(s) && s.thread.Running? && s.thread.at == AtReserve(op)
    ensures ReserveStep(s, op).thread.Running? && ProgressOk(ReserveStep(s, op))
  {
    ReserveShape(s.m, s.thread.job.ticket, op == ReleaseReader);
  }

  lemma ReserveKeepsInv(s: Sys, op: Op)
    requires JobOk(s) && s.thread.Running? && s.thread.at == AtReserve(op)
    ensures JobOk(ReserveStep(s, op)) && SameTicket(s, ReserveStep(s, op))
    ensures Advances(s.m.status, ReserveStep(s, op).m.status)
  {
    ReserveKeepsReceipt(s, op);
    ReserveKeepsRunning(s, op);
    ReserveKeepsProgress(s, op);
  }

  lemma EndKeepsInv(s: Sys, op: Op, ok: bool)
    requires JobOk(s) && s.thread.Running? && s.thread.at == AtEnd(op, ok)
    ensures JobOk(Goto(s, EndCall(s.m), AtLeave(op, ok)).(access := Free))
    ensures SameTicket(s, Goto(s, EndCall(s.m), AtLeave(op, ok)).(access := Free))
  {
  }

  lemma LeaveKeepsInv(s: Sys, op: Op, ok: bool)
    requires JobOk(s) && s.thread.Running? && s.thread.at == AtLeave(op, ok)
    ensures JobOk(LeaveStep(s, op, ok)) && SameTicket(s, LeaveStep(s, op, ok))
    ensures Advances(s.m.status, LeaveStep(s, op, ok).m.status)
  {
    if op != ReleaseReader && ok && Live(s.m, s.thread.job.ticket) {
      ContinueKeepsInv(s, op);
    } else {
      assert LeaveStep(s, op, ok) == Goto(s, s.m, if op == ReleaseReader then AtConfirmGate else AtUnwind);
    }
  }

  lemma ContinueKeepsInv(s: Sys, op: Op)
    requires JobOk(s) && s.thread.Running? && s.thread.at == AtLeave(op, true) && op != ReleaseReader
    ensures var prepared := s.thread.prepared || op == FinalProbe;
            var s' := s.(thread := s.thread.(at := AfterCall(op), prepared := prepared));
            JobOk(s') && SameTicket(s, s')
  {
    var t1 := s.thread.(at := AfterCall(op), prepared := s.thread.prepared || op == FinalProbe);
    assert RunningOk(s.(thread := t1));
    assert ProgressOk(s.(thread := t1));
  }

  lemma ActionKeepsInv(s: Sys, op: Op, answer: Answer, toc: DiscToc)
    requires JobOk(s) && s.thread.Running? && s.thread.at == AtAction(op)
    ensures JobOk(ActionStep(s, op, answer, toc)) && SameTicket(s, ActionStep(s, op, answer, toc))
    ensures Advances(s.m.status, ActionStep(s, op, answer, toc).m.status)
  {
    if op != ReleaseReader && !answer.Accepted? {
      var s1 := StopThenGoto(s, Incomplete, OperationFailed);
      EndedKeepsInv(s1, op, false, s1.thread.reader || (op == OpenReader && answer.Rejected?), s1.thread.probed);
    } else {
      var t := ActionStep(s, op, answer, toc).thread;
      EndedKeepsInv(s, op, true, t.reader, t.probed);
    }
  }

  lemma EndedKeepsInv(s: Sys, op: Op, ok: bool, reader: bool, probed: DiscToc)
    requires JobOk(s) && s.thread.Running? && s.thread.at == AtAction(op)
    requires op == ReleaseReader ==> ok && !reader
    ensures JobOk(s.(thread := s.thread.(at := AtEnd(op, ok), reader := reader, probed := probed)))
  {
    var s1 := s.(thread := s.thread.(at := AtEnd(op, ok), reader := reader, probed := probed));
    assert ReceiptOk(s1);
    assert RunningOk(s1);
    assert ProgressOk(s1);
  }

  lemma StopThenGoto(s: Sys, state: InputState, reason: Reason) returns (s1: Sys)
    requires JobOk(s) && s.thread.Running? && Terminal(state)
    ensures s1 == s.(m := StopLocked(s.m, state, reason)) && JobOk(s1) && SameTicket(s, s1)
    ensures Advances(s.m.status, s1.m.status)
  {
    s1 := s.(m := StopLocked(s.m, state, reason));
    StopSettles(s.m, state, reason);
    SettleKeepsJob(s, s1.m);
  }

  lemma CompareKeepsInv(s: Sys)
    requires JobOk(s) && s.thread.Running? && s.thread.at.AtCompareToc?
    ensures JobOk(CompareStep(s)) && SameTicket(s, CompareStep(s))
    ensures Advances(s.m.status, CompareStep(s).m.status)
  {
    if s.thread.probed == s.thread.job.plan.toc {
      MatchKeepsInv(s);
    } else {
      var s1 := StopThenGoto(s, Invalid, TocChanged);
      GiveUpKeepsInv(s1);
    }
  }

  lemma MatchKeepsInv(s: Sys)
    requires JobOk(s) && s.thread.Running? && s.thread.at.AtCompareToc? && s.thread.probed == s.thread.job.plan.toc
    ensures JobOk(CompareStep(s)) && SameTicket(s, CompareStep(s)) && Advances(s.m.status, CompareStep(s).m.status)
  {
    var s1 := s.(receipt := s.receipt.(initialTocMatched := true));
    assert CompareStep(s) == Goto(s1, s1.m, AtEnter(OpenReader));
  }

  lemma BufferKeepsInv(s: Sys, answer: Answer, bytes: seq<Byte>)
    requires JobOk(s) && s.thread.Running? && s.thread.at.AtBuffer?
    ensures JobOk(ExecuteStep(s, answer, bytes)) && SameTicket(s, ExecuteStep(s, answer, bytes))
    ensures Advances(s.m.status, ExecuteStep(s, answer, bytes).m.status)
  {
    if !answer.Accepted? {
      var s1 := StopThenGoto(s, Incomplete, MemoryLimit);
      GiveUpKeepsInv(s1);
    }
  }

  /** Giving up leads to the unwinding of the call. */
  lemma GiveUpKeepsInv(s: Sys)
    requires JobOk(s) && s.thread.Running?
    requires s.thread.at.AtCompareToc? || s.thread.at.AtBuffer? || s.thread.at.AtAppend? || s.thread.at.AtPrepare?
    ensures JobOk(Goto(s, s.m, AtUnwind)) && SameTicket(s, Goto(s, s.m, AtUnwind))
  {
  }

  lemma LoopKeepsInv(s: Sys)
    requires JobOk(s) && s.thread.Running? && s.thread.at.AtLoop?
    ensures JobOk(LoopStep(s)) && SameTicket(s, LoopStep(s))
    ensures Advances(s.m.status, LoopStep(s).m.status)
  {
  }

  lemma StoreReadKeepsInv(s: Sys, frames: nat, at: Point)
    requires JobOk(s) && s.thread.Running? && s.thread.at == AtStoreRead(frames)
    requires at == AtAppend(frames) || at == AtUnwind
    ensures JobOk(Goto(s, s.m, at)) && SameTicket(s, Goto(s, s.m, at))
  {
  }

  lemma FinalizingKeepsInv(s: Sys)
    requires JobOk(s) && s.thread.Running? && s.thread.at.AtFinalizing?
    ensures JobOk(FinalizingStep(s)) && SameTicket(s, FinalizingStep(s))
    ensures Advances(s.m.status, FinalizingStep(s).m.status)
  {
  }

  lemma AppendKeepsInv(s: Sys, frames: nat, answer: Answer)
    requires JobOk(s) && s.thread.Running? && s.thread.at == AtAppend(frames)
    ensures JobOk(AppendStep(s, frames, answer)) && SameTicket(s, AppendStep(s, frames, answer))
    ensures Advances(s.m.status, AppendStep(s, frames, answer).m.status)
  {
    if answer.Threw? {
      var s1 := StopThenGoto(s, Incomplete, OperationFailed);
      GiveUpKeepsInv(s1);
    }
  }

  lemma PrepareKeepsInv(s: Sys, answer: Answer)
    requires JobOk(s) && s.thread.Running? && s.thread.at.AtPrepare?
    ensures JobOk(PrepareStep(s, answer)) && SameTicket(s, PrepareStep(s, answer))
    ensures Advances(s.m.status, PrepareStep(s, answer).m.status)
  {
    if answer.Threw? {
      var s1 := StopThenGoto(s, Incomplete, OperationFailed);
      GiveUpKeepsInv(s1);
    }
  }

  /** Publishing the core's state and progress, as `publish_core` does under the mutex. */
  lemma PublishKeepsStatus(s: Sys)
    requires JobOk(s) && s.thread.Running? && PublishPoint(s.thread.at)
    ensures StatusOk(Published(s)) && ReceiptOk(s.(m := Published(s))) && Advances(s.m.status, Published(s).status)
  {
    if Terminal(s.thread.core.state) { PublishedCore(s); }
  }

  predicate PublishPoint(at: Point) { at == AtPublishAccepted || at == AtPublishRejected || at == AtPublishUnconfirmed }

  lemma PublishedCore(s: Sys)
    requires JobOk(s) && s.thread.Running? && Terminal(s.thread.core.state)
    ensures var accepted := s.thread.core.nextLba - FirstLba(s.thread.job.plan.toc);
            var m2 := s.m.(status := s.m.status.(acceptedFrames := accepted));
            Settles(m2, StopLocked(m2, s.thread.core.state, CoreFailed))
  {
    var m2 := s.m.(status := s.m.status.(acceptedFrames := s.thread.core.nextLba - FirstLba(s.thread.job.plan.toc)));
    StopSettles(m2, s.thread.core.state, CoreFailed);
  }

  /** Where each publication leads. */
  predicate PublishedTo(from: Point, at: Point) {
    || (from == AtPublishAccepted && at == AtLoop) || (from == AtPublishRejected && at == AtUnwind)
    || (from == AtPublishUnconfirmed && at == AtFinish)
  }

  lemma PublishKeepsRunning(s: Sys, at: Point)
    requires JobOk(s) && s.thread.Running? && PublishedTo(s.thread.at, at)
    ensures RunningOk(Goto(s, Published(s), at))
  {
    if Terminal(s.thread.core.state) { PublishedCore(s); }
  }

  lemma PublishKeepsProgress(s: Sys, at: Point)
    requires JobOk(s) && s.thread.Running? && PublishedTo(s.thread.at, at)
    ensures ProgressOk(Goto(s, Published(s), at))
  {
    if Terminal(s.thread.core.state) { PublishedCore(s); }
  }

  lemma PublishKeepsInv(s: Sys, at: Point)
    requires JobOk(s) && s.thread.Running? && PublishedTo(s.thread.at, at)
    ensures JobOk(Goto(s, Published(s), at)) && SameTicket(s, Goto(s, Published(s), at))
    ensures Advances(s.m.status, Published(s).status)
  {
    PublishKeepsStatus(s);
    PublishKeepsRunning(s, at);
    PublishKeepsProgress(s, at);
  }

  lemma UnwindKeepsInv(s: Sys, at: Point)
    requires JobOk(s) && s.thread.Running?
    requires (s.thread.at == AtUnwind && at == if s.thread.reader then AtEnter(ReleaseReader) else AtConfirmGate)
             || (s.thread.at == AtConfirmGate && (at == AtFinish || (at == AtConfirm && s.thread.prepared)))
    ensures JobOk(Goto(s, s.m, at)) && SameTicket(s, Goto(s, s.m, at))
  {
  }

  lemma ConfirmStepKeepsInv(s: Sys, answer: Answer, bytes: seq<Byte>)
    requires JobOk(s) && s.thread.Running? && s.thread.at.AtConfirm?
    ensures JobOk(ConfirmStep(s, answer, bytes)) && SameTicket(s, ConfirmStep(s, answer, bytes))
    ensures Advances(s.m.status, ConfirmStep(s, answer, bytes).m.status)
  {
    match answer
    case Accepted =>
      if s.thread.probed == s.thread.job.plan.toc {
        ConfirmedKeepsInv(s, bytes);
      } else {
        UnconfirmedKeepsInv(s, Invalid);
      }
    case Rejected(state) => UnconfirmedKeepsInv(s, state);
    case Threw =>
      var s1 := StopThenGoto(s, Incomplete, OperationFailed);
      assert ConfirmStep(s, answer, bytes) == Goto(s1, s1.m, AtFinish);
      assert ProgressOk(Goto(s1, s1.m, AtFinish));
  }

  lemma ConfirmedKeepsInv(s: Sys, bytes: seq<Byte>)
    requires JobOk(s) && s.thread.Running? && s.thread.at.AtConfirm?
    ensures JobOk(s.(thread := s.thread.(at := AtFinish, candidate := bytes),
                     receipt := s.receipt.(finalTocMatched := true, bytes := bytes)))
  {
  }

  lemma UnconfirmedKeepsInv(s: Sys, state: InputState)
    requires JobOk(s) && s.thread.Running? && s.thread.at.AtConfirm?
    ensures JobOk(s.(thread := s.thread.(at := AtPublishUnconfirmed, core := s.thread.core.(state := state))))
  {
  }

  lemma FinishKeepsInv(s: Sys)
    requires JobOk(s) && s.thread.Running? && s.thread.at.AtFinish?
    ensures JobOk(FinishStep(s)) && SameTicket(s, FinishStep(s))
    ensures Advances(s.m.status, FinishStep(s).m.status)
  {
    var m2 := s.m.(status := s.m.status.(readerReleased := true, callInflight := false, waitingForAccess := false));
    StopSettles(m2, Incomplete, CoreFailed);
  }

  lemma CallKeepsInv(s: Sys, answer: Answer, toc: DiscToc)
    requires JobOk(s) && s.thread.Running? && InCall(s.thread.at) && (s.thread.at.AtAccess? ==> s.access == Free)
    ensures JobOk(CallStep(s, answer, toc)) && SameTicket(s, CallStep(s, answer, toc))
    ensures Advances(s.m.status, CallStep(s, answer, toc).m.status)
  {
    match s.thread.at
    case AtEnter(op) => EnterKeepsInv(s, op);
    case AtAccess(op) => AccessKeepsInv(s, op, answer, toc);
    case AtReserve(op) => ReserveKeepsInv(s, op);
    case AtAction(op) => ActionKeepsInv(s, op, answer, toc);
    case AtEnd(op, ok) => EndKeepsInv(s, op, ok);
    case AtLeave(op, ok) => LeaveKeepsInv(s, op, ok);
  }

  lemma ExecuteKeepsInv(s: Sys, answer: Answer, bytes: seq<Byte>)
    requires JobOk(s) && s.thread.Running? && !InCall(s.thread.at)
    ensures JobOk(ExecuteStep(s, answer, bytes)) && SameTicket(s, ExecuteStep(s, answer, bytes))
    ensures Advances(s.m.status, ExecuteStep(s, answer, bytes).m.status)
  {
    var live := Live(s.m, s.thread.job.ticket);
    match s.thread.at
    case AtCompareToc => CompareKeepsInv(s);
    case AtBuffer => BufferKeepsInv(s, answer, bytes);
    case AtLoop => LoopKeepsInv(s);
    case AtStoreRead(frames) => StoreReadKeepsInv(s, frames, if live then AtAppend(frames) else AtUnwind);
    case AtFinalizing => FinalizingKeepsInv(s);
    case AtAppend(frames) => AppendKeepsInv(s, frames, answer);
    case AtPrepare => PrepareKeepsInv(s, answer);
    case AtPublishRejected => PublishKeepsInv(s, AtUnwind);
    case AtPublishAccepted => PublishKeepsInv(s, AtLoop);
    case AtPublishUnconfirmed => PublishKeepsInv(s, AtFinish);
    case AtUnwind => UnwindKeepsInv(s, if s.thread.reader then AtEnter(ReleaseReader) else AtConfirmGate);
    case AtConfirmGate => UnwindKeepsInv(s, if s.thread.prepared && live then AtConfirm else AtFinish);
    case AtConfirm => ConfirmStepKeepsInv(s, answer, bytes);
    case AtFinish => FinishKeepsInv(s);
  }
}
