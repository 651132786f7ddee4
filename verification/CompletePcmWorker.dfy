/**
  The worker's object, with the fields its mutex guards. Each method is one
  critical section and is proved to compute the monitor function the protocol
  interleaves; the state change is stated for the whole object.
*/
module CompletePcmWorkers {
  import opened Basics
  import opened CompletePcm
  import opened CaptureMonitor

  class CompletePcmWorker {
    var closing: bool
    var epoch: nat
    var activeTicket: nat
    var lastJobId: nat
    var status: Status
    var lastNow: int
    var jobDeadline: int
    var callDeadline: Option<int>
    var callBudgetMs: nat
    var queued: Option<Job>
    var pendingResult: seq<Byte>
    var result: seq<Byte>

    constructor ()
      ensures Model() == INITIAL_MONITOR
    {
      closing := false;
      epoch, activeTicket, lastJobId := 0, 0, 0;
      status := INITIAL_STATUS;
      lastNow, jobDeadline, callDeadline, callBudgetMs := 0, 0, None, 0;
      queued := None;
      pendingResult, result := [], [];
    }

    function Model(): Monitor
      reads this
    {
      Monitor(closing, epoch, activeTicket, lastJobId, status, lastNow, jobDeadline, callDeadline, callBudgetMs,
              queued, pendingResult, result)
    }

    method StopSection(state: InputState, reason: Reason)
      modifies this
      ensures Model() == StopLocked(old(Model()), state, reason)
    {
      if status.identity.None? || status.inputState == Some(Invalid) { return; }
      if state != Invalid && (status.inputState == Some(Incomplete) || status.inputState == Some(Complete)) { return; }
      var stopped := status.(inputState := Some(state), failure := reason);
      status := if status.phase == AwaitingConfirm then stopped.(busy := false, phase := Finished) else stopped;
      pendingResult, result := [], [];
    }

    method RefreshSection(clock: ClockRead)
      modifies this
      ensures Model() == RefreshLocked(old(Model()), clock)
    {
      if !status.busy || (status.inputState != Some(Collecting) && status.inputState != Some(Prepared)) { return; }
      match clock
      case ClockThrew => StopSection(Invalid, ClockFailed);
      case Now(now) =>
        if now < lastNow {
          StopSection(Invalid, ClockRegressed);
          return;
        }
        lastNow := now;
        if jobDeadline <= now {
          StopSection(Incomplete, JobDeadline);
        } else if status.callInflight && callDeadline.Some? && callDeadline.value <= now {
          StopSection(Incomplete, CallDeadline);
        }
    }

    method PermittedSection(ticket: nat, clock: ClockRead) returns (permitted: bool)
      modifies this
      ensures Model() == RefreshLocked(old(Model()), clock)
      ensures permitted == Live(Model(), ticket)
    {
      RefreshSection(clock);
      permitted := ticket == activeTicket && !closing && status.busy
        && (status.inputState == Some(Collecting) || status.inputState == Some(Prepared));
    }

    /** Both sections of `start`, which run apart: the epoch seen first must still stand at the second. */
    method BeginStart(plan: Plan, ready: bool) returns (before: Option<nat>)
      ensures before == if MayStart(Model(), plan, ready) then Some(epoch) else None
    {
      if closing || status.busy || !ready || plan.identity.jobId <= lastJobId { return None; }
      before := Some(epoch);
    }

    method EndStart(plan: Plan, before: nat, startTime: int) returns (started: bool)
      modifies this
      ensures started == MayAdmit(old(Model()), plan, before)
      ensures Model() == if started then Admit(old(Model()), plan, startTime) else old(Model())
    {
      if closing || status.busy || before != epoch || plan.identity.jobId <= lastJobId { return false; }
      epoch := epoch + 1;
      activeTicket, lastJobId := epoch, plan.identity.jobId;
      status := INITIAL_STATUS.(identity := Some(plan.identity), inputState := Some(Collecting), phase := Queued,
                                busy := true, readerReleased := false);
      pendingResult, result, callDeadline := [], [], None;
      lastNow, jobDeadline, callBudgetMs := startTime, startTime + plan.duration * NS_PER_MS, plan.policy.timeBudgetMs;
      queued := Some(Job(plan, activeTicket));
      started := true;
    }

    method CancelJob()
      modifies this
      ensures Model() == Cancel(old(Model()))
    {
      epoch := epoch + 1;
      StopSection(Incomplete, Cancelled);
    }

    method InvalidateJob()
      modifies this
      ensures Model() == Invalidate(old(Model()))
    {
      epoch := epoch + 1;
      StopSection(Invalid, ContextChanged);
    }

    /** The first half of a poll: another identity, or a drive that is not ready, stops the job. */
    method CheckSection(current: Identity, ready: bool)
      modifies this
      ensures Model() == CheckGate(CheckIdentity(old(Model()), current), ready)
    {
      if status.identity.Some? && current != status.identity.value {
        epoch := epoch + 1;
        StopSection(Invalid, ContextChanged);
      }
      assert Model() == CheckIdentity(old(Model()), current);
      if !ready {
        epoch := epoch + 1;
        if status.busy { StopSection(Invalid, NotReady); }
      }
    }

    method UpdateSection(current: Identity, ready: bool, clock: ClockRead)
      modifies this
      ensures Model() == UpdateLocked(old(Model()), current, ready, clock)
    {
      CheckSection(current, ready);
      RefreshSection(clock);
    }

    method ConfirmJob(current: Identity, ready: bool, clock: ClockRead) returns (confirmed: bool)
      modifies this
      ensures Model() == Confirm(old(Model()), current, ready, clock)
      ensures confirmed == Confirmable(UpdateLocked(old(Model()), current, ready, clock))
    {
      UpdateSection(current, ready, clock);
      if !status.busy || status.phase != AwaitingConfirm || status.inputState != Some(Prepared)
         || !status.readerReleased || pendingResult == [] {
        return false;
      }
      result, pendingResult := pendingResult, [];
      status := status.(inputState := Some(Complete));
      status := status.(phase := Finished, busy := false);
      confirmed := true;
    }

    method Result(current: Identity) returns (bytes: seq<Byte>)
      ensures bytes == ResultOf(Model(), current)
    {
      bytes := if status.identity == Some(current) && status.inputState == Some(Complete) then result else [];
    }

    /** Second section of `call`. */
    method ReserveSection(ticket: nat, clock: ClockRead, cleanup: bool) returns (reserved: bool)
      modifies this
      ensures (Model(), reserved) == ReserveCall(RefreshLocked(old(Model()), clock), ticket, cleanup)
    {
      var allowed := PermittedSection(ticket, clock);
      status := status.(waitingForAccess := false);
      if !cleanup && !allowed { return false; }
      callDeadline := None;
      if allowed {
        var budget := Min(callBudgetMs, (jobDeadline - lastNow) / NS_PER_MS);
        if budget <= 0 {
          StopSection(Incomplete, JobDeadline);
          if !cleanup { return false; }
        } else {
          callDeadline := Some(lastNow + budget * NS_PER_MS);
        }
      }
      status := status.(callInflight := true);
      reserved := true;
    }

    method EndSection(clock: ClockRead)
      modifies this
      ensures Model() == EndCall(RefreshLocked(old(Model()), clock))
    {
      RefreshSection(clock);
      status := status.(callInflight := false);
      callDeadline := None;
    }

    method PublishSection(ticket: nat, clock: ClockRead, frames: int, state: InputState)
      modifies this
      ensures Model() == PublishCore(RefreshLocked(old(Model()), clock), ticket, frames, state)
    {
      var allowed := PermittedSection(ticket, clock);
      if !allowed { return; }
      status := status.(acceptedFrames := frames);
      if state == Incomplete || state == Invalid {
        StopSection(state, CoreFailed);
      }
    }

    method FinishSection(ticket: nat, clock: ClockRead, candidate: seq<Byte>)
      modifies this
      ensures Model() == FinishJob(RefreshLocked(old(Model()), clock), ticket, candidate)
    {
      var allowed := PermittedSection(ticket, clock);
      status := status.(readerReleased := true);
      status := status.(callInflight := false, waitingForAccess := false);
      if allowed && candidate != [] {
        pendingResult := candidate;
        status := status.(inputState := Some(Prepared), phase := AwaitingConfirm);
      } else {
        if allowed { StopSection(Incomplete, CoreFailed); }
        status := status.(busy := false, phase := Finished);
      }
    }
  }
}
