/**
  The complete-PCM capture worker (src/complete_pcm_worker.cpp): a control side
  (start, cancel, invalidate, poll, confirm, result) and one worker thread share
  a mutex-guarded monitor. Each function below is one mutex critical section;
  class CompletePcmWorker holds the same sections over its fields, and module
  CaptureProtocol interleaves them with the device actions.
*/
module CaptureMonitor {
  import opened Basics
  import opened CompletePcm

  datatype Phase =
    | Idle | Queued | ProbingInitialToc | OpeningReader | SeekingStart | ReadingBlock
    | Finalizing | ProbingFinalToc | ReleasingReader | AwaitingConfirm | Finished

  datatype Reason =
    | NoReason | Cancelled | ContextChanged | NotReady | JobDeadline | CallDeadline
    | ClockRegressed | ClockFailed | OperationFailed | CoreFailed | TocChanged | MemoryLimit

  datatype Status = Status(
    identity: Option<Identity>, inputState: Option<InputState>, phase: Phase, failure: Reason,
    busy: bool, readerReleased: bool, waitingForAccess: bool, callInflight: bool, acceptedFrames: int)

  const NS_PER_MS: int := 1_000_000

  datatype Job = Job(plan: Plan, ticket: nat)

  datatype Monitor = Monitor(
    closing: bool, epoch: nat, activeTicket: nat, lastJobId: nat, status: Status,
    lastNow: int, jobDeadline: int, callDeadline: Option<int>, callBudgetMs: nat,
    queued: Option<Job>, pendingResult: seq<Byte>, result: seq<Byte>)

  const INITIAL_STATUS := Status(None, None, Idle, NoReason, false, true, false, false, 0)
  const INITIAL_MONITOR := Monitor(false, 0, 0, 0, INITIAL_STATUS, 0, 0, None, 0, None, [], [])

  /** The job is neither terminal nor complete. */
  predicate Open(st: Status) { st.inputState == Some(Collecting) || st.inputState == Some(Prepared) }

  function StopLocked(m: Monitor, state: InputState, reason: Reason): Monitor {
    var st := m.status;
    if st.identity.None? || st.inputState == Some(Invalid) then m
    else if state != Invalid && (st.inputState == Some(Incomplete) || st.inputState == Some(Complete)) then m
    else
      var stopped := st.(inputState := Some(state), failure := reason);
      m.(status := if st.phase == AwaitingConfirm then stopped.(busy := false, phase := Finished) else stopped,
         pendingResult := [], result := [])
  }

  function RefreshLocked(m: Monitor, clock: ClockRead): Monitor {
    if !m.status.busy || !Open(m.status) then m
    else match clock
      case ClockThrew => StopLocked(m, Invalid, ClockFailed)
      case Now(t) =>
        if t < m.lastNow then StopLocked(m, Invalid, ClockRegressed)
        else
          var seen := m.(lastNow := t);
          if m.jobDeadline <= t then StopLocked(seen, Incomplete, JobDeadline)
          else if m.status.callInflight && m.callDeadline.Some? && m.callDeadline.value <= t
          then StopLocked(seen, Incomplete, CallDeadline)
          else seen
  }

  /** The part of `permitted_locked` that does not read the clock. */
  predicate Live(m: Monitor, ticket: nat) {
    ticket == m.activeTicket && !m.closing && m.status.busy && Open(m.status)
  }

  function Cancel(m: Monitor): Monitor { StopLocked(m.(epoch := m.epoch + 1), Incomplete, Cancelled) }

  function Invalidate(m: Monitor): Monitor { StopLocked(m.(epoch := m.epoch + 1), Invalid, ContextChanged) }

  function Close(m: Monitor): Monitor {
    StopLocked(m.(closing := true, epoch := m.epoch + 1), Incomplete, Cancelled)
  }

  /** First half of `update_locked`: the owner names another context. */
  function CheckIdentity(m: Monitor, current: Identity): Monitor {
    if m.status.identity.Some? && current != m.status.identity.value
    then StopLocked(m.(epoch := m.epoch + 1), Invalid, ContextChanged) else m
  }

  /** Second half: playback no longer leaves the drive alone. */
  function CheckGate(m: Monitor, ready: bool): Monitor {
    if ready then m
    else
      var bumped := m.(epoch := m.epoch + 1);
      if m.status.busy then StopLocked(bumped, Invalid, NotReady) else bumped
  }

  function UpdateLocked(m: Monitor, current: Identity, ready: bool, clock: ClockRead): Monitor {
    RefreshLocked(CheckGate(CheckIdentity(m, current), ready), clock)
  }

  predicate Confirmable(m: Monitor) {
    && m.status.busy && m.status.phase == AwaitingConfirm && m.status.inputState == Some(Prepared)
    && m.status.readerReleased && m.pendingResult != []
  }

  function Confirm(m: Monitor, current: Identity, ready: bool, clock: ClockRead): Monitor {
    var m1 := UpdateLocked(m, current, ready, clock);
    if !Confirmable(m1) then m1
    else m1.(result := m1.pendingResult, pendingResult := [],
             status := m1.status.(inputState := Some(Complete), phase := Finished, busy := false))
  }

  function ResultOf(m: Monitor, current: Identity): seq<Byte> {
    if m.status.identity == Some(current) && m.status.inputState == Some(Complete) then m.result else []
  }

  /** First section of `start`. */
  predicate MayStart(m: Monitor, plan: Plan, ready: bool) {
    !m.closing && !m.status.busy && ready && m.lastJobId < plan.identity.jobId
  }

  /** Second section of `start`: the preflight saw epoch `before`. */
  predicate MayAdmit(m: Monitor, plan: Plan, before: nat) {
    !m.closing && !m.status.busy && before == m.epoch && m.lastJobId < plan.identity.jobId
  }

  function Admit(m: Monitor, plan: Plan, startTime: int): Monitor {
    var ticket := m.epoch + 1;
    m.(epoch := ticket, activeTicket := ticket, lastJobId := plan.identity.jobId,
       status := INITIAL_STATUS.(identity := Some(plan.identity), inputState := Some(Collecting),
                                 phase := Queued, busy := true, readerReleased := false),
       pendingResult := [], result := [], lastNow := startTime, jobDeadline := startTime + plan.duration * NS_PER_MS,
       callBudgetMs := plan.policy.timeBudgetMs, callDeadline := None, queued := Some(Job(plan, ticket)))
  }

  /** First section of `call` after its permission check. */
  function EnterCall(m: Monitor, phase: Phase): Monitor {
    m.(status := m.status.(phase := phase, waitingForAccess := true))
  }

  /**
    Second section of `call`, entered with the access lock held, after its refresh; the flag says whether the
    call is reserved. (The waiting flag is cleared just before the refresh, which does not look at it.)
  */
  function ReserveCall(m: Monitor, ticket: nat, cleanup: bool): (Monitor, bool) {
    var m1 := m.(status := m.status.(waitingForAccess := false));
    var allowed := Live(m1, ticket);
    if !cleanup && !allowed then (m1, false)
    else
      var m2 := m1.(callDeadline := None);
      if !allowed then (InFlight(m2), true)
      else if CallBudget(m) <= 0 then
        var m3 := StopLocked(m2, Incomplete, JobDeadline);
        if cleanup then (InFlight(m3), true) else (m3, false)
      else (InFlight(m2.(callDeadline := Some(m.lastNow + CallBudget(m) * NS_PER_MS))), true)
  }

  /** Milliseconds one call may take: the policy's budget, or what is left of the job's. */
  function CallBudget(m: Monitor): (ms: int)
    ensures m.lastNow + ms * NS_PER_MS <= m.jobDeadline
    ensures ms <= m.callBudgetMs
  {
    Min(m.callBudgetMs, (m.jobDeadline - m.lastNow) / NS_PER_MS)
  }

  function InFlight(m: Monitor): Monitor { m.(status := m.status.(callInflight := true)) }

  /** Third section of `call`, after its refresh. */
  function EndCall(m: Monitor): Monitor {
    m.(status := m.status.(callInflight := false), callDeadline := None)
  }

  /** `publish_core` after its refresh; `frames` and `state` are what the core reports. */
  function PublishCore(m: Monitor, ticket: nat, frames: int, state: InputState): Monitor {
    if !Live(m, ticket) then m
    else
      var m2 := m.(status := m.status.(acceptedFrames := frames));
      if Terminal(state) then StopLocked(m2, state, CoreFailed) else m2
  }

  /** The last section of `execute`, after its refresh. */
  function FinishJob(m: Monitor, ticket: nat, candidate: seq<Byte>): Monitor {
    var allowed := Live(m, ticket);
    var m2 := m.(status := m.status.(readerReleased := true, callInflight := false, waitingForAccess := false));
    if allowed && candidate != [] then
      m2.(pendingResult := candidate, status := m2.status.(inputState := Some(Prepared), phase := AwaitingConfirm))
    else
      var m3 := if allowed then StopLocked(m2, Incomplete, CoreFailed) else m2;
      m3.(status := m3.status.(busy := false, phase := Finished))
  }
}
