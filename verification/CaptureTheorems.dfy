/**
  The promises of the complete-PCM capture, over every run of the protocol.
*/
module CaptureTheorems {
  import opened Basics
  import opened DiscTocs
  import opened CompletePcm
  import opened CaptureMonitor
  import opened CaptureProtocol
  import opened CaptureSafety

  lemma WorkKeepsInv(s: Sys, e: Event)
    requires Inv(s) && Enabled(s, e) && e.Work?
    ensures Inv(RawNext(s, e)) && SameTicket(s, RawNext(s, e))
    ensures Open(s.m.status) && Revokes(s, e) ==> Stopped(RawNext(s, e).m.status)
    ensures Advances(s.m.status, RawNext(s, e).m.status)
  {
    if s.thread.Waiting? {
      TakeJobKeepsInv(s);
    } else {
      RefreshKeepsInv(s, e.clock);
      var s1 := RefreshFirst(s, e.clock);
      if InCall(s.thread.at) {
        CallKeepsInv(s1, e.answer, e.toc);
      } else {
        ExecuteKeepsInv(s1, e.answer, e.bytes);
      }
    }
  }

  lemma NextKeepsInv(s: Sys, e: Event)
    requires Inv(s) && Enabled(s, e)
    ensures Inv(Next(s, e))
  {
    if e.Work? { WorkKeepsInv(s, e); } else { ControlKeepsInv(s, e); }
    var s1 := RawNext(s, e);
    if Open(s.m.status) && Revokes(s, e) {
      RevokedKeepsInv(s1);
    }
  }

  lemma RevokedKeepsInv(s: Sys)
    requires Inv(s) && Stopped(s.m.status)
    ensures Inv(s.(receipt := s.receipt.(revoked := true)))
  {
  }

  /** The state after the events, if every one of them was enabled in its turn. */
  function RunFrom(s: Sys, es: seq<Event>): Option<Sys>
    decreases es
  {
    if es == [] then Some(s) else if !Enabled(s, es[0]) then None else RunFrom(Next(s, es[0]), es[1..])
  }

  /** A run of a fresh worker. */
  function Run(es: seq<Event>): Option<Sys> { RunFrom(INITIAL, es) }

  lemma {:induction false} RunFromKeepsInv(s: Sys, es: seq<Event>)
    requires Inv(s) && RunFrom(s, es).Some?
    ensures Inv(RunFrom(s, es).value)
    decreases es
  {
    if es != [] {
      NextKeepsInv(s, es[0]);
      RunFromKeepsInv(Next(s, es[0]), es[1..]);
    }
  }

  // ------------------------------------------------------------ what a result stands for

  /**
    Whatever the interleaving, `result` returns bytes only for a job whose one ticket matched the initial TOC,
    appended every frame up to the lead-out, matched the final TOC, released its reader, and saw no cancel,
    invalidation, change of identity, gate loss, clock failure or expired deadline before it was confirmed.
  */
  lemma DeliveredResultIsGood(es: seq<Event>, id: Identity)
    requires Run(es).Some?
    requires ResultOf(Run(es).value.m, id) != []
    ensures var s := Run(es).value;
            var r := s.receipt;
            && r.plan.identity == id && r.ticket == s.m.activeTicket
            && !r.revoked && r.initialTocMatched && r.finalTocMatched && r.readerClosed
            && r.appendedTo == r.plan.toc.leadoutLba
            && s.m.status.acceptedFrames == SpanFrames(r.plan.toc)
            && ResultOf(s.m, id) == r.bytes
  {
    RunFromKeepsInv(INITIAL, es);
  }

  /** The control-side calls that take a delivered result back. */
  predicate Withdraws(s: Sys, e: Event, id: Identity) {
    match e
    case InvalidateCall => true
    case PollCall(current, _, _) => current != id
    case ConfirmCall(current, _, _) => current != id
    case Admitted(i, _) =>
      && i < |s.pending|
      && MayAdmit(s.m, s.pending[i].plan, s.pending[i].before)
      && WellFormed(s.pending[i].plan.toc) && 0 < s.pending[i].plan.duration
    case _ => false
  }

  /** A delivered result survives a step unchanged exactly when the step does not withdraw it, and is gone otherwise. */
  lemma ResultSurvivesExactly(s: Sys, e: Event, id: Identity)
    requires Inv(s) && Enabled(s, e) && ResultOf(s.m, id) != []
    ensures ResultOf(Next(s, e).m, id) == if Withdraws(s, e, id) then [] else ResultOf(s.m, id)
  {
  }

  // ------------------------------------------------------------ device actions

  /**
    Every action other than releasing the reader is reserved in a section where its ticket was permitted before the
    job deadline, with the access lock held and a deadline of its own that no policy or job exceeds.
  */
  lemma ActionsReservedWhilePermitted(s: Sys, e: Event)
    requires Inv(s) && Enabled(s, e)
    requires s.thread.Running? && !s.thread.at.AtAction?
    requires Next(s, e).thread.Running? && Next(s, e).thread.at.AtAction?
    requires Next(s, e).thread.at.op != ReleaseReader
    ensures var s' := Next(s, e);
            && Live(s'.m, s'.thread.job.ticket) && s'.m.lastNow < s'.m.jobDeadline
            && s'.m.callDeadline.Some? && s'.m.lastNow < s'.m.callDeadline.value <= s'.m.jobDeadline
            && s'.m.callDeadline.value <= s'.m.lastNow + s'.m.callBudgetMs * NS_PER_MS
            && s'.access == Worker
  {
    OnlyReserveActs(s, e);
    RefreshKeepsInv(s, e.clock);
    RefreshSettles(s.m, e.clock);
    NextKeepsInv(s, e);
  }

  /** The reservation is the only way into a device action. */
  lemma OnlyReserveActs(s: Sys, e: Event)
    requires Inv(s) && Enabled(s, e) && s.thread.Running? && !s.thread.at.AtAction?
    requires Next(s, e).thread.Running? && Next(s, e).thread.at.AtAction?
    ensures e.Work? && s.thread.at.AtReserve?
  {
    if e.Work? && !s.thread.at.AtReserve? {
      var s1 := RefreshFirst(s, e.clock);
      if InCall(s.thread.at) { OtherCallSteps(s1, e.answer, e.toc); } else { OtherSteps(s1, e.answer, e.bytes); }
    }
  }

  lemma OtherCallSteps(s: Sys, answer: Answer, toc: DiscToc)
    requires s.thread.Running? && InCall(s.thread.at) && !s.thread.at.AtReserve? && !s.thread.at.AtAction?
    ensures !CallStep(s, answer, toc).thread.Running? || !CallStep(s, answer, toc).thread.at.AtAction?
  {
  }

  lemma OtherSteps(s: Sys, answer: Answer, bytes: seq<Byte>)
    requires s.thread.Running? && !InCall(s.thread.at)
    ensures !ExecuteStep(s, answer, bytes).thread.Running? || !ExecuteStep(s, answer, bytes).thread.at.AtAction?
  {
  }

  /** While a device action runs, the worker alone holds the drive and says so. */
  lemma ActionsHoldTheDrive(es: seq<Event>)
    requires Run(es).Some? && Run(es).value.thread.Running? && Run(es).value.thread.at.AtAction?
    ensures var s := Run(es).value;
            && s.access == Worker && s.m.status.callInflight && s.m.status.busy && !s.m.status.readerReleased
            && !Enabled(s, OtherLocks)
  {
    RunFromKeepsInv(INITIAL, es);
  }

  /** Every execution ends with its reader closed, no call in flight and the drive given back, whatever stopped it. */
  lemma ExecutionEndsReleased(es: seq<Event>)
    requires Run(es).Some? && Run(es).value.thread.Running? && Run(es).value.thread.at.AtFinish?
    ensures var s := Run(es).value;
            !s.thread.reader && !s.m.status.callInflight && !s.m.status.waitingForAccess && s.access != Worker
  {
    RunFromKeepsInv(INITIAL, es);
  }

  /** And once no job is queued or running, the last one admitted has closed its reader. */
  lemma FinishedTicketClosedReader(es: seq<Event>)
    requires Run(es).Some? && Run(es).value.thread.Waiting? && Run(es).value.m.queued.None?
    requires Run(es).value.m.status.identity.Some?
    ensures var s := Run(es).value;
            s.receipt.ticket == s.m.activeTicket && s.receipt.readerClosed && s.m.status.readerReleased
  {
    RunFromKeepsInv(INITIAL, es);
  }

  /** The status counts the drive as released exactly between jobs, and then no call is in flight. */
  lemma ReleasedMeansReleased(es: seq<Event>)
    requires Run(es).Some?
    ensures var s := Run(es).value;
            && (s.m.status.readerReleased <==> s.thread.Waiting? && s.m.queued.None?)
            && (s.thread.Waiting? ==> !s.m.status.callInflight && !s.m.status.waitingForAccess && s.access != Worker)
            && (s.m.status.busy <==> s.m.status.phase != Idle && s.m.status.phase != Finished)
  {
    RunFromKeepsInv(INITIAL, es);
  }

  // ------------------------------------------------------------ one way only

  /** Epochs never fall, and a step either keeps the job and only advances its state, or admits a newer ticket. */
  lemma StepOneWay(s: Sys, e: Event)
    requires Inv(s) && Enabled(s, e)
    ensures s.m.epoch <= Next(s, e).m.epoch && s.m.activeTicket <= Next(s, e).m.activeTicket
    ensures Next(s, e).m.activeTicket == s.m.activeTicket ==> Advances(s.m.status, Next(s, e).m.status)
    ensures Next(s, e).m.activeTicket != s.m.activeTicket ==> s.m.epoch < Next(s, e).m.activeTicket
  {
    if e.Work? { WorkKeepsInv(s, e); } else { ControlOneWay(s, e); }
  }

  /** What any number of steps can make of a job's input state. */
  predicate ComesTo(a: Status, b: Status) {
    Advances(a, b) || (a.inputState == Some(Collecting) && b.inputState == Some(Complete))
  }

  /** Over any stretch of any run that stays with one ticket, the input state only advances. */
  lemma {:induction false} StateOnlyAdvances(s: Sys, es: seq<Event>)
    requires Inv(s) && RunFrom(s, es).Some?
    ensures s.m.epoch <= RunFrom(s, es).value.m.epoch
    ensures s.m.activeTicket <= RunFrom(s, es).value.m.activeTicket
    ensures RunFrom(s, es).value.m.activeTicket == s.m.activeTicket ==>
              ComesTo(s.m.status, RunFrom(s, es).value.m.status)
    decreases es
  {
    if es != [] {
      NextKeepsInv(s, es[0]);
      StepOneWay(s, es[0]);
      StateOnlyAdvances(Next(s, es[0]), es[1..]);
    }
  }

  /** No job completes without having been prepared in between. */
  lemma {:induction false} CompletesOncePrepared(s: Sys, es: seq<Event>) returns (n: nat)
    requires Inv(s) && RunFrom(s, es).Some? && RunFrom(s, es).value.m.activeTicket == s.m.activeTicket
    requires s.m.status.inputState == Some(Collecting) && RunFrom(s, es).value.m.status.inputState == Some(Complete)
    ensures n < |es| && RunFrom(s, es[..n]).Some?
    ensures RunFrom(s, es[..n]).value.m.status.inputState == Some(Prepared)
    decreases es
  {
    var s1 := Next(s, es[0]);
    NextKeepsInv(s, es[0]);
    StepOneWay(s, es[0]);
    StateOnlyAdvances(s1, es[1..]);
    if s1.m.status.inputState == Some(Prepared) {
      n := 1;
      assert es[..1] == [es[0]] && es[..1][1..] == [];
    } else {
      var k := CompletesOncePrepared(s1, es[1..]);
      n := k + 1;
      assert es[..n][1..] == es[1..][..k];
    }
  }

  /** A ticket that is no longer permitted is never permitted again. */
  lemma DeadTicketStaysDead(s: Sys, es: seq<Event>, ticket: nat)
    requires Inv(s) && RunFrom(s, es).Some? && ticket <= s.m.epoch && !Live(s.m, ticket)
    ensures !Live(RunFrom(s, es).value.m, ticket)
  {
    StateOnlyAdvances(s, es);
    RunFromKeepsInv(s, es);
    TicketsGrow(s, es);
  }

  /** A new ticket is newer than every epoch before it. */
  lemma {:induction false} TicketsGrow(s: Sys, es: seq<Event>)
    requires Inv(s) && RunFrom(s, es).Some?
    ensures var end := RunFrom(s, es).value.m; end.activeTicket == s.m.activeTicket || s.m.epoch < end.activeTicket
    decreases es
  {
    if es != [] {
      NextKeepsInv(s, es[0]);
      StepOneWay(s, es[0]);
      TicketsGrow(Next(s, es[0]), es[1..]);
    }
  }

  /**
    Cancelling, invalidating or closing also kills every admission still in its preflight: whatever happens later,
    the second section of that `start` refuses it.
  */
  lemma CancelKillsPreflight(s: Sys, e: Event, es: seq<Event>, a: Admission)
    requires Inv(s) && a in s.pending && (e == CancelCall || e == InvalidateCall || e == CloseCall)
    requires RunFrom(Next(s, e), es).Some?
    ensures !MayAdmit(RunFrom(Next(s, e), es).value.m, a.plan, a.before)
  {
    NextKeepsInv(s, e);
    StateOnlyAdvances(Next(s, e), es);
    assert a.before < Next(s, e).m.epoch;
  }
}
