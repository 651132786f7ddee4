/**
  What the bytes of a delivered result are: the protocol's runs whose core takes
  blocks of a disc, as module CaptureDrives shows of the input model over a
  repeated reader, and returns its consumer's manifest, as module Fingerprints
  shows of the local fingerprint.
*/
module CaptureResults {
  import opened Basics
  import opened DiscTocs
  import opened CompletePcm
  import opened CaptureMonitor
  import opened CaptureProtocol
  import opened CaptureSafety
  import opened CaptureTheorems
  import Fingerprints
  import ReaderStack
  import ReadOffsets
  import Sha256

  /** The manifest's characters as the bytes handed back. */
  function Ascii(text: string): (bytes: seq<Byte>)
    ensures |bytes| == |text|
  {
    seq(|text|, i requires 0 <= i < |text| => text[i] as int % 256)
  }

  function ResultBytes(hash: Sha256.Hash, toc: DiscToc, pcm: seq<Sample>): seq<Byte>
    requires WellFormed(toc)
  {
    Ascii(Fingerprints.ManifestOf(hash, toc, pcm))
  }

  /** The samples the running job's core has taken, and those of the job confirmed last. */
  datatype History = History(pcm: seq<Sample>, kept: seq<Sample>)

  const NO_HISTORY := History([], [])

  /** A step that hands `pcm` to the core, if it is an append. */
  datatype Step = Step(e: Event, pcm: seq<Sample>)

  /** The core confirms, against the TOC the job was planned for. */
  predicate Confirms(s: Sys, answer: Answer)
    requires s.thread.Running?
  {
    s.thread.at.AtConfirm? && answer.Accepted? && s.thread.probed == s.thread.job.plan.toc
  }

  function Recorded(s: Sys, step: Step, h: History): History {
    if !step.e.Work? then h
    else if s.thread.Waiting? then h.(pcm := [])
    else if s.thread.at.AtAppend? && step.e.answer.Accepted? then h.(pcm := h.pcm + step.pcm)
    else if Confirms(s, step.e.answer) then h.(kept := h.pcm)
    else h
  }

  /** The block in hand is the disc's where the core stands. */
  ghost predicate Delivers(disc: int -> Sample, s: Sys, pcm: seq<Sample>)
    requires s.thread.Running? && s.thread.at.AtAppend?
  {
    |pcm| == s.thread.at.frames * 1176 && ReadOffsets.FaithfulAt(disc, s.thread.core.nextLba, pcm)
  }

  /** The bytes are the consumer's manifest of what the core has taken. */
  ghost predicate HandsBack(hash: Sha256.Hash, s: Sys, bytes: seq<Byte>, pcm: seq<Sample>)
    requires s.thread.Running?
  {
    WellFormed(s.thread.job.plan.toc) && bytes == ResultBytes(hash, s.thread.job.plan.toc, pcm)
  }

  /** Blocks taken are the disc's, and a confirmed core hands back its consumer's manifest. */
  ghost predicate OfDisc(disc: int -> Sample, hash: Sha256.Hash, s: Sys, step: Step, h: History) {
    step.e.Work? && s.thread.Running? && step.e.answer.Accepted? ==>
      && (s.thread.at.AtAppend? ==> Delivers(disc, s, step.pcm))
      && (s.thread.at.AtConfirm? ==> HandsBack(hash, s, step.e.bytes, h.pcm))
  }

  /** `pcm` is the disc from its first track up to `next`. */
  ghost predicate DiscUpTo(disc: int -> Sample, toc: DiscToc, next: int, pcm: seq<Sample>) {
    |pcm| == (next - FirstLba(toc)) * 1176 && ReadOffsets.FaithfulAt(disc, FirstLba(toc), pcm)
  }

  /** The samples taken so far are the disc's, and the bytes receipted are the manifest of all of it. */
  ghost predicate Kept(disc: int -> Sample, hash: Sha256.Hash, s: Sys, h: History) {
    && (s.thread.Running? ==> DiscUpTo(disc, s.thread.job.plan.toc, s.thread.core.nextLba, h.pcm))
    && (s.receipt.bytes != [] ==> Digested(disc, hash, s.receipt, h.kept))
  }

  ghost predicate Digested(disc: int -> Sample, hash: Sha256.Hash, r: Receipt, pcm: seq<Sample>) {
    && WellFormed(r.plan.toc) && DiscUpTo(disc, r.plan.toc, r.plan.toc.leadoutLba, pcm)
    && r.bytes == ResultBytes(hash, r.plan.toc, pcm)
  }

  // ---------------------------------------------------------------- one step

  /** The work outside append and confirm leaves the cursor and the bytes receipted. */
  predicate Steady(s: Sys, s': Sys) {
    && s'.receipt.bytes == s.receipt.bytes && s'.receipt.plan == s.receipt.plan
    && (s'.thread.Running? ==>
          s.thread.Running? && s'.thread.job == s.thread.job && s'.thread.core.nextLba == s.thread.core.nextLba)
  }

  lemma CallSteady(s: Sys, answer: Answer, toc: DiscToc)
    requires s.thread.Running? && InCall(s.thread.at)
    ensures Steady(s, CallStep(s, answer, toc))
  {
  }

  lemma ExecuteSteady(s: Sys, answer: Answer, bytes: seq<Byte>)
    requires s.thread.Running? && !InCall(s.thread.at)
    requires !Confirms(s, answer) && !(s.thread.at.AtAppend? && answer.Accepted?)
    ensures Steady(s, ExecuteStep(s, answer, bytes))
  {
  }

  lemma SteadyKeeps(disc: int -> Sample, hash: Sha256.Hash, s: Sys, s': Sys, h: History)
    requires Kept(disc, hash, s, h) && Steady(s, s')
    ensures Kept(disc, hash, s', h)
  {
  }

  /** The job goes on behind the block in hand. */
  predicate Appended(s: Sys, s': Sys)
    requires s.thread.Running? && s.thread.at.AtAppend?
  {
    && s'.thread.Running? && s'.thread.job == s.thread.job
    && s'.thread.core.nextLba == s.thread.core.nextLba + s.thread.at.frames
    && s'.receipt.bytes == s.receipt.bytes && s'.receipt.plan == s.receipt.plan
  }

  lemma AppendLeads(s: Sys, e: Event)
    requires s.thread.Running? && s.thread.at.AtAppend? && e.Work? && e.answer.Accepted? && Enabled(s, e)
    ensures Appended(s, RawNext(s, e))
  {
    RefreshLeaves(s, e.clock);
  }

  lemma UpToGrows(disc: int -> Sample, toc: DiscToc, next: int, frames: nat, pcm: seq<Sample>, block: seq<Sample>)
    requires DiscUpTo(disc, toc, next, pcm)
    requires |block| == frames * 1176 && ReadOffsets.FaithfulAt(disc, next, block)
    ensures DiscUpTo(disc, toc, next + frames, pcm + block)
  {
    ReaderStack.AppendedIsDisc(disc, FirstLba(toc), next, pcm, block);
  }

  lemma AppendRecords(s: Sys, step: Step, h: History)
    requires s.thread.Running? && s.thread.at.AtAppend? && step.e.Work? && step.e.answer.Accepted?
    ensures Recorded(s, step, h) == h.(pcm := h.pcm + step.pcm)
  {
  }

  /** A block of the disc appended takes the samples a block further. */
  lemma BlockKeeps(disc: int -> Sample, hash: Sha256.Hash, s: Sys, h: History, block: seq<Sample>, s': Sys)
    requires Kept(disc, hash, s, h) && s.thread.Running? && s.thread.at.AtAppend? && Appended(s, s')
    requires Delivers(disc, s, block)
    ensures Kept(disc, hash, s', h.(pcm := h.pcm + block))
  {
    UpToGrows(disc, s.thread.job.plan.toc, s.thread.core.nextLba, s.thread.at.frames, h.pcm, block);
    AnewKeeps(disc, hash, s, h, s', h.(pcm := h.pcm + block));
  }

  /** An accepted append takes the disc a block further. */
  lemma AppendKeeps(disc: int -> Sample, hash: Sha256.Hash, s: Sys, step: Step, h: History)
    requires Kept(disc, hash, s, h) && OfDisc(disc, hash, s, step, h) && step.e.Work? && Enabled(s, step.e)
    requires s.thread.Running? && s.thread.at.AtAppend? && step.e.answer.Accepted?
    ensures Kept(disc, hash, RawNext(s, step.e), Recorded(s, step, h))
  {
    AppendLeads(s, step.e);
    AppendRecords(s, step, h);
    BlockKeeps(disc, hash, s, h, step.pcm, RawNext(s, step.e));
  }

  /** The thread's samples seen to, the receipt's are those of before. */
  lemma AnewKeeps(disc: int -> Sample, hash: Sha256.Hash, s: Sys, h: History, s': Sys, h': History)
    requires Kept(disc, hash, s, h) && h'.kept == h.kept
    requires s'.receipt.bytes == s.receipt.bytes && s'.receipt.plan == s.receipt.plan
    requires s'.thread.Running? && DiscUpTo(disc, s'.thread.job.plan.toc, s'.thread.core.nextLba, h'.pcm)
    ensures Kept(disc, hash, s', h')
  {
  }

  /** Where a core is confirmed, it has taken every frame of the job the receipt is for. */
  lemma ConfirmsAtEnd(s: Sys)
    requires Inv(s) && s.thread.Running? && s.thread.at.AtConfirm?
    ensures s.thread.core.nextLba == s.thread.job.plan.toc.leadoutLba && s.thread.job.plan == s.receipt.plan
  {
  }

  lemma ConfirmLeads(s: Sys, e: Event)
    requires s.thread.Running? && e.Work? && Confirms(s, e.answer) && Enabled(s, e)
    ensures RawNext(s, e).thread == s.thread.(at := AtFinish, candidate := e.bytes)
    ensures RawNext(s, e).receipt == s.receipt.(finalTocMatched := true, bytes := e.bytes)
  {
  }

  /** An accepted confirmation hands back the manifest of the whole disc. */
  lemma ConfirmKeeps(disc: int -> Sample, hash: Sha256.Hash, s: Sys, step: Step, h: History)
    requires Inv(s) && Kept(disc, hash, s, h) && OfDisc(disc, hash, s, step, h) && step.e.Work? && Enabled(s, step.e)
    requires s.thread.Running? && Confirms(s, step.e.answer)
    ensures Kept(disc, hash, RawNext(s, step.e), Recorded(s, step, h))
  {
    ConfirmsAtEnd(s);
    ConfirmLeads(s, step.e);
    ConfirmDigests(disc, hash, s, step, h);
  }

  lemma ConfirmDigests(disc: int -> Sample, hash: Sha256.Hash, s: Sys, step: Step, h: History)
    requires s.thread.Running? && step.e.Work? && Confirms(s, step.e.answer)
    requires s.thread.job.plan == s.receipt.plan && s.thread.core.nextLba == s.thread.job.plan.toc.leadoutLba
    requires Kept(disc, hash, s, h) && OfDisc(disc, hash, s, step, h)
    ensures Digested(disc, hash, s.receipt.(finalTocMatched := true, bytes := step.e.bytes), h.pcm)
  {
  }

  /** Taking a job begins with nothing. */
  lemma TakeKeeps(disc: int -> Sample, hash: Sha256.Hash, s: Sys, h: History)
    requires Kept(disc, hash, s, h) && s.thread.Waiting? && s.m.queued.Some?
    ensures Kept(disc, hash, TakeJob(s), h.(pcm := []))
  {
    TakeLeads(s);
    AnewKeeps(disc, hash, s, h, TakeJob(s), h.(pcm := []));
  }

  lemma TakeLeads(s: Sys)
    requires s.thread.Waiting? && s.m.queued.Some?
    ensures TakeJob(s).receipt == s.receipt && TakeJob(s).thread.Running?
    ensures TakeJob(s).thread.core.nextLba == FirstLba(TakeJob(s).thread.job.plan.toc)
  {
  }

  lemma RefreshLeaves(s: Sys, clock: ClockRead)
    requires s.thread.Running?
    ensures RefreshFirst(s, clock).thread == s.thread && RefreshFirst(s, clock).receipt == s.receipt
  {
  }

  lemma WorkSteady(s: Sys, e: Event)
    requires s.thread.Running? && e.Work? && Enabled(s, e)
    requires !Confirms(s, e.answer) && !(s.thread.at.AtAppend? && e.answer.Accepted?)
    ensures Steady(s, RawNext(s, e))
  {
    var s1 := RefreshFirst(s, e.clock);
    RefreshLeaves(s, e.clock);
    if InCall(s.thread.at) { CallSteady(s1, e.answer, e.toc); } else { ExecuteSteady(s1, e.answer, e.bytes); }
  }

  lemma OtherWorkKeeps(disc: int -> Sample, hash: Sha256.Hash, s: Sys, step: Step, h: History)
    requires Kept(disc, hash, s, h) && s.thread.Running? && step.e.Work? && Enabled(s, step.e)
    requires !Confirms(s, step.e.answer) && !(s.thread.at.AtAppend? && step.e.answer.Accepted?)
    ensures Kept(disc, hash, RawNext(s, step.e), Recorded(s, step, h))
  {
    WorkSteady(s, step.e);
    SteadyKeeps(disc, hash, s, RawNext(s, step.e), h);
  }

  lemma StartLeads(s: Sys, step: Step, h: History)
    requires s.thread.Waiting? && step.e.Work? && Enabled(s, step.e)
    ensures s.m.queued.Some? && RawNext(s, step.e) == TakeJob(s) && Recorded(s, step, h) == h.(pcm := [])
  {
  }

  lemma StartWorkKeeps(disc: int -> Sample, hash: Sha256.Hash, s: Sys, step: Step, h: History)
    requires Kept(disc, hash, s, h) && s.thread.Waiting? && step.e.Work? && Enabled(s, step.e)
    ensures Kept(disc, hash, RawNext(s, step.e), Recorded(s, step, h))
  {
    StartLeads(s, step, h);
    TakeKeeps(disc, hash, s, h);
  }

  lemma WorkKeeps(disc: int -> Sample, hash: Sha256.Hash, s: Sys, step: Step, h: History)
    requires Inv(s) && Kept(disc, hash, s, h) && OfDisc(disc, hash, s, step, h)
    requires step.e.Work? && Enabled(s, step.e)
    ensures Kept(disc, hash, RawNext(s, step.e), Recorded(s, step, h))
  {
    if s.thread.Waiting? {
      StartWorkKeeps(disc, hash, s, step, h);
    } else if s.thread.at.AtAppend? && step.e.answer.Accepted? {
      AppendKeeps(disc, hash, s, step, h);
    } else {
      UnappendedKeeps(disc, hash, s, step, h);
    }
  }

  lemma UnappendedKeeps(disc: int -> Sample, hash: Sha256.Hash, s: Sys, step: Step, h: History)
    requires Inv(s) && Kept(disc, hash, s, h) && OfDisc(disc, hash, s, step, h)
    requires step.e.Work? && Enabled(s, step.e)
    requires s.thread.Running? && !(s.thread.at.AtAppend? && step.e.answer.Accepted?)
    ensures Kept(disc, hash, RawNext(s, step.e), Recorded(s, step, h))
  {
    if Confirms(s, step.e.answer) {
      ConfirmKeeps(disc, hash, s, step, h);
    } else {
      OtherWorkKeeps(disc, hash, s, step, h);
    }
  }

  /** The control side leaves the thread alone, and the receipt but for a new one. */
  lemma ControlLeaves(s: Sys, e: Event)
    requires Enabled(s, e) && !e.Work?
    ensures RawNext(s, e).thread == s.thread
    ensures RawNext(s, e).receipt == s.receipt || RawNext(s, e).receipt.bytes == []
  {
  }

  lemma StepKeeps(disc: int -> Sample, hash: Sha256.Hash, s: Sys, step: Step, h: History)
    requires Inv(s) && Kept(disc, hash, s, h) && OfDisc(disc, hash, s, step, h) && Enabled(s, step.e)
    ensures Kept(disc, hash, Next(s, step.e), Recorded(s, step, h))
  {
    if step.e.Work? { WorkKeeps(disc, hash, s, step, h); } else { ControlLeaves(s, step.e); }
    RevokedKeeps(disc, hash, RawNext(s, step.e), Recorded(s, step, h));
  }

  lemma RevokedKeeps(disc: int -> Sample, hash: Sha256.Hash, s: Sys, h: History)
    requires Kept(disc, hash, s, h)
    ensures Kept(disc, hash, s.(receipt := s.receipt.(revoked := true)), h)
  {
  }

  // ---------------------------------------------------------------- a whole run

  /** A run whose core is fed by the disc. */
  ghost predicate DiscRun(disc: int -> Sample, hash: Sha256.Hash, s: Sys, h: History, steps: seq<Step>)
    decreases |steps|
  {
    steps == [] ||
    (&& Enabled(s, steps[0].e) && OfDisc(disc, hash, s, steps[0], h)
     && DiscRun(disc, hash, Next(s, steps[0].e), Recorded(s, steps[0], h), steps[1..]))
  }

  function EventsOf(steps: seq<Step>): seq<Event> {
    if steps == [] then [] else [steps[0].e] + EventsOf(steps[1..])
  }

  lemma {:induction false} RunKeeps(disc: int -> Sample, hash: Sha256.Hash, s: Sys, h: History, steps: seq<Step>)
      returns (h': History)
    requires Inv(s) && Kept(disc, hash, s, h) && DiscRun(disc, hash, s, h, steps)
    ensures RunFrom(s, EventsOf(steps)).Some? && Kept(disc, hash, RunFrom(s, EventsOf(steps)).value, h')
    decreases |steps|
  {
    if steps == [] {
      h' := h;
    } else {
      NextKeepsInv(s, steps[0].e);
      StepKeeps(disc, hash, s, steps[0], h);
      h' := RunKeeps(disc, hash, Next(s, steps[0].e), Recorded(s, steps[0], h), steps[1..]);
      assert EventsOf(steps)[1..] == EventsOf(steps[1..]);
    }
  }

  /** The disc's own samples, from the first track to the lead-out. */
  function WholeDisc(disc: int -> Sample, toc: DiscToc): seq<Sample>
    requires FirstLba(toc) <= toc.leadoutLba
  {
    ReaderStack.DiscPcm(disc, FirstLba(toc), toc.leadoutLba - FirstLba(toc))
  }

  lemma DiscPcmIs(disc: int -> Sample, lba: int, frames: nat, pcm: seq<Sample>)
    requires |pcm| == frames * 1176 && ReadOffsets.FaithfulAt(disc, lba, pcm)
    ensures pcm == ReaderStack.DiscPcm(disc, lba, frames)
  {
    var all := ReaderStack.DiscPcm(disc, lba, frames);
    forall k | 0 <= k < |pcm| ensures pcm[k] == all[k] {
      assert pcm[k] == disc(lba * SAMPLES_PER_FRAME + k);
    }
  }

  lemma DigestedWhole(disc: int -> Sample, hash: Sha256.Hash, r: Receipt, pcm: seq<Sample>)
    requires Digested(disc, hash, r, pcm)
    ensures FirstLba(r.plan.toc) <= r.plan.toc.leadoutLba
    ensures r.bytes == ResultBytes(hash, r.plan.toc, WholeDisc(disc, r.plan.toc))
  {
    FirstBelowLeadout(r.plan.toc);
    DiscPcmIs(disc, FirstLba(r.plan.toc), r.plan.toc.leadoutLba - FirstLba(r.plan.toc), pcm);
  }

  /**
    Whatever the interleaving of calls, clock and device with a core fed by the disc: the bytes `result` returns are the
    manifest of the disc's own samples.
  */
  lemma ResultIsDisc(disc: int -> Sample, hash: Sha256.Hash, steps: seq<Step>, id: Identity)
    requires DiscRun(disc, hash, INITIAL, NO_HISTORY, steps)
    ensures Run(EventsOf(steps)).Some?
    ensures var s := Run(EventsOf(steps)).value;
            ResultOf(s.m, id) != [] ==>
              var toc := s.receipt.plan.toc;
              && s.receipt.plan.identity == id && WellFormed(toc) && FirstLba(toc) <= toc.leadoutLba
              && ResultOf(s.m, id) == ResultBytes(hash, toc, WholeDisc(disc, toc))
  {
    var h := RunKeeps(disc, hash, INITIAL, NO_HISTORY, steps);
    var s := Run(EventsOf(steps)).value;
    if ResultOf(s.m, id) != [] {
      DeliveredResultIsGood(EventsOf(steps), id);
      DigestedWhole(disc, hash, s.receipt, h.kept);
    }
  }
}
