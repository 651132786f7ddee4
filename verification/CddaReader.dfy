/**
  What a CD-audio reader answers (include/cdda_reader.hpp): the result of one
  read call and the evidence attached to it.
*/
module CddaReaders {
  import opened Basics

  datatype ReadStatus = ReadOk | ReadError

  datatype C2Status = C2Unknown | C2NotAvailable | C2NotChecked | C2Clean | C2Reported

  datatype Independence = UnknownIndependence | CachePossible | CacheMitigated

  datatype Overlap = NotRequested | NotChecked | StreamBoundary | Matched | Mismatched

  datatype Paranoia = Paranoia(blockReads: nat, verifies: nat, fixups: nat, skips: nat, readErrors: nat,
                               cacheErrors: nat, other: nat)

  const NO_EVENTS := Paranoia(0, 0, 0, 0, 0, 0, 0)

  /** One attempt of the repeated reader. */
  datatype Attempt = Attempt(framesRead: nat, complete: bool, nativeError: int, directRetries: nat,
                             candidate: Option<nat>, physicalStartLba: int, observedStartLba: int,
                             physicalFrames: nat, logicalStartLba: int, logicalFrames: nat)

  datatype Verification = Verification(attempts: nat, completeReads: nat, matchingReads: nat, mismatches: nat,
                                       timeBudgetExhausted: bool, details: seq<Attempt>,
                                       acceptedCandidate: Option<nat>, acceptedAttempt: Option<nat>,
                                       overlapRequested: nat, overlapCompared: nat, overlap: Overlap)

  const NO_VERIFICATION := Verification(0, 0, 0, 0, false, [], None, None, 0, 0, NotRequested)

  datatype PhysicalRead = PhysicalRead(startLba: int, framesRequested: nat, observedStartLba: int, framesRead: nat,
                                       nativeError: int)

  datatype OffsetEvidence = OffsetEvidence(samples: int, physical: Option<PhysicalRead>)

  datatype ReadResult = ReadResult(startLba: int, framesRequested: nat, framesRead: nat, status: ReadStatus,
                                   nativeError: int, retries: nat, paranoia: Paranoia, verification: Verification,
                                   independence: Independence, c2: C2Status, offset: Option<OffsetEvidence>)

  const EMPTY_RESULT := ReadResult(0, 0, 0, ReadError, EIO, 0, NO_EVENTS, NO_VERIFICATION, CachePossible, C2NotChecked,
                                   None)

  /** A call on a reader either returns, with the buffer as it left it, or throws. */
  datatype Answer = Returned(result: ReadResult, pcm: seq<Sample>) | Threw

  /** An answer, with the position the reader had been sent to. */
  datatype Reply = Reply(lba: int, result: ReadResult, pcm: seq<Sample>)

  const EIO: int := 5
  const ERANGE: int := 34
  const EPROTO: int := 71
  const EILSEQ: int := 84

  /** The retry policy of include/read_policy.hpp, as the repeated reader takes it. */
  datatype RepeatPolicy = RepeatPolicy(requiredMatches: nat, maximumAttempts: nat, timeBudgetMs: nat,
                                       overlapFrames: nat)

  const DEFAULT_OVERLAP_FRAMES: nat := 15

  predicate ValidRepeatPolicy(p: RepeatPolicy) {
    && 2 <= p.requiredMatches <= p.maximumAttempts <= 8
    && 1 <= p.timeBudgetMs <= 60000
    && p.overlapFrames <= 75
  }

  /** A reader underneath another: any answer, or an exception. */
  class InnerReader {
    /** Where it was last sent, and every answer it gave since it was made. */
    ghost var at: int
    ghost var answers: seq<Reply>

    constructor ()
      ensures answers == []
    {
      at, answers := 0, [];
    }

    method Seek(lba: int) returns (threw: bool)
      modifies this
      ensures at == lba && answers == old(answers)
    {
      at := lba;
      threw := *;
    }

    method Read(samples: nat) returns (a: Answer)
      modifies this
      ensures at == old(at) && (a.Threw? ==> answers == old(answers))
      ensures a.Returned? ==> |a.pcm| == samples && answers == old(answers) + [Reply(at, a.result, a.pcm)]
    {
      a := *;
      if a.Returned? && |a.pcm| != samples { a := Threw; }
      if a.Returned? { answers := answers + [Reply(at, a.result, a.pcm)]; }
    }
  }
}
