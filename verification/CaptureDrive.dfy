/**
  The block loop of a capture (src/complete_pcm_worker.cpp:282-312) in repeat
  mode: the repeated reader and the input model driven together, from the seek
  to the first track up to the lead-out.
*/
module CaptureDrives {
  import opened Basics
  import opened DiscTocs
  import opened CompletePcm
  import opened CddaReaders
  import opened RepeatedReads
  import opened ReadOffsets
  import opened LowerReaders
  import opened PcmInputs
  import opened PcmFeeds
  import opened ReaderStack

  /** The input model collects, and has been fed exactly what the blocks delivered. */
  ghost predicate Collects(input: CompletePcmInput, blocks: seq<Delivered>)
    reads input
  {
    && input.Valid() && input.state == Collecting && input.toc.leadoutLba <= MAX_I32
    && input.policy.mode == Repeat && ValidReadPolicy(input.policy, BUFFER_FRAMES)
    && Cursor(input.toc, input.nextLba, input.precedingFrames)
    && InStep(blocks, FirstLba(input.toc)) && input.stray == 0 && input.accepted == Captured(blocks)
    && input.nextLba == FirstLba(input.toc) + CapturedFrames(blocks)
  }

  /** The readers are stacked as the worker stacks them: over an offset reader with offset 0 for this disc. */
  predicate Stacked(verifier: RepeatedReadVerifier, toc: DiscToc)
    requires toc.tracks != []
  {
    verifier.inner.shift != null && MakeWindow(FirstLba(toc), toc.leadoutLba, 0) == Some(verifier.inner.shift.window)
  }

  /** The reader stands where the input model does. */
  ghost predicate Beside(verifier: RepeatedReadVerifier, policy: ReadPolicy, nextLba: int, preceding: nat)
    reads verifier, verifier.inner, verifier.inner.shift
  {
    && verifier.Valid() && verifier.positioned && verifier.policy == Repeated(policy)
    && Lockstep(verifier.Asked(0), nextLba, preceding)
  }

  ghost predicate Together(input: CompletePcmInput, verifier: RepeatedReadVerifier, blocks: seq<Delivered>)
    reads input, verifier, verifier.inner, verifier.inner.shift
  {
    && Collects(input, blocks) && Stacked(verifier, input.toc)
    && Beside(verifier, input.policy, input.nextLba, input.precedingFrames)
  }

  /** What a clock has said since some time, it has said since any earlier one. */
  lemma SinceBefore(first: seq<ClockRead>, later: seq<ClockRead>, now: seq<ClockRead>)
    requires first <= later <= now
    ensures ClockThrew in now[|later|..] ==> ClockThrew in now[|first|..]
  {
    assert now[|first|..][|later| - |first|..] == now[|later|..];
  }

  /** The reader underneath, or the clock of the repeated reader, has thrown since. */
  ghost predicate Threw(verifier: RepeatedReadVerifier, throws: nat, readings: seq<ClockRead>)
    reads verifier, verifier.inner, verifier.clock
  {
    || throws != verifier.inner.throws
    || (readings <= verifier.clock.readings && ClockThrew in verifier.clock.readings[|readings|..])
  }

  /** The repeated reader has read, and hands out nothing. */
  ghost predicate Failed(d: Delivered) { Verdict(d.q, d.seen, d.r) && d.r.status != ReadOk }

  /**
    How a block's turn ends; the clock's exception leaves a collecting input behind, which the worker then gives up.
  */
  datatype Turn = Taken | NoAnswer | Lost | Stopped | ClockFailed

  /** The frames of the next block. */
  function NextFrames(policy: ReadPolicy, nextLba: int, leadout: int): nat
    requires nextLba < leadout
  {
    Min(BlockFrames(policy), leadout - nextLba)
  }

  /** Inside the disc, whatever the reader below answers comes through the offset reader. */
  lemma AnswersAreStacked(verifier: RepeatedReadVerifier, toc: DiscToc, nextLba: int, preceding: nat, d: Delivered)
    requires Cursor(toc, nextLba, preceding) && Stacked(verifier, toc) && Lockstep(d.q, nextLba, preceding)
    requires 0 < d.q.frames && nextLba + d.q.frames <= toc.leadoutLba
    requires Explained(verifier.inner, d.q.Range(), d.seen)
    ensures FromStack(toc, d)
  {
    RangeStaysOnDisc(toc, d.q, nextLba, preceding);
    var w := verifier.inner.shift.window;
    assert Inside(w, d.q.Range());
    forall s | s in d.seen ensures FromOffset(w, d.q.Range(), s) {
      assert verifier.inner.Explains(d.q.Range(), s);
    }
  }

  /** Only an exception keeps the repeated reader from an answer, and an answer is one of its verdicts. */
  ghost predicate Answers(verifier: RepeatedReadVerifier, r: Option<ReadResult>, d: Delivered, readable: bool,
                          throws: nat, readings: seq<ClockRead>)
    reads verifier, verifier.inner, verifier.clock
  {
    && readings <= verifier.clock.readings
    && (readable && r.None? ==> Threw(verifier, throws, readings))
    && (r.Some? ==> verifier.inner.throws == throws && Verdict(d.q, d.seen, d.r))
  }

  /** One read of the next block: what comes out is a delivery at the reader's position, or nothing. */
  method ReadDelivery(verifier: RepeatedReadVerifier, frames: nat, ghost policy: ReadPolicy, ghost nextLba: int,
                      ghost preceding: nat)
      returns (r: Option<ReadResult>, pcm: seq<Sample>, ghost d: Delivered)
    requires Beside(verifier, policy, nextLba, preceding) && 0 < frames
    modifies verifier, verifier.inner, verifier.inner.shift, verifier.inner.drive, verifier.clock
    ensures d.pcm == pcm && (r.Some? ==> d.r == r.value) && d.q == old(verifier.Asked(frames))
    ensures Explained(verifier.inner, d.q.Range(), d.seen)
    ensures Answers(verifier, r, d, old(verifier.Readable(frames * 1176)), old(verifier.inner.throws),
                    old(verifier.clock.readings))
    ensures r.Some? && r.value.status == ReadOk ==> Delivery(d) && Beside(verifier, policy, nextLba + frames, frames)
  {
    var buffer := new Sample[frames * 1176](_ => 0);
    ghost var q := verifier.Asked(frames);
    ghost var seen, times;
    r, seen, times := verifier.Read(buffer);
    pcm := buffer[..];
    TailFrames(verifier.policy.overlapFrames, frames);
    d := Delivered(q, seen, if r.Some? then r.value else EMPTY_RESULT, pcm);
  }

  lemma TailFrames(overlap: nat, frames: nat)
    ensures Min(overlap * 1176, frames * 1176) == Min(overlap, frames) * 1176
  {
  }

  /** The reading half of a turn, over the stack. */
  method ReadBlock(verifier: RepeatedReadVerifier, frames: nat, ghost toc: DiscToc, ghost policy: ReadPolicy,
                   ghost nextLba: int, ghost preceding: nat)
      returns (r: Option<ReadResult>, pcm: seq<Sample>, ghost d: Delivered)
    requires Beside(verifier, policy, nextLba, preceding) && Cursor(toc, nextLba, preceding) && Stacked(verifier, toc)
    requires 0 < frames && nextLba + frames <= toc.leadoutLba
    modifies verifier, verifier.inner, verifier.inner.shift, verifier.inner.drive, verifier.clock
    ensures d.pcm == pcm && (r.Some? ==> d.r == r.value) && FromStack(toc, d)
    ensures d.q.policy == Repeated(policy) && d.q.frames == frames && Lockstep(d.q, nextLba, preceding)
    ensures Answers(verifier, r, d, toc.leadoutLba <= MAX_I32, old(verifier.inner.throws), old(verifier.clock.readings))
    ensures r.Some? && r.value.status == ReadOk ==> Delivery(d) && Beside(verifier, policy, nextLba + frames, frames)
  {
    r, pcm, d := ReadDelivery(verifier, frames, policy, nextLba, preceding);
    AnswersAreStacked(verifier, toc, nextLba, preceding, d);
  }

  /** The appending half of a turn. */
  method AppendBlock(input: CompletePcmInput, current: Identity, r: ReadResult, pcm: seq<Sample>) returns (turn: Turn)
    requires input.Valid() && input.state == Collecting
    modifies input, input.scratch
    ensures input.Valid() && turn != NoAnswer && (turn.Taken? || turn.ClockFailed? <==> input.state == Collecting)
    ensures turn.Lost? <==> input.failure == ReadFailed
    ensures OfBlock(input.failure) ==> (turn.Lost? <==> r.status != ReadOk)
    ensures turn.Taken? ==>
              r.status == ReadOk && input.accepted == old(input.accepted) + pcm && input.stray == old(input.stray)
    ensures turn.Taken? ==> input.nextLba == old(input.nextLba) + r.framesRead && input.precedingFrames == r.framesRead
    ensures Admissible(input.policy, old(input.nextLba), input.toc.leadoutLba, old(input.precedingFrames), r, |pcm|)
            ==> !OfBlock(input.failure)
    ensures input.Calm() && current == input.identity && turn != Taken
            && old(input.Fits(r, |pcm|)) ==>
              input.EndedByClock(0)
  {
    var passage := input.Append(current, r, pcm);
    turn := match passage
            case Passed => Taken
            case Refused => if input.failure == ReadFailed then Lost else Stopped
            case Thrown => ClockFailed;
  }

  lemma DeliveryAdmissible(toc: DiscToc, policy: ReadPolicy, nextLba: int, preceding: nat, d: Delivered)
    requires Cursor(toc, nextLba, preceding) && policy.mode == Repeat && ValidReadPolicy(policy, BUFFER_FRAMES)
    requires d.q.policy == Repeated(policy) && Lockstep(d.q, nextLba, preceding) && Delivery(d)
    requires 0 < d.q.frames <= policy.regionFrames && nextLba + d.q.frames <= toc.leadoutLba
    requires FromStack(toc, d)
    ensures Admissible(policy, nextLba, toc.leadoutLba, preceding, d.r, |d.pcm|)
  {
    RepeatedBlockAdmissible(toc, policy, d.q, nextLba, preceding, d.seen, d.r);
  }

  /** A delivered block is never refused for what it is. */
  method TakeDelivery(input: CompletePcmInput, current: Identity, r: ReadResult, pcm: seq<Sample>, ghost d: Delivered,
                      ghost blocks: seq<Delivered>)
      returns (turn: Turn)
    requires Collects(input, blocks) && Delivery(d) && d.r == r && d.pcm == pcm && FromStack(input.toc, d)
    requires d.q.policy == Repeated(input.policy) && Lockstep(d.q, input.nextLba, input.precedingFrames)
    requires 0 < d.q.frames <= input.policy.regionFrames && input.nextLba + d.q.frames <= input.toc.leadoutLba
    modifies input, input.scratch
    ensures input.Valid() && turn != NoAnswer && turn != Lost
    ensures turn.Taken? || turn.ClockFailed? <==> input.state == Collecting
    ensures InStep(blocks + [d], FirstLba(input.toc)) && (turn.Taken? ==> Collects(input, blocks + [d]))
    ensures turn.Taken? ==> input.nextLba == old(input.nextLba) + d.q.frames && input.precedingFrames == d.q.frames
    ensures !OfBlock(input.failure)
    ensures input.Calm() && current == input.identity && turn != Taken ==> input.EndedByClock(0)
  {
    OneMoreBlock(blocks, FirstLba(input.toc), d);
    DeliveryAdmissible(input.toc, input.policy, input.nextLba, input.precedingFrames, d);
    turn := AppendBlock(input, current, r, pcm);
  }

  /** What follows a read: the block is appended, even one that failed. */
  method FinishTurn(input: CompletePcmInput, current: Identity, r: Option<ReadResult>, pcm: seq<Sample>,
                    ghost d: Delivered, ghost blocks: seq<Delivered>)
      returns (turn: Turn, ghost delivered: seq<Delivered>)
    requires Collects(input, blocks) && d.pcm == pcm && (r.Some? ==> d.r == r.value)
    requires r.Some? && r.value.status == ReadOk ==>
               && Delivery(d) && FromStack(input.toc, d)
               && d.q.policy == Repeated(input.policy) && Lockstep(d.q, input.nextLba, input.precedingFrames)
               && 0 < d.q.frames <= input.policy.regionFrames && input.nextLba + d.q.frames <= input.toc.leadoutLba
    modifies input, input.scratch
    ensures Ended(input, turn, delivered) && (turn.Lost? || turn.NoAnswer? ==> delivered == blocks)
    ensures (turn.NoAnswer? <==> r.None?) && (turn.Lost? ==> r.Some? && r.value.status != ReadOk)
    ensures r.Some? && r.value.status == ReadOk && turn != Taken && input.Calm() && current == input.identity ==>
              input.EndedByClock(0)
    ensures turn.Taken? ==> r.Some? && r.value.status == ReadOk && Collects(input, delivered)
    ensures turn.Taken? ==> input.nextLba == old(input.nextLba) + d.q.frames && input.precedingFrames == d.q.frames
  {
    delivered := blocks;
    if r.None? { return NoAnswer, delivered; }
    if r.value.status == ReadOk {
      delivered := blocks + [d];
      turn := TakeDelivery(input, current, r.value, pcm, d, blocks);
    } else {
      turn := AppendBlock(input, current, r.value, pcm);
    }
  }

  /** Only a read that failed is ever refused for what it is. */
  ghost predicate Ended(input: CompletePcmInput, turn: Turn, delivered: seq<Delivered>)
    reads input
  {
    && input.Valid() && InStep(delivered, FirstLba(input.toc))
    && (turn.Taken? || turn.NoAnswer? || turn.ClockFailed? <==> input.state == Collecting)
    && (turn.Lost? <==> input.failure == ReadFailed) && (OfBlock(input.failure) ==> turn.Lost?)
  }

  /** One turn of the loop. */
  method CaptureBlock(input: CompletePcmInput, verifier: RepeatedReadVerifier, current: Identity,
                      ghost blocks: seq<Delivered>)
      returns (turn: Turn, ghost delivered: seq<Delivered>, ghost last: Delivered)
    requires Together(input, verifier, blocks) && input.nextLba < input.toc.leadoutLba
    modifies input, input.scratch, verifier, verifier.inner, verifier.inner.shift, verifier.inner.drive, verifier.clock
    ensures Ended(input, turn, delivered)
    ensures turn.Taken? ==> Together(input, verifier, delivered) && old(input.nextLba) < input.nextLba
    ensures old(verifier.clock.readings) <= verifier.clock.readings
    ensures Excused(input, verifier, current, turn, last, old(verifier.inner.throws), old(verifier.clock.readings))
  {
    var frames := NextFrames(input.policy, input.nextLba, input.toc.leadoutLba);
    var r, pcm;
    r, pcm, last := ReadBlock(verifier, frames, input.toc, input.policy, input.nextLba, input.precedingFrames);
    turn, delivered := FinishTurn(input, current, r, pcm, last, blocks);
  }

  /**
    A block that is not taken has its cause outside: an exception underneath, a verdict of the repeated reader that
    hands out nothing, or, with a calm consumer and the job's own identity, a reading of the input's clock.
  */
  ghost predicate Excused(input: CompletePcmInput, verifier: RepeatedReadVerifier, current: Identity, turn: Turn,
                          last: Delivered, throws: nat, readings: seq<ClockRead>)
    reads input, verifier, verifier.inner, verifier.clock
  {
    match turn
    case Taken => verifier.inner.throws == throws
    case NoAnswer => Threw(verifier, throws, readings)
    case Lost => Failed(last)
    case _ => Failed(last) || (input.Calm() && current == input.identity ==> input.EndedByClock(0))
  }

  lemma ConsumedIsCaptured(input: CompletePcmInput, delivered: seq<Delivered>)
    requires Collects(input, delivered)
    ensures Consumed(input, delivered)
  {
    forall i: nat | i < |input.toc.tracks|
      ensures BytesOf(input.log, input.toc.tracks[i].number) == Encode(TrackPcm(input.toc, i, Captured(delivered)))
    {
      input.TrackIsExact(i);
    }
  }

  /** What the consumer was handed for each track is what the blocks delivered of it. */
  ghost predicate Consumed(input: CompletePcmInput, delivered: seq<Delivered>)
    requires WellFormed(input.toc)
    reads input
  {
    forall i: nat :: i < |input.toc.tracks| ==>
      BytesOf(input.log, input.toc.tracks[i].number) == Encode(TrackPcm(input.toc, i, Captured(delivered)))
  }

  /** The loop, from a seek to the first track. */
  method CaptureBlocks(input: CompletePcmInput, verifier: RepeatedReadVerifier, current: Identity)
      returns (turn: Turn, ghost delivered: seq<Delivered>, ghost last: Delivered)
    requires Together(input, verifier, [])
    modifies input, input.scratch, verifier, verifier.inner, verifier.inner.shift, verifier.inner.drive, verifier.clock
    ensures input.Valid() && Ended(input, turn, delivered)
    ensures turn.Taken? ==> Together(input, verifier, delivered) && input.nextLba == input.toc.leadoutLba
    ensures Excused(input, verifier, current, turn, last, old(verifier.inner.throws), old(verifier.clock.readings))
  {
    delivered := [];
    turn := Taken;
    last := Delivered(verifier.Asked(0), [], EMPTY_RESULT, []);
    while turn.Taken? && input.nextLba < input.toc.leadoutLba
      invariant Ended(input, turn, delivered)
      invariant turn.Taken? ==> Together(input, verifier, delivered)
      invariant old(verifier.clock.readings) <= verifier.clock.readings
      invariant Excused(input, verifier, current, turn, last, old(verifier.inner.throws),
                        old(verifier.clock.readings))
      decreases if turn.Taken? then 1 else 0, input.toc.leadoutLba - input.nextLba
    {
      ghost var readings := verifier.clock.readings;
      turn, delivered, last := CaptureBlock(input, verifier, current, delivered);
      SinceBefore(old(verifier.clock.readings), readings, verifier.clock.readings);
    }
  }

  /**
    The whole loop: seek to the first track, then blocks up to the lead-out. Taken means the lead-out was reached, with
    every block taken; the two cursors were together at every turn. A block handed out is never refused for what it is.
  */
  method Capture(input: CompletePcmInput, verifier: RepeatedReadVerifier, current: Identity)
      returns (turn: Turn, ghost delivered: seq<Delivered>, ghost last: Delivered)
    requires input.Valid() && input.state == Collecting && input.accepted == [] && input.stray == 0
    requires input.nextLba == FirstLba(input.toc) && input.precedingFrames == 0 && input.toc.leadoutLba <= MAX_I32
    requires input.policy.mode == Repeat && ValidReadPolicy(input.policy, BUFFER_FRAMES)
    requires verifier.Valid() && verifier.policy == Repeated(input.policy) && Stacked(verifier, input.toc)
    modifies input, input.scratch, verifier, verifier.inner, verifier.inner.shift, verifier.inner.drive, verifier.clock
    ensures input.Valid() && InStep(delivered, FirstLba(input.toc))
    ensures turn.Taken? ==> Together(input, verifier, delivered) && input.nextLba == input.toc.leadoutLba
    ensures turn.Taken? ==> CapturedFrames(delivered) == SpanFrames(input.toc) && Consumed(input, delivered)
    ensures OfBlock(input.failure) ==> turn.Lost? && input.failure == ReadFailed
    ensures Excused(input, verifier, current, turn, last, old(verifier.inner.throws), old(verifier.clock.readings))
  {
    last := Delivered(verifier.Asked(0), [], EMPTY_RESULT, []);
    FirstNotNegative(input.toc);
    var threw := verifier.Seek(input.nextLba);
    if threw { return NoAnswer, [], last; }
    AtFirstTrack(input, verifier);
    turn, delivered, last := CaptureBlocks(input, verifier, current);
    if turn.Taken? { ConsumedIsCaptured(input, delivered); }
  }

  lemma AtFirstTrack(input: CompletePcmInput, verifier: RepeatedReadVerifier)
    requires input.Valid() && input.state == Collecting && input.accepted == [] && input.stray == 0
    requires input.nextLba == FirstLba(input.toc) && input.precedingFrames == 0
    requires input.policy.mode == Repeat && ValidReadPolicy(input.policy, BUFFER_FRAMES)
    requires verifier.Valid() && verifier.policy == Repeated(input.policy) && Stacked(verifier, input.toc)
    requires verifier.positioned && verifier.position == input.nextLba && verifier.priorTail == []
    ensures Together(input, verifier, [])
  {
  }

  lemma FirstNotNegative(toc: DiscToc)
    requires WellFormed(toc)
    ensures 0 <= FirstLba(toc) < toc.leadoutLba
  {
    StartsIncrease(toc, 0, 0);
  }

  /**
    What the consumer was handed for each track by a whole capture is that track of the disc, sample for sample, if
    fewer than the required matches of each block's complete reads were corrupt.
  */
  lemma ConsumedIsDisc(toc: DiscToc, blocks: seq<Delivered>, disc: int -> Sample, i: nat, k: nat, bytes: seq<Byte>)
    requires WellFormed(toc) && i < |toc.tracks| && k < toc.tracks[i].lengthFrames * 1176
    requires InStep(blocks, FirstLba(toc)) && forall d :: d in blocks ==> Clean(disc, d)
    requires CapturedFrames(blocks) == SpanFrames(toc) && bytes == Encode(TrackPcm(toc, i, Captured(blocks)))
    ensures |Decode(bytes)| == toc.tracks[i].lengthFrames * 1176
    ensures Decode(bytes)[k] == disc(toc.tracks[i].startLba * SAMPLES_PER_FRAME + k)
  {
    EncodeRoundTrip(TrackPcm(toc, i, Captured(blocks)));
    TrackIsDisc(disc, toc, blocks, i, k);
  }
}
