/**
  The readers stacked as a capture stacks them: the repeated reader over the
  offset reader with offset 0, driven from the input model's cursor. Each
  layer is represented by the relation its own method is proved to establish.
*/
module ReaderStack {
  import opened Basics
  import opened DiscTocs
  import opened CompletePcm
  import opened CddaReaders
  import opened Votings
  import opened RepeatedReads
  import opened ReadOffsets
  import opened LowerReaders
  import opened PcmInputs
  import opened PcmFeeds

  /** The verifier stands where the input model does: same position, and the tail of the block before it. */
  predicate Lockstep(q: Request, nextLba: int, preceding: nat) {
    q.position == nextLba && |q.tail| == Min(q.policy.overlapFrames, preceding) * 1176
  }

  /** The input model at work: what it has taken lies between the first track and the cursor. */
  predicate Cursor(toc: DiscToc, nextLba: int, preceding: nat) {
    WellFormed(toc) && FirstLba(toc) + preceding <= nextLba <= toc.leadoutLba
  }

  /** The verifier's own physical range never leaves the disc, so the seek below it is never refused. */
  lemma RangeStaysOnDisc(toc: DiscToc, q: Request, nextLba: int, preceding: nat)
    requires Cursor(toc, nextLba, preceding) && Lockstep(q, nextLba, preceding)
    requires 0 < q.frames && nextLba + q.frames <= toc.leadoutLba
    ensures var w := MakeWindow(FirstLba(toc), toc.leadoutLba, 0).value;
            && FirstLba(toc) <= q.Range().start && q.Range().start + q.Range().frames <= toc.leadoutLba
            && w.playableBegin <= q.Range().start < w.playableEnd
            && q.Range().frames <= w.playableEnd - q.Range().start
  {
    assert q.Overlap() == Min(q.policy.overlapFrames, preceding);
    ZeroOffset(FirstLba(toc), toc.leadoutLba);
  }

  /** Offset 0 makes the whole disc playable, and shifts nothing. */
  lemma ZeroOffset(begin: int, end: int)
    requires 0 <= begin < end
    ensures var w := MakeWindow(begin, end, 0).value;
            && w.playableBegin == begin && w.playableEnd == end && w.offset == 0
  {
  }

  lemma {:induction false} OffsetIsReported(w: OffsetWindow, range: Window, seen: seq<Seen>)
    requires forall s :: s in seen ==> FromOffset(w, range, s)
    ensures seen != [] ==> LastOffset(seen) == Some(OffsetEvidence(w.offset, None))
  {
    if seen != [] {
      var s := seen[|seen| - 1];
      assert s in seen;
      var raw :| Shifted(w, range.start, range.frames, raw, s.result, s.pcm);
    }
  }

  /** Every block the repeated stack delivers passes all of the input model's checks. */
  lemma RepeatedBlockAdmissible(toc: DiscToc, policy: ReadPolicy, q: Request, nextLba: int, preceding: nat,
                                seen: seq<Seen>, r: ReadResult)
    requires Cursor(toc, nextLba, preceding) && policy.mode == Repeat && ValidReadPolicy(policy, BUFFER_FRAMES)
    requires q.policy == Repeated(policy) && Lockstep(q, nextLba, preceding)
    requires 0 < q.frames <= policy.regionFrames && nextLba + q.frames <= toc.leadoutLba
    requires var w := MakeWindow(FirstLba(toc), toc.leadoutLba, 0).value;
             forall s :: s in seen ==> FromOffset(w, q.Range(), s)
    requires Verdict(q, seen, r) && r.status == ReadOk
    ensures Admissible(policy, nextLba, toc.leadoutLba, preceding, r, q.frames * 1176)
  {
    var w := MakeWindow(FirstLba(toc), toc.leadoutLba, 0).value;
    EvidenceConsistent(q, seen, r);
    OffsetIsReported(w, q.Range(), seen);
    ZeroOffset(FirstLba(toc), toc.leadoutLba);
    assert q.Overlap() == ComparedOverlap(policy, preceding);
  }

  /** So does every block the plain stack delivers in single-read mode. */
  lemma SingleBlockAdmissible(toc: DiscToc, policy: ReadPolicy, nextLba: int, preceding: nat, frames: nat,
                              raw: Seen, r: ReadResult, pcm: seq<Sample>)
    requires Cursor(toc, nextLba, preceding) && policy.mode == Single
    requires 0 < frames <= BlockFrames(policy) && nextLba + frames <= toc.leadoutLba
    requires var w := MakeWindow(FirstLba(toc), toc.leadoutLba, 0).value;
             Shifted(w, nextLba, frames, raw, r, pcm)
    requires r.status == ReadOk
    ensures Admissible(policy, nextLba, toc.leadoutLba, preceding, r, |pcm|)
  {
    ZeroOffset(FirstLba(toc), toc.leadoutLba);
  }

  /**
    With fewer than `requiredMatches` corrupt complete reads, the delivered block is the disc's own, sample for sample;
    no assumption is made on how the drive misbehaves otherwise.
  */
  lemma DeliveredIsDisc(q: Request, seen: seq<Seen>, r: ReadResult, disc: int -> Sample, truth: seq<Sample>,
                        pcm: seq<Sample>)
    requires Verdict(q, seen, r) && r.status == ReadOk && |q.tail| % 1176 == 0
    requires FaithfulAt(disc, q.Range().start, truth)
    requires seen[|seen| - 1].pcm == q.tail + pcm
    requires Others(q.Range(), seen, truth) < q.policy.requiredMatches
    ensures FaithfulAt(disc, q.position, pcm)
  {
    AcceptedIsTrue(q, seen, r, truth);
    FaithfulSuffix(disc, q.Range().start, q.tail, q.Overlap(), pcm);
  }

  lemma FaithfulSuffix(disc: int -> Sample, start: int, tail: seq<Sample>, n: nat, pcm: seq<Sample>)
    requires |tail| == n * 1176 && FaithfulAt(disc, start, tail + pcm)
    ensures FaithfulAt(disc, start + n, pcm)
  {
    forall k | 0 <= k < |pcm| ensures pcm[k] == disc((start + n) * SAMPLES_PER_FRAME + k) {
      assert (tail + pcm)[|tail| + k] == pcm[k];
    }
  }

  /** A capture built from such blocks is the disc's program area. */
  lemma AppendedIsDisc(disc: int -> Sample, first: int, nextLba: int, pcm: seq<Sample>, block: seq<Sample>)
    requires first <= nextLba && |pcm| == (nextLba - first) * 1176
    requires FaithfulAt(disc, first, pcm) && FaithfulAt(disc, nextLba, block)
    ensures FaithfulAt(disc, first, pcm + block)
  {
  }

  // ---------------------------------------------------------------- a whole capture

  /** One block of a capture: what was asked, what the attempts answered, and what came out. */
  datatype Delivered = Delivered(q: Request, seen: seq<Seen>, r: ReadResult, pcm: seq<Sample>)

  /** The verifier handed the block out. */
  ghost predicate Delivery(d: Delivered) {
    && Verdict(d.q, d.seen, d.r) && d.r.status == ReadOk && |d.q.tail| % 1176 == 0
    && d.seen[|d.seen| - 1].pcm == d.q.tail + d.pcm && |d.pcm| == d.q.frames * 1176
  }

  /** Every answer its attempts saw came from an offset reader with offset 0. */
  ghost predicate FromStack(toc: DiscToc, d: Delivered)
    requires toc.tracks != []
  {
    var w := MakeWindow(FirstLba(toc), toc.leadoutLba, 0);
    w.Some? && forall s :: s in d.seen ==> FromOffset(w.value, d.q.Range(), s)
  }

  function Captured(blocks: seq<Delivered>): seq<Sample> {
    if blocks == [] then [] else Captured(blocks[..|blocks| - 1]) + blocks[|blocks| - 1].pcm
  }

  function CapturedFrames(blocks: seq<Delivered>): nat {
    if blocks == [] then 0 else CapturedFrames(blocks[..|blocks| - 1]) + blocks[|blocks| - 1].q.frames
  }

  /** Each block was handed out where the ones before it ended. */
  ghost predicate InStep(blocks: seq<Delivered>, first: int) {
    blocks == [] ||
    (var front, last := blocks[..|blocks| - 1], blocks[|blocks| - 1];
     InStep(front, first) && Delivery(last) && last.q.position == first + CapturedFrames(front))
  }

  lemma OneMoreBlock(blocks: seq<Delivered>, first: int, d: Delivered)
    requires InStep(blocks, first) && Delivery(d) && d.q.position == first + CapturedFrames(blocks)
    ensures InStep(blocks + [d], first) && Captured(blocks + [d]) == Captured(blocks) + d.pcm
    ensures CapturedFrames(blocks + [d]) == CapturedFrames(blocks) + d.q.frames
  {
    assert (blocks + [d])[..|blocks|] == blocks;
  }

  /** The disc's own samples. */
  function DiscPcm(disc: int -> Sample, lba: int, frames: nat): (pcm: seq<Sample>)
    ensures |pcm| == frames * 1176 && FaithfulAt(disc, lba, pcm)
  {
    seq(frames * 1176, k => disc(lba * SAMPLES_PER_FRAME + k))
  }

  /** Fewer than the required matches of the block's complete reads differ from the disc. */
  predicate Clean(disc: int -> Sample, d: Delivered) {
    Others(d.q.Range(), d.seen, DiscPcm(disc, d.q.Range().start, d.q.Range().frames)) < d.q.policy.requiredMatches
  }

  /** Whatever the drive did besides, the capture is the disc's samples from the first track on. */
  lemma {:induction false} CaptureIsDisc(disc: int -> Sample, blocks: seq<Delivered>, first: int)
    requires InStep(blocks, first) && forall d :: d in blocks ==> Clean(disc, d)
    ensures |Captured(blocks)| == CapturedFrames(blocks) * 1176 && FaithfulAt(disc, first, Captured(blocks))
  {
    if blocks != [] {
      var front, last := blocks[..|blocks| - 1], blocks[|blocks| - 1];
      assert last in blocks && Clean(disc, last);
      CaptureIsDisc(disc, front, first);
      var truth := DiscPcm(disc, last.q.Range().start, last.q.Range().frames);
      DeliveredIsDisc(last.q, last.seen, last.r, disc, truth, last.pcm);
      AppendedIsDisc(disc, first, last.q.position, Captured(front), last.pcm);
    }
  }

  /** So every track the consumer digests is that track of the disc, sample for sample. */
  lemma TrackIsDisc(disc: int -> Sample, toc: DiscToc, blocks: seq<Delivered>, i: nat, k: nat)
    requires WellFormed(toc) && i < |toc.tracks|
    requires InStep(blocks, FirstLba(toc)) && forall d :: d in blocks ==> Clean(disc, d)
    requires CapturedFrames(blocks) == SpanFrames(toc)
    requires k < toc.tracks[i].lengthFrames * 1176
    ensures |TrackPcm(toc, i, Captured(blocks))| == toc.tracks[i].lengthFrames * 1176
    ensures TrackPcm(toc, i, Captured(blocks))[k] == disc(toc.tracks[i].startLba * SAMPLES_PER_FRAME + k)
  {
    CaptureIsDisc(disc, blocks, FirstLba(toc));
    StartsIncrease(toc, 0, i);
    TrackSlice(disc, toc, i, Captured(blocks), k);
  }

  lemma TrackSlice(disc: int -> Sample, toc: DiscToc, i: nat, pcm: seq<Sample>, k: nat)
    requires WellFormed(toc) && i < |toc.tracks| && k < toc.tracks[i].lengthFrames * 1176
    requires FirstLba(toc) <= toc.tracks[i].startLba && toc.tracks[i].EndLba() <= toc.leadoutLba
    requires |pcm| == (toc.leadoutLba - FirstLba(toc)) * 1176 && FaithfulAt(disc, FirstLba(toc), pcm)
    ensures |TrackPcm(toc, i, pcm)| == toc.tracks[i].lengthFrames * 1176
    ensures TrackPcm(toc, i, pcm)[k] == disc(toc.tracks[i].startLba * SAMPLES_PER_FRAME + k)
  {
    CutFrames(toc, toc.tracks[i].startLba, toc.leadoutLba);
    CutFrames(toc, toc.tracks[i].EndLba(), toc.leadoutLba);
    var at := (toc.tracks[i].startLba - FirstLba(toc)) * SAMPLES_PER_FRAME;
    assert TrackPcm(toc, i, pcm)[k] == pcm[at + k];
  }
}
