/**
  Reading with a sample offset (include/read_offset.hpp, src/read_offset.cpp):
  the window of CD frames that can be produced, a reader that shifts by
  samples over a reader that only knows frames, and the split of the disc that
  src/daemon_snapshot_json.cpp reports.
*/
module ReadOffsets {
  import opened Basics
  import opened CddaReaders
  import opened Votings

  /** Samples here are stereo samples, 588 to a CD frame. */
  datatype OffsetWindow = OffsetWindow(offset: int, discBegin: int, discEnd: int,
                                       correctableBegin: int, correctableEnd: int,
                                       playableBegin: int, playableEnd: int) {
    predicate Playable() { playableBegin < playableEnd }
  }

  function MakeWindow(begin: int, end: int, offset: int): Option<OffsetWindow> {
    if begin < 0 || end <= begin then None
    else
      var discBegin, discEnd := begin * STEREO_PER_FRAME, end * STEREO_PER_FRAME;
      var first := Clamp(discBegin - offset, discBegin, discEnd);
      var last := Clamp(discEnd - offset, discBegin, discEnd);
      Some(OffsetWindow(offset, discBegin, discEnd, first, last,
                        (first + 587) / STEREO_PER_FRAME, last / STEREO_PER_FRAME))
  }

  /** Frame `lba` of the disc [begin, end) can be produced: all its shifted samples lie on the disc. */
  predicate Producible(begin: int, end: int, offset: int, lba: int) {
    && begin <= lba < end
    && begin * STEREO_PER_FRAME <= lba * STEREO_PER_FRAME + offset
    && (lba + 1) * STEREO_PER_FRAME + offset <= end * STEREO_PER_FRAME
  }

  /** For every disc and every offset, however large, the window holds exactly the frames that can be produced. */
  lemma WindowIsExact(begin: int, end: int, offset: int, lba: int)
    requires 0 <= begin < end
    ensures var w := MakeWindow(begin, end, offset).value;
            w.playableBegin <= lba < w.playableEnd <==> Producible(begin, end, offset, lba)
  {
    var w := MakeWindow(begin, end, offset).value;
    CeilingAtMost(w.correctableBegin, lba);
    FloorAbove(w.correctableEnd, lba);
  }

  lemma CeilingAtMost(samples: int, lba: int)
    ensures (samples + 587) / STEREO_PER_FRAME <= lba <==> samples <= lba * STEREO_PER_FRAME
  {
  }

  lemma FloorAbove(samples: int, lba: int)
    ensures lba < samples / STEREO_PER_FRAME <==> (lba + 1) * STEREO_PER_FRAME <= samples
  {
  }

  /** The window's bounds keep to the disc. */
  lemma WindowWithinDisc(begin: int, end: int, offset: int)
    requires 0 <= begin < end
    ensures var w := MakeWindow(begin, end, offset).value;
            && begin <= w.playableBegin && w.playableEnd <= end
            && w.correctableBegin <= w.correctableEnd
            && w.correctableBegin <= w.playableBegin * STEREO_PER_FRAME
            && w.playableEnd * STEREO_PER_FRAME <= w.correctableEnd
  {
  }

  // ---------------------------------------------------------------- the reported split of the disc

  datatype Interval = Interval(begin: int, end: int)

  /** How many of the intervals hold sample `s`. */
  function Holds(intervals: seq<Interval>, s: int): nat {
    if intervals == [] then 0
    else
      var last := intervals[|intervals| - 1];
      Holds(intervals[..|intervals| - 1], s) + (if last.begin <= s < last.end then 1 else 0)
  }

  predicate AllProper(intervals: seq<Interval>) {
    forall i :: 0 <= i < |intervals| ==> intervals[i].begin < intervals[i].end
  }

  method AppendInterval(intervals: seq<Interval>, begin: int, end: int) returns (r: seq<Interval>)
    requires AllProper(intervals)
    ensures AllProper(r)
    ensures forall s :: Holds(r, s) == Holds(intervals, s) + (if begin <= s < end then 1 else 0)
    ensures r == [] <==> intervals == [] && end <= begin
  {
    r := intervals;
    if begin < end {
      r := intervals + [Interval(begin, end)];
      assert r[..|intervals|] == intervals;
    }
  }

  datatype Reason = NoPlayableRange | BoundaryClipped | Unrestricted

  predicate InPlayable(w: OffsetWindow, s: int) {
    w.playableBegin * STEREO_PER_FRAME <= s < w.playableEnd * STEREO_PER_FRAME
  }

  /** The split reported for a window: every sample of the disc is in exactly one part, and no other sample in any. */
  method SplitDisc(begin: int, end: int, offset: int, w: OffsetWindow)
      returns (unavailable: seq<Interval>, alignment: seq<Interval>, reason: Reason)
    requires 0 <= begin < end && MakeWindow(begin, end, offset) == Some(w)
    ensures AllProper(unavailable) && AllProper(alignment)
    ensures forall s :: Holds(unavailable, s) + Holds(alignment, s) + (if InPlayable(w, s) then 1 else 0)
                     == if w.discBegin <= s < w.discEnd then 1 else 0
    ensures forall s :: 0 < Holds(unavailable, s) <==>
              w.discBegin <= s < w.discEnd && !(w.discBegin <= s + offset < w.discEnd)
    ensures reason == NoPlayableRange <==> !w.Playable()
    ensures reason == Unrestricted <==> w.playableBegin == begin && w.playableEnd == end
  {
    WindowWithinDisc(begin, end, offset);
    unavailable := AppendInterval([], w.discBegin, w.correctableBegin);
    unavailable := AppendInterval(unavailable, w.correctableEnd, w.discEnd);
    if w.Playable() {
      alignment := AppendInterval([], w.correctableBegin, w.playableBegin * STEREO_PER_FRAME);
      alignment := AppendInterval(alignment, w.playableEnd * STEREO_PER_FRAME, w.correctableEnd);
    } else {
      alignment := AppendInterval([], w.correctableBegin, w.correctableEnd);
    }
    var limited := unavailable != [] || alignment != [];
    reason := if !w.Playable() then NoPlayableRange else if limited then BoundaryClipped else Unrestricted;
  }

  // ---------------------------------------------------------------- one shifted read

  /** The first stereo sample of the physical reader that logical frame `lba` needs. */
  function FirstSample(w: OffsetWindow, lba: int): int { lba * STEREO_PER_FRAME + w.offset }

  function PhysicalBegin(w: OffsetWindow, lba: int): int { FirstSample(w, lba) / STEREO_PER_FRAME }

  function PhysicalEnd(w: OffsetWindow, lba: int, frames: nat): int {
    (FirstSample(w, lba) + frames * STEREO_PER_FRAME + 587) / STEREO_PER_FRAME
  }

  /** Interleaved samples to skip at the start of the physical block. */
  function Skip(w: OffsetWindow, lba: int): int {
    (FirstSample(w, lba) - PhysicalBegin(w, lba) * STEREO_PER_FRAME) * 2
  }

  /** Shifted reads inside the window stay on the disc and need at most one more frame than asked for. */
  lemma PhysicalRange(begin: int, end: int, offset: int, lba: int, frames: nat)
    requires 0 <= begin < end
    requires var w := MakeWindow(begin, end, offset).value;
             w.playableBegin <= lba && 0 < frames && lba + frames <= w.playableEnd
    ensures var w := MakeWindow(begin, end, offset).value;
            && begin <= PhysicalBegin(w, lba) && PhysicalEnd(w, lba, frames) <= end
            && frames <= PhysicalEnd(w, lba, frames) - PhysicalBegin(w, lba) <= frames + 1
            && 0 <= Skip(w, lba) < SAMPLES_PER_FRAME
            && Skip(w, lba) + frames * SAMPLES_PER_FRAME
               <= (PhysicalEnd(w, lba, frames) - PhysicalBegin(w, lba)) * SAMPLES_PER_FRAME
  {
    var w := MakeWindow(begin, end, offset).value;
    WindowIsExact(begin, end, offset, lba);
    WindowIsExact(begin, end, offset, lba + frames - 1);
  }

  /** The answer under a shifted read is usable: a full read of exactly the range asked for. */
  predicate FullAnswer(raw: ReadResult, lba: int, frames: nat) {
    raw.status == ReadOk && raw.startLba == lba && raw.framesRequested == frames && raw.framesRead == frames
  }

  /** The relation between a shifted read, the physical answer below it, its result and the PCM it hands out. */
  predicate Shifted(w: OffsetWindow, lba: int, frames: nat, raw: Seen, r: ReadResult, pcm: seq<Sample>) {
    var first, count := PhysicalBegin(w, lba), PhysicalEnd(w, lba, frames) - PhysicalBegin(w, lba);
    && r.startLba == lba && r.framesRequested == frames && 0 <= count
    && |raw.pcm| == count * 1176 && |pcm| == frames * 1176
    && r.offset == Some(OffsetEvidence(w.offset, Some(
         PhysicalRead(first, count, raw.result.startLba, raw.result.framesRead, raw.result.nativeError))))
    && r.verification == NO_VERIFICATION
    && r.retries == raw.result.retries && r.paranoia == raw.result.paranoia && r.c2 == raw.result.c2
    && r.independence == raw.result.independence
    && (r.status == ReadOk <==> FullAnswer(raw.result, first, count))
    && (r.status == ReadOk ==>
          r.framesRead == frames && r.nativeError == 0
          && 0 <= Skip(w, lba) && Skip(w, lba) + |pcm| <= |raw.pcm|
          && pcm == raw.pcm[Skip(w, lba)..Skip(w, lba) + |pcm|])
    && (r.status != ReadOk ==>
          r.framesRead == 0 && r.nativeError == if raw.result.nativeError == 0 then EIO else raw.result.nativeError)
  }

  /** A drive that returned true samples: `disc` maps interleaved sample positions to samples. */
  predicate FaithfulAt(disc: int -> Sample, lba: int, pcm: seq<Sample>) {
    forall k :: 0 <= k < |pcm| ==> pcm[k] == disc(lba * SAMPLES_PER_FRAME + k)
  }

  /** Over a faithful drive, logical sample s is physical sample s + offset, channel by channel. */
  lemma ShiftIsExact(w: OffsetWindow, lba: int, frames: nat, raw: Seen, r: ReadResult, pcm: seq<Sample>,
                     disc: int -> Sample, k: nat)
    requires Shifted(w, lba, frames, raw, r, pcm) && r.status == ReadOk
    requires FaithfulAt(disc, PhysicalBegin(w, lba), raw.pcm) && k < |pcm|
    ensures pcm[k] == disc(lba * SAMPLES_PER_FRAME + k + 2 * w.offset)
  {
    assert pcm[k] == raw.pcm[Skip(w, lba) + k];
  }

  class OffsetReader {
    const inner: InnerReader
    const window: OffsetWindow
    ghost const discBegin: int
    ghost const discEnd: int
    var position: int
    var positioned: bool

    ghost predicate Valid()
      reads this
    {
      && 0 <= discBegin < discEnd && window.Playable()
      && (exists offset :: MakeWindow(discBegin, discEnd, offset) == Some(window))
      && (positioned ==> window.playableBegin <= position <= window.playableEnd)
    }

    constructor (reader: InnerReader, w: OffsetWindow, ghost begin: int, ghost end: int)
      requires 0 <= begin < end && MakeWindow(begin, end, w.offset) == Some(w) && w.Playable()
      ensures Valid() && !positioned && window == w && inner == reader
    {
      inner, window, discBegin, discEnd, position, positioned := reader, w, begin, end, 0, false;
    }

    /** Refused outside the window, leaving the reader unpositioned. */
    method Seek(lba: int) returns (threw: bool)
      requires Valid()
      modifies this
      ensures Valid() && positioned == !threw
      ensures threw <==> !(window.playableBegin <= lba < window.playableEnd)
      ensures !threw ==> position == lba
    {
      positioned := false;
      if lba < window.playableBegin || window.playableEnd <= lba { return true; }
      position, positioned := lba, true;
      threw := false;
    }

    /** Past the window's end the call answers with an error; whatever goes wrong, the reader needs a new seek. */
    method Read(pcm: array<Sample>) returns (r: Option<ReadResult>, ghost raw: Seen)
      requires Valid()
      modifies this, pcm, inner
      ensures Valid()
      ensures r.Some? && pcm.Length / 1176 <= window.playableEnd - old(position) ==>
                inner.answers == old(inner.answers) + [Reply(PhysicalBegin(window, old(position)), raw.result, raw.pcm)]
      ensures r.Some? && window.playableEnd - old(position) < pcm.Length / 1176 ==> inner.answers == old(inner.answers)
      ensures r.Some? ==> old(positioned) && 0 < pcm.Length && pcm.Length % 1176 == 0
      ensures r.Some? && pcm.Length / 1176 <= window.playableEnd - old(position) ==>
                Shifted(window, old(position), pcm.Length / 1176, raw, r.value, pcm[..])
      ensures r.Some? && window.playableEnd - old(position) < pcm.Length / 1176 ==>
                r.value.status == ReadError && r.value.nativeError == ERANGE
      ensures r.None? || r.value.status != ReadOk ==> pcm[..] == old(pcm[..])
      ensures r.Some? ==> positioned == (r.value.status == ReadOk)
      ensures r.None? && old(positioned) && 0 < pcm.Length && pcm.Length % 1176 == 0 ==> !positioned
      ensures positioned && r.Some? ==> position == old(position) + pcm.Length / 1176
    {
      r, raw := None, Seen(EMPTY_RESULT, []);
      if !positioned || pcm.Length == 0 || pcm.Length % 1176 != 0 { return; }
      var frames := pcm.Length / 1176;
      var result := EMPTY_RESULT.(startLba := position, framesRequested := frames, nativeError := ERANGE,
                                  independence := UnknownIndependence,
                                  offset := Some(OffsetEvidence(window.offset, None)));
      positioned := false;
      if window.playableEnd - position < frames { return Some(result), raw; }
      PhysicalRange(discBegin, discEnd, window.offset, position, frames);
      var firstSample := position * STEREO_PER_FRAME + window.offset;
      var lastSample := firstSample + frames * STEREO_PER_FRAME;
      var firstLba := firstSample / STEREO_PER_FRAME;
      var physicalFrames := (lastSample + 587) / STEREO_PER_FRAME - firstLba;
      var threw := inner.Seek(firstLba);
      if threw { return; }
      var a := inner.Read(physicalFrames * 1176);
      if a.Threw? { return; }
      raw := Seen(a.result, a.pcm);
      result := result.(offset := Some(OffsetEvidence(window.offset, Some(
                          PhysicalRead(firstLba, physicalFrames, a.result.startLba,
                                       a.result.framesRead, a.result.nativeError)))),
                        nativeError := a.result.nativeError, retries := a.result.retries, paranoia := a.result.paranoia,
                        independence := a.result.independence, c2 := a.result.c2);
      if a.result.status != ReadOk || a.result.startLba != firstLba || a.result.framesRequested != physicalFrames
         || a.result.framesRead != physicalFrames {
        return Some(if result.nativeError == 0 then result.(nativeError := EIO) else result), raw;
      }
      var skip := (firstSample - firstLba * STEREO_PER_FRAME) * 2;
      CopyOut(pcm, a.pcm[skip..skip + pcm.Length]);
      position, positioned := position + frames, true;
      r := Some(result.(status := ReadOk, nativeError := 0, framesRead := frames));
    }

    method CopyOut(pcm: array<Sample>, from: seq<Sample>)
      requires |from| == pcm.Length
      modifies pcm
      ensures pcm[..] == from
    {
      for i := 0 to pcm.Length
        invariant pcm[..i] == from[..i]
      {
        pcm[i] := from[i];
      }
    }
  }
}
