/**
  The audio table of contents (src/disc_toc.cpp).
*/
module DiscTocs {
  import opened Basics

  datatype Track = Track(number: int, startLba: int, lengthFrames: int) {
    function EndLba(): int { startLba + lengthFrames }
  }

  datatype DiscToc = DiscToc(tracks: seq<Track>, leadoutLba: int)

  /** What a validated snapshot promises: consecutive numbers within 1..99 and tracks tiling the program area. */
  predicate WellFormed(toc: DiscToc) {
    && 1 <= |toc.tracks|
    && 1 <= toc.tracks[0].number
    && toc.tracks[0].number + |toc.tracks| <= 100
    && 0 <= toc.tracks[0].startLba
    && toc.leadoutLba <= MAX_I32
    && (forall i :: 0 <= i < |toc.tracks| ==> toc.tracks[i].number == toc.tracks[0].number + i)
    && (forall i :: 0 <= i < |toc.tracks| ==> 0 < toc.tracks[i].lengthFrames)
    && (forall i :: 0 <= i < |toc.tracks| - 1 ==> toc.tracks[i].EndLba() == toc.tracks[i + 1].startLba)
    && toc.tracks[|toc.tracks| - 1].EndLba() == toc.leadoutLba
  }

  /** The inputs `make_audio_toc` accepts. */
  ghost predicate ValidStarts(first: int, starts: seq<int>, leadout: int) {
    && 1 <= first <= 99
    && 1 <= |starts| <= 100 - first
    && (forall i :: 0 <= i < |starts| ==> 0 <= starts[i])
    && (forall i :: 0 <= i < |starts| - 1 ==> starts[i] < starts[i + 1])
    && starts[|starts| - 1] < leadout
  }

  /** The end of track `i`: the next start, or the lead-out after the last track. */
  function TrackEnd(starts: seq<int>, leadout: int, i: nat): int
    requires i < |starts|
  {
    if i + 1 < |starts| then starts[i + 1] else leadout
  }

  /** The track `make_audio_toc` pushes at index `i`. */
  function TrackAt(first: int, starts: seq<int>, leadout: int, i: nat): Track
    requires i < |starts|
  {
    Track(first + i, starts[i], TrackEnd(starts, leadout, i) - starts[i])
  }

  method MakeAudioToc(first: int, starts: seq<int>, leadout: int) returns (r: Result<DiscToc, string>)
    requires leadout <= MAX_I32
    ensures r.Success? <==> ValidStarts(first, starts, leadout)
    ensures r.Success? ==>
              && WellFormed(r.value)
              && r.value.leadoutLba == leadout
              && r.value.tracks[0].number == first
              && |r.value.tracks| == |starts|
              && forall i :: 0 <= i < |starts| ==> r.value.tracks[i].startLba == starts[i]
  {
    if first < 1 || first > 99 || |starts| == 0 || |starts| > 100 - first {
      return Failure("invalid TOC track range");
    }
    var tracks: seq<Track> := [];
    for i := 0 to |starts|
      invariant |tracks| == i
      invariant forall j :: 0 <= j < i ==> 0 <= starts[j] < TrackEnd(starts, leadout, j)
      invariant forall j :: 0 <= j < i ==> tracks[j] == TrackAt(first, starts, leadout, j)
    {
      var end := TrackEnd(starts, leadout, i);
      if starts[i] < 0 || end <= starts[i] {
        return Failure("TOC positions must be nonnegative and strictly increasing");
      }
      tracks := tracks + [Track(first + i, starts[i], end - starts[i])];
    }
    r := Success(DiscToc(tracks, leadout));
    BuiltTocWellFormed(first, starts, leadout, tracks);
  }

  lemma BuiltTocWellFormed(first: int, starts: seq<int>, leadout: int, tracks: seq<Track>)
    requires 1 <= first <= 99 && 1 <= |starts| <= 100 - first && leadout <= MAX_I32
    requires |tracks| == |starts|
    requires forall j :: 0 <= j < |starts| ==> 0 <= starts[j] < TrackEnd(starts, leadout, j)
    requires forall j :: 0 <= j < |starts| ==> tracks[j] == TrackAt(first, starts, leadout, j)
    ensures WellFormed(DiscToc(tracks, leadout)) && ValidStarts(first, starts, leadout)
    ensures forall i :: 0 <= i < |starts| ==> tracks[i].startLba == starts[i]
    ensures tracks[0].number == first
  {
    assert tracks[0] == TrackAt(first, starts, leadout, 0);
    forall i | 0 <= i < |tracks| - 1
      ensures starts[i] < starts[i + 1] && tracks[i].EndLba() == tracks[i + 1].startLba
    {
      assert tracks[i] == TrackAt(first, starts, leadout, i);
      assert tracks[i + 1] == TrackAt(first, starts, leadout, i + 1);
    }
    assert tracks[|tracks| - 1] == TrackAt(first, starts, leadout, |tracks| - 1);
  }

  /** The starts of a well-formed table are acceptable. */
  lemma WellFormedStarts(toc: DiscToc, starts: seq<int>)
    requires toc.tracks != [] && |starts| == |toc.tracks|
    requires forall i :: 0 <= i < |starts| ==> starts[i] == toc.tracks[i].startLba
    ensures WellFormed(toc) ==> ValidStarts(toc.tracks[0].number, starts, toc.leadoutLba)
  {
    if WellFormed(toc) {
      forall i | 0 <= i < |starts| ensures 0 <= starts[i] { StartsIncrease(toc, 0, i); }
      forall i | 0 <= i < |starts| - 1 ensures starts[i] < starts[i + 1] { StartsIncrease(toc, i, i + 1); }
    }
  }

  /** A well-formed table is determined by its first number, its starts and its lead-out. */
  lemma SameStartsSameToc(a: DiscToc, b: DiscToc)
    requires WellFormed(b) && a.leadoutLba == b.leadoutLba && |a.tracks| == |b.tracks|
    requires a.tracks[0].number == b.tracks[0].number
    requires forall i :: 0 <= i < |a.tracks| ==> a.tracks[i].startLba == b.tracks[i].startLba
    ensures WellFormed(a) ==> a == b
  {
    if WellFormed(a) {
      forall i | 0 <= i < |a.tracks| ensures a.tracks[i] == b.tracks[i] {
        if i + 1 < |a.tracks| {
          assert a.tracks[i].EndLba() == a.tracks[i + 1].startLba;
          assert b.tracks[i].EndLba() == b.tracks[i + 1].startLba;
        }
      }
    }
  }

  /** Track `i` contains `lba`. */
  predicate Contains(toc: DiscToc, i: int, lba: int) {
    0 <= i < |toc.tracks| && toc.tracks[i].startLba <= lba < toc.tracks[i].EndLba()
  }

  lemma {:induction false} StartsIncrease(toc: DiscToc, i: int, j: int)
    requires WellFormed(toc) && 0 <= i <= j < |toc.tracks|
    ensures toc.tracks[i].startLba + (j - i) <= toc.tracks[j].startLba
    ensures i < j ==> toc.tracks[i].EndLba() <= toc.tracks[j].startLba
    ensures toc.tracks[j].EndLba() <= toc.leadoutLba
    decreases j - i, |toc.tracks| - j
  {
    if i < j {
      StartsIncrease(toc, i, j - 1);
      assert toc.tracks[j - 1].EndLba() == toc.tracks[j].startLba;
    }
    EndsBelowLeadout(toc, j);
  }

  lemma {:induction false} EndsBelowLeadout(toc: DiscToc, j: int)
    requires WellFormed(toc) && 0 <= j < |toc.tracks|
    ensures toc.tracks[j].EndLba() <= toc.leadoutLba
    decreases |toc.tracks| - j
  {
    if j + 1 < |toc.tracks| {
      EndsBelowLeadout(toc, j + 1);
      assert toc.tracks[j].EndLba() == toc.tracks[j + 1].startLba;
    }
  }

  /** The tracks tile the program area: every LBA of it lies in exactly one track, and no other LBA in any. */
  lemma {:induction false} TracksTile(toc: DiscToc, lba: int)
    requires WellFormed(toc)
    ensures (exists i :: Contains(toc, i, lba)) <==> toc.tracks[0].startLba <= lba < toc.leadoutLba
    ensures forall i, j :: Contains(toc, i, lba) && Contains(toc, j, lba) ==> i == j
  {
    forall i | Contains(toc, i, lba) ensures toc.tracks[0].startLba <= lba < toc.leadoutLba {
      StartsIncrease(toc, 0, i);
    }
    forall i, j | Contains(toc, i, lba) && Contains(toc, j, lba) ensures i == j {
      if i < j { StartsIncrease(toc, i, j); }
      if j < i { StartsIncrease(toc, j, i); }
    }
    if toc.tracks[0].startLba <= lba < toc.leadoutLba {
      var i := 0;
      while toc.tracks[i].EndLba() <= lba
        invariant 0 <= i < |toc.tracks| && toc.tracks[i].startLba <= lba
        decreases |toc.tracks| - i
      {
        i := i + 1;
      }
      assert Contains(toc, i, lba);
    }
  }

  /** Where the program area begins. */
  function FirstLba(toc: DiscToc): int {
    if toc.tracks == [] then 0 else toc.tracks[0].startLba
  }

  function SpanFrames(toc: DiscToc): int {
    if toc.tracks == [] then 0 else toc.leadoutLba - toc.tracks[0].startLba
  }

  function TotalLength(tracks: seq<Track>): int {
    if tracks == [] then 0 else tracks[0].lengthFrames + TotalLength(tracks[1..])
  }

  /** No program frame is lost or counted twice by the track lengths. */
  lemma {:induction false} SpanIsTotalLength(toc: DiscToc)
    requires WellFormed(toc)
    ensures SpanFrames(toc) == TotalLength(toc.tracks)
  {
    LengthsTelescope(toc, 0);
    assert toc.tracks[0..] == toc.tracks;
  }

  lemma {:induction false} LengthsTelescope(toc: DiscToc, i: nat)
    requires WellFormed(toc) && i < |toc.tracks|
    ensures TotalLength(toc.tracks[i..]) == toc.leadoutLba - toc.tracks[i].startLba
    decreases |toc.tracks| - i
  {
    assert toc.tracks[i..][1..] == toc.tracks[i + 1..];
    if i + 1 < |toc.tracks| {
      LengthsTelescope(toc, i + 1);
    }
  }
}
