/**
  What the consumer of a capture is fed: canonical little-endian PCM in chunks
  that respect the track boundaries, and what its calls add up to.
*/
module PcmFeeds {
  import opened Basics
  import opened DiscTocs
  import opened CompletePcm

  // ---------------------------------------------------------------- bytes of a sample

  /** static_cast<std::uint16_t> */
  function Word(s: Sample): (w: int)
    ensures 0 <= w < 0x10000
  {
    if s < 0 then s + 0x10000 else s
  }

  function Encode(pcm: seq<Sample>): seq<Byte> {
    if pcm == [] then [] else Encode(pcm[..|pcm| - 1]) + [Word(pcm[|pcm| - 1]) % 256, Word(pcm[|pcm| - 1]) / 256]
  }

  function DecodeSample(low: Byte, high: Byte): Sample {
    var w := low + 256 * high;
    if w < 0x8000 then w else w - 0x10000
  }

  function Decode(bytes: seq<Byte>): seq<Sample> {
    if |bytes| < 2 then [] else Decode(bytes[..|bytes| - 2]) + [DecodeSample(bytes[|bytes| - 2], bytes[|bytes| - 1])]
  }

  lemma DecodeLast(bytes: seq<Byte>, s: Sample)
    ensures Decode(bytes + [Word(s) % 256, Word(s) / 256]) == Decode(bytes) + [s]
  {
    assert (bytes + [Word(s) % 256, Word(s) / 256])[..|bytes|] == bytes;
    assert Word(s) % 256 + 256 * (Word(s) / 256) == Word(s);
  }

  lemma {:induction false} EncodeLength(pcm: seq<Sample>)
    ensures |Encode(pcm)| == 2 * |pcm|
  {
    if pcm != [] { EncodeLength(pcm[..|pcm| - 1]); }
  }

  /** No sample is lost or altered by the byte form. */
  lemma {:induction false} EncodeRoundTrip(pcm: seq<Sample>)
    ensures Decode(Encode(pcm)) == pcm
  {
    if pcm != [] {
      EncodeRoundTrip(pcm[..|pcm| - 1]);
      DecodeLast(Encode(pcm[..|pcm| - 1]), pcm[|pcm| - 1]);
    }
  }

  lemma {:induction false} EncodeConcat(a: seq<Sample>, b: seq<Sample>)
    ensures Encode(a + b) == Encode(a) + Encode(b)
  {
    if b == [] {
      assert a + b == a;
    } else {
      var front, last := b[..|b| - 1], b[|b| - 1];
      EncodeConcat(a, front);
      SplitsLast(a, b);
      EncodeLast(a + front, last);
      EncodeLast(front, last);
    }
  }

  lemma SplitsLast(a: seq<Sample>, b: seq<Sample>)
    requires b != []
    ensures b == b[..|b| - 1] + [b[|b| - 1]] && a + b == a + b[..|b| - 1] + [b[|b| - 1]]
  {
  }

  lemma EncodeLast(pcm: seq<Sample>, s: Sample)
    ensures Encode(pcm + [s]) == Encode(pcm) + [Word(s) % 256, Word(s) / 256]
  {
    assert (pcm + [s])[..|pcm|] == pcm;
  }

  // ---------------------------------------------------------------- the consumer's calls

  /** Samples of track index `i` handed over by one call. */
  datatype Piece = Piece(i: nat, pcm: seq<Sample>)

  /** What the consumer is called with. */
  datatype Chunk = Chunk(track: int, bytes: seq<Byte>)

  datatype Call = Consume(chunk: Chunk) | Finalize | Discard

  function ChunkOf(toc: DiscToc, p: Piece): Chunk
    requires p.i < |toc.tracks|
  {
    Chunk(toc.tracks[p.i].number, Encode(p.pcm))
  }

  /** All the samples handed over, in order. */
  function Joined(feed: seq<Piece>): seq<Sample> {
    if feed == [] then [] else Joined(feed[..|feed| - 1]) + feed[|feed| - 1].pcm
  }

  /** The disc's first sample position, as an absolute count of 16-bit samples. */
  function Base(toc: DiscToc): int { FirstLba(toc) * SAMPLES_PER_FRAME }

  /** A cut of `count` samples at sample `begin` of the disc: whole stereo frames of one track, at most 16 KiB. */
  predicate CutAt(toc: DiscToc, i: nat, begin: int, count: nat) {
    && i < |toc.tracks|
    && 0 < 2 * count <= CHUNK_BYTES && count % 2 == 0
    && toc.tracks[i].startLba * SAMPLES_PER_FRAME <= begin
    && begin + count <= toc.tracks[i].EndLba() * SAMPLES_PER_FRAME
  }

  /** A piece that is such a cut. */
  predicate PieceAt(toc: DiscToc, p: Piece, begin: int) { CutAt(toc, p.i, begin, |p.pcm|) }

  /** Every piece belongs to a track of the disc. */
  predicate InTracks(toc: DiscToc, feed: seq<Piece>) {
    forall k :: 0 <= k < |feed| ==> feed[k].i < |toc.tracks|
  }

  /** Every piece starts where the ones before it end. */
  ghost predicate WellFed(toc: DiscToc, feed: seq<Piece>): (fed: bool)
    ensures fed ==> InTracks(toc, feed)
  {
    feed == [] ||
    (var front := feed[..|feed| - 1];
     PieceAt(toc, feed[|feed| - 1], Base(toc) + |Joined(front)|) && WellFed(toc, front))
  }

  function Calls(toc: DiscToc, feed: seq<Piece>): seq<Call>
    requires InTracks(toc, feed)
  {
    if feed == [] then [] else Calls(toc, feed[..|feed| - 1]) + [Consume(ChunkOf(toc, feed[|feed| - 1]))]
  }

  function Finals(n: nat): (calls: seq<Call>)
    ensures |calls| == n
  {
    seq(n, _ => Finalize)
  }

  /** Chunks first, then the finalizations, then at most one discard, and nothing after it. */
  function CallLog(toc: DiscToc, feed: seq<Piece>, finals: nat, discarded: bool): seq<Call>
    requires InTracks(toc, feed)
  {
    Calls(toc, feed) + Finals(finals) + (if discarded then [Discard] else [])
  }

  lemma FeedOne(toc: DiscToc, feed: seq<Piece>, p: Piece)
    requires InTracks(toc, feed) && p.i < |toc.tracks|
    ensures InTracks(toc, feed + [p]) && Joined(feed + [p]) == Joined(feed) + p.pcm
    ensures CallLog(toc, feed + [p], 0, false) == CallLog(toc, feed, 0, false) + [Consume(ChunkOf(toc, p))]
    ensures WellFed(toc, feed) && PieceAt(toc, p, Base(toc) + |Joined(feed)|) ==> WellFed(toc, feed + [p])
  {
    assert (feed + [p])[..|feed|] == feed;
  }

  lemma FinalizeOne(toc: DiscToc, feed: seq<Piece>, finals: nat)
    requires InTracks(toc, feed)
    ensures CallLog(toc, feed, finals + 1, false) == CallLog(toc, feed, finals, false) + [Finalize]
  {
    assert Finals(finals + 1) == Finals(finals) + [Finalize];
  }

  /** All the bytes handed over for the track of this number, in order. */
  function BytesOf(calls: seq<Call>, track: int): seq<Byte> {
    if calls == [] then []
    else
      var c := calls[|calls| - 1];
      BytesOf(calls[..|calls| - 1], track) + (if c.Consume? && c.chunk.track == track then c.chunk.bytes else [])
  }

  lemma BytesOfLast(calls: seq<Call>, c: Call, track: int)
    ensures BytesOf(calls + [c], track) == if c.Consume? && c.chunk.track == track
                                           then BytesOf(calls, track) + c.chunk.bytes else BytesOf(calls, track)
  {
    assert (calls + [c])[..|calls|] == calls;
  }

  /** Finalizing and discarding hand over no bytes. */
  lemma {:induction false} LogBytes(toc: DiscToc, feed: seq<Piece>, finals: nat, discarded: bool, track: int)
    requires InTracks(toc, feed)
    ensures BytesOf(CallLog(toc, feed, finals, discarded), track) == BytesOf(Calls(toc, feed), track)
  {
    if discarded {
      LogBytes(toc, feed, finals, false, track);
      BytesOfLast(CallLog(toc, feed, finals, false), Discard, track);
      assert CallLog(toc, feed, finals, true) == CallLog(toc, feed, finals, false) + [Discard];
    } else if finals != 0 {
      LogBytes(toc, feed, finals - 1, false, track);
      BytesOfLast(CallLog(toc, feed, finals - 1, false), Finalize, track);
      FinalizeOne(toc, feed, finals - 1);
    } else {
      assert CallLog(toc, feed, 0, false) == Calls(toc, feed);
    }
  }

  /** How many of the disc's first `n` samples lie below `lba`. */
  function Cut(toc: DiscToc, lba: int, n: nat): int {
    Clamp(lba * SAMPLES_PER_FRAME - Base(toc), 0, n)
  }

  /** Track `i`'s part of the disc's first samples `pcm`. */
  function TrackPcm(toc: DiscToc, i: nat, pcm: seq<Sample>): seq<Sample>
    requires WellFormed(toc) && i < |toc.tracks|
  {
    pcm[Cut(toc, toc.tracks[i].startLba, |pcm|)..Cut(toc, toc.tracks[i].EndLba(), |pcm|)]
  }

  /** Frames of track `i` accepted so far (src/complete_pcm_input.cpp:222-226). */
  function TrackFrames(toc: DiscToc, i: nat, nextLba: int): int
    requires WellFormed(toc) && i < |toc.tracks|
  {
    Clamp(nextLba - toc.tracks[i].startLba, 0, toc.tracks[i].lengthFrames)
  }

  /** Per track, the consumer has been handed exactly the encoding of that track's samples. */
  lemma {:induction false} FeedPerTrack(toc: DiscToc, feed: seq<Piece>, i: nat)
    requires WellFormed(toc) && WellFed(toc, feed) && i < |toc.tracks|
    ensures BytesOf(Calls(toc, feed), toc.tracks[i].number) == Encode(TrackPcm(toc, i, Joined(feed)))
    decreases |feed|
  {
    if feed != [] {
      var front, p := feed[..|feed| - 1], feed[|feed| - 1];
      FeedPerTrack(toc, front, i);
      TrackPcmGrows(toc, Joined(front), p, i);
      if i == p.i { EncodeConcat(TrackPcm(toc, i, Joined(front)), p.pcm); }
      BytesOfLast(Calls(toc, front), Consume(ChunkOf(toc, p)), toc.tracks[i].number);
    }
  }

  /** A piece extends its own track's part and no other. */
  lemma TrackPcmGrows(toc: DiscToc, pcm: seq<Sample>, p: Piece, i: nat)
    requires WellFormed(toc) && i < |toc.tracks| && PieceAt(toc, p, Base(toc) + |pcm|)
    ensures TrackPcm(toc, i, pcm + p.pcm) == if i == p.i then TrackPcm(toc, i, pcm) + p.pcm else TrackPcm(toc, i, pcm)
  {
    StartsIncrease(toc, 0, i);
    StartsIncrease(toc, 0, p.i);
    var first, last, n, m := Cuts(toc, i, pcm), Cuts(toc, i, pcm + p.pcm), |pcm|, |p.pcm|;
    if i == p.i {
      OwnCuts(toc, i, n, m);
      SliceGrows(pcm, p.pcm, first.0);
    } else {
      if i < p.i { StartsIncrease(toc, i, p.i); } else { StartsIncrease(toc, p.i, i); }
      OtherCuts(toc, i, p.i, n, m);
      if first.0 < first.1 { SliceStays(pcm, p.pcm, first.0, first.1); }
    }
  }

  /** Where track `i` begins and ends among the first samples. */
  function Cuts(toc: DiscToc, i: nat, pcm: seq<Sample>): (int, int)
    requires i < |toc.tracks|
  {
    (Cut(toc, toc.tracks[i].startLba, |pcm|), Cut(toc, toc.tracks[i].EndLba(), |pcm|))
  }

  lemma OwnCuts(toc: DiscToc, i: nat, n: nat, m: nat)
    requires i < |toc.tracks| && FirstLba(toc) <= toc.tracks[i].startLba && CutAt(toc, i, Base(toc) + n, m)
    ensures 0 <= Cut(toc, toc.tracks[i].startLba, n) == Cut(toc, toc.tracks[i].startLba, n + m) <= n
    ensures Cut(toc, toc.tracks[i].EndLba(), n) == n && Cut(toc, toc.tracks[i].EndLba(), n + m) == n + m
  {
  }

  /** Another track's part is all below the new samples, or all above them. */
  lemma OtherCuts(toc: DiscToc, i: nat, k: nat, n: nat, m: nat)
    requires i < |toc.tracks| && CutAt(toc, k, Base(toc) + n, m) && 0 < toc.tracks[i].lengthFrames
    requires toc.tracks[i].EndLba() <= toc.tracks[k].startLba || toc.tracks[k].EndLba() <= toc.tracks[i].startLba
    ensures if toc.tracks[i].EndLba() <= toc.tracks[k].startLba
            then Cut(toc, toc.tracks[i].startLba, n + m) == Cut(toc, toc.tracks[i].startLba, n)
                 && Cut(toc, toc.tracks[i].EndLba(), n + m) == Cut(toc, toc.tracks[i].EndLba(), n)
            else Cut(toc, toc.tracks[i].startLba, n + m) == Cut(toc, toc.tracks[i].EndLba(), n + m) == n + m
                 && Cut(toc, toc.tracks[i].startLba, n) == Cut(toc, toc.tracks[i].EndLba(), n) == n
  {
  }

  lemma SliceGrows(pcm: seq<Sample>, more: seq<Sample>, from: nat)
    requires from <= |pcm|
    ensures (pcm + more)[from..|pcm| + |more|] == pcm[from..|pcm|] + more
  {
  }

  lemma SliceStays(pcm: seq<Sample>, more: seq<Sample>, from: nat, to: nat)
    requires from <= to <= |pcm|
    ensures (pcm + more)[from..to] == pcm[from..to]
  {
  }

  /** In bytes: 2352 for each of the track's accepted frames. */
  lemma {:induction false} TrackBytes(toc: DiscToc, feed: seq<Piece>, i: nat, nextLba: int)
    requires WellFormed(toc) && WellFed(toc, feed) && i < |toc.tracks|
    requires |Joined(feed)| == (nextLba - FirstLba(toc)) * SAMPLES_PER_FRAME
    ensures |BytesOf(Calls(toc, feed), toc.tracks[i].number)| == 2352 * TrackFrames(toc, i, nextLba)
  {
    FeedPerTrack(toc, feed, i);
    EncodeLength(TrackPcm(toc, i, Joined(feed)));
    StartsIncrease(toc, 0, i);
    CutFrames(toc, toc.tracks[i].startLba, nextLba);
    CutFrames(toc, toc.tracks[i].EndLba(), nextLba);
  }

  lemma CutFrames(toc: DiscToc, lba: int, nextLba: int)
    requires FirstLba(toc) <= lba && FirstLba(toc) <= nextLba
    ensures Cut(toc, lba, (nextLba - FirstLba(toc)) * SAMPLES_PER_FRAME)
         == (Min(lba, nextLba) - FirstLba(toc)) * SAMPLES_PER_FRAME
  {
  }

  /** The track numbers never fall from one call to a later one. */
  lemma {:induction false} TracksInOrder(toc: DiscToc, feed: seq<Piece>, a: nat, b: nat)
    requires WellFormed(toc) && WellFed(toc, feed) && a < b < |feed|
    ensures feed[a].i <= feed[b].i < |toc.tracks|
    decreases |feed|
  {
    var front := feed[..|feed| - 1];
    if b < |front| {
      TracksInOrder(toc, front, a, b);
    } else {
      PieceBelow(toc, front, a);
      if feed[b].i < feed[a].i { StartsIncrease(toc, feed[b].i, feed[a].i); }
    }
  }

  /** Every piece lies below what has been fed so far. */
  lemma {:induction false} PieceBelow(toc: DiscToc, feed: seq<Piece>, a: nat)
    requires WellFed(toc, feed) && a < |feed|
    ensures feed[a].i < |toc.tracks|
    ensures toc.tracks[feed[a].i].startLba * SAMPLES_PER_FRAME < Base(toc) + |Joined(feed)|
    decreases |feed|
  {
    if a < |feed| - 1 { PieceBelow(toc, feed[..|feed| - 1], a); }
  }

  /** The `k`-th call of a feed hands over its `k`-th piece. */
  lemma {:induction false} CallAt(toc: DiscToc, feed: seq<Piece>, k: nat)
    requires InTracks(toc, feed) && k < |feed|
    ensures |Calls(toc, feed)| == |feed| && Calls(toc, feed)[k] == Consume(ChunkOf(toc, feed[k]))
    decreases |feed|
  {
    var front := feed[..|feed| - 1];
    if k < |front| {
      CallAt(toc, front, k);
    } else if front != [] {
      CallAt(toc, front, 0);
    }
  }

  /** Discarding happens at most once, after everything else; finalizing only after all the chunks. */
  lemma {:induction false} DiscardIsLast(toc: DiscToc, feed: seq<Piece>, finals: nat, discarded: bool, k: nat)
    requires InTracks(toc, feed) && k < |CallLog(toc, feed, finals, discarded)|
    ensures CallLog(toc, feed, finals, discarded)[k] == Discard
       <==> discarded && k == |CallLog(toc, feed, finals, discarded)| - 1
    ensures CallLog(toc, feed, finals, discarded)[k].Consume? <==> k < |feed|
    ensures CallLog(toc, feed, finals, discarded)[k] == Finalize <==> |feed| <= k < |feed| + finals
  {
    if k < |feed| {
      CallAt(toc, feed, k);
    } else if feed != [] {
      CallAt(toc, feed, 0);
    }
  }

  /** Where the chunks and the finalizations of a log end. */
  lemma EndsAt(toc: DiscToc, feed: seq<Piece>, finals: nat, discarded: bool)
    requires InTracks(toc, feed)
    ensures |CallLog(toc, feed, finals, discarded)| == |feed| + finals + (if discarded then 1 else 0)
    ensures forall k :: 0 <= k < |CallLog(toc, feed, finals, discarded)| ==>
              (CallLog(toc, feed, finals, discarded)[k] == Finalize <==> |feed| <= k < |feed| + finals)
  {
    forall k | 0 <= k < |CallLog(toc, feed, finals, discarded)|
      ensures CallLog(toc, feed, finals, discarded)[k] == Finalize <==> |feed| <= k < |feed| + finals
    {
      DiscardIsLast(toc, feed, finals, discarded, k);
    }
    if feed != [] { CallAt(toc, feed, 0); }
  }

  lemma EmptyLog(toc: DiscToc)
    ensures WellFed(toc, []) && CallLog(toc, [], 0, false) == []
  {
  }

  // ---------------------------------------------------------------- what the tracks add up to

  /** Bytes handed over for the first `n` tracks. */
  function BytesBelow(toc: DiscToc, calls: seq<Call>, n: nat): nat
    requires n <= |toc.tracks|
  {
    if n == 0 then 0 else BytesBelow(toc, calls, n - 1) + |BytesOf(calls, toc.tracks[n - 1].number)|
  }

  /** A chunk counts for its own track and no other. */
  lemma {:induction false} BytesBelowLast(toc: DiscToc, calls: seq<Call>, p: Piece, n: nat)
    requires WellFormed(toc) && n <= |toc.tracks| && p.i < |toc.tracks|
    ensures BytesBelow(toc, calls + [Consume(ChunkOf(toc, p))], n)
         == BytesBelow(toc, calls, n) + (if p.i < n then 2 * |p.pcm| else 0)
  {
    if n != 0 {
      BytesBelowLast(toc, calls, p, n - 1);
      OwnBytes(toc, calls, p, n - 1);
    }
  }

  lemma OwnBytes(toc: DiscToc, calls: seq<Call>, p: Piece, i: nat)
    requires WellFormed(toc) && i < |toc.tracks| && p.i < |toc.tracks|
    ensures |BytesOf(calls + [Consume(ChunkOf(toc, p))], toc.tracks[i].number)|
         == |BytesOf(calls, toc.tracks[i].number)| + (if i == p.i then 2 * |p.pcm| else 0)
  {
    BytesOfLast(calls, Consume(ChunkOf(toc, p)), toc.tracks[i].number);
    EncodeLength(p.pcm);
  }

  lemma {:induction false} NoBytesBelow(toc: DiscToc, n: nat)
    requires n <= |toc.tracks|
    ensures BytesBelow(toc, [], n) == 0
  {
    if n != 0 { NoBytesBelow(toc, n - 1); }
  }

  /** The tracks' bytes are all the bytes of a feed, in whatever order it came. */
  lemma {:induction false} BytesAddUp(toc: DiscToc, feed: seq<Piece>)
    requires WellFormed(toc) && InTracks(toc, feed)
    ensures BytesBelow(toc, Calls(toc, feed), |toc.tracks|) == 2 * |Joined(feed)|
    decreases |feed|
  {
    if feed == [] {
      NoBytesBelow(toc, |toc.tracks|);
    } else {
      var front, p := feed[..|feed| - 1], feed[|feed| - 1];
      BytesAddUp(toc, front);
      BytesBelowLast(toc, Calls(toc, front), p, |toc.tracks|);
    }
  }

  /** The consumer was handed exactly these samples of the disc, track by track. */
  ghost predicate HandsOver(toc: DiscToc, calls: seq<Call>, pcm: seq<Sample>)
    requires WellFormed(toc)
  {
    forall i: nat :: i < |toc.tracks| ==> BytesOf(calls, toc.tracks[i].number) == Encode(TrackPcm(toc, i, pcm))
  }

  /** The disc's first samples, cut into tracks, are all there. */
  lemma {:induction false} CutsAddUp(toc: DiscToc, calls: seq<Call>, pcm: seq<Sample>, n: nat)
    requires WellFormed(toc) && HandsOver(toc, calls, pcm) && n <= |toc.tracks|
    ensures BytesBelow(toc, calls, n)
         == 2 * Cut(toc, if n < |toc.tracks| then toc.tracks[n].startLba else toc.leadoutLba, |pcm|)
  {
    if n != 0 {
      CutsAddUp(toc, calls, pcm, n - 1);
      EncodeLength(TrackPcm(toc, n - 1, pcm));
      TrackLength(toc, pcm, n - 1);
    }
  }

  lemma TrackLength(toc: DiscToc, pcm: seq<Sample>, i: nat)
    requires WellFormed(toc) && i < |toc.tracks|
    ensures |TrackPcm(toc, i, pcm)| == Cuts(toc, i, pcm).1 - Cuts(toc, i, pcm).0
    ensures Cuts(toc, 0, pcm).0 == 0
  {
    StartsIncrease(toc, 0, i);
  }

  /** So a feed that hands over exactly `pcm` has exactly its length. */
  lemma HandedLength(toc: DiscToc, feed: seq<Piece>, pcm: seq<Sample>)
    requires WellFormed(toc) && InTracks(toc, feed) && |pcm| <= (toc.leadoutLba - FirstLba(toc)) * SAMPLES_PER_FRAME
    requires HandsOver(toc, Calls(toc, feed), pcm)
    ensures |Joined(feed)| == |pcm|
  {
    BytesAddUp(toc, feed);
    CutsAddUp(toc, Calls(toc, feed), pcm, |toc.tracks|);
  }
}
