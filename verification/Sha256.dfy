/**
  The local fingerprint of a capture (src/complete_pcm_sha256.cpp): one digest
  per track and one of the disc, and a manifest in a fixed buffer. SHA-256 is
  an arbitrary function of the bytes absorbed.
*/
module Sha256 {
  import opened Basics
  import opened DiscTocs
  import opened CompletePcm
  import opened PcmFeeds

  type Digest = d: seq<Byte> | |d| == 32 witness seq(32, _ => 0)

  type Hash = seq<Byte> -> Digest

  const MANIFEST_LIMIT: nat := 16384
  const TRACK_LIMIT: nat := 99
  const MAX_U64: int := 0xffff_ffff_ffff_ffff

  datatype Row = Row(number: nat, bytes: nat, digest: Digest)

  /** What has been absorbed: the whole disc, and the current track after the closed ones. */
  datatype Absorbed = Absorbed(disc: seq<Byte>, current: nat, part: seq<Byte>, rows: seq<Row>)

  const NOTHING := Absorbed([], 0, [], [])

  function CloseTrack(hash: Hash, s: Absorbed): seq<Row> {
    if s.current == 0 then s.rows else s.rows + [Row(s.current, |s.part|, hash(s.part))]
  }

  /** The argument checks of `consume`. */
  predicate Acceptable(current: nat, c: Chunk) {
    && 1 <= c.track <= 99 && current <= c.track
    && c.bytes != [] && |c.bytes| % 4 == 0 && |c.bytes| <= CHUNK_BYTES
  }

  function Absorb(hash: Hash, s: Absorbed, c: Chunk): Absorbed
    requires Acceptable(s.current, c)
  {
    if c.track == s.current then Absorbed(s.disc + c.bytes, s.current, s.part + c.bytes, s.rows)
    else Absorbed(s.disc + c.bytes, c.track, c.bytes, CloseTrack(hash, s))
  }

  // ---------------------------------------------------------------- what a capture's feed amounts to

  /** The row of track `i` when the disc's first samples are `pcm`. */
  function RowOf(hash: Hash, toc: DiscToc, i: nat, pcm: seq<Sample>): Row
    requires WellFormed(toc) && i < |toc.tracks|
  {
    Row(toc.tracks[i].number, |Encode(TrackPcm(toc, i, pcm))|, hash(Encode(TrackPcm(toc, i, pcm))))
  }

  function RowsBelow(hash: Hash, toc: DiscToc, n: nat, pcm: seq<Sample>): (rows: seq<Row>)
    requires WellFormed(toc) && n <= |toc.tracks|
    ensures |rows| == n
  {
    if n == 0 then [] else RowsBelow(hash, toc, n - 1, pcm) + [RowOf(hash, toc, n - 1, pcm)]
  }

  /** Once its successor has begun, a track's row no longer changes. */
  lemma {:induction false} RowsStay(hash: Hash, toc: DiscToc, n: nat, pcm: seq<Sample>, p: Piece)
    requires WellFormed(toc) && PieceAt(toc, p, Base(toc) + |pcm|) && n <= p.i
    ensures RowsBelow(hash, toc, n, pcm + p.pcm) == RowsBelow(hash, toc, n, pcm)
  {
    if n != 0 {
      RowsStay(hash, toc, n - 1, pcm, p);
      TrackPcmGrows(toc, pcm, p, n - 1);
    }
  }

  /** The absorbed state a feed ending in track `i` should lead to. */
  ghost predicate Matches(hash: Hash, toc: DiscToc, s: Absorbed, i: nat, pcm: seq<Sample>)
    requires WellFormed(toc) && i < |toc.tracks|
  {
    && s.disc == Encode(pcm)
    && s.current == toc.tracks[i].number
    && s.part == Encode(TrackPcm(toc, i, pcm))
    && s.rows == RowsBelow(hash, toc, i, pcm)
  }

  /** Where the last piece left off: its track, or none yet. */
  ghost predicate MatchesFeed(hash: Hash, toc: DiscToc, s: Absorbed, feed: seq<Piece>)
    requires WellFormed(toc)
  {
    if feed == [] then s == NOTHING
    else feed[|feed| - 1].i < |toc.tracks| && Matches(hash, toc, s, feed[|feed| - 1].i, Joined(feed))
  }

  /** The state after a whole feed. Every chunk passes the consumer's checks, so it never refuses one. */
  function AbsorbFeed(hash: Hash, toc: DiscToc, feed: seq<Piece>): (s: Absorbed)
    requires WellFormed(toc) && WellFed(toc, feed)
    ensures MatchesFeed(hash, toc, s, feed)
  {
    if feed == [] then NOTHING
    else
      var front, p := feed[..|feed| - 1], feed[|feed| - 1];
      var s := AbsorbFeed(hash, toc, front);
      NextChunk(hash, toc, front, p, s);
      Absorb(hash, s, ChunkOf(toc, p))
  }

  lemma NextChunk(hash: Hash, toc: DiscToc, front: seq<Piece>, p: Piece, s: Absorbed)
    requires WellFormed(toc) && WellFed(toc, front) && PieceAt(toc, p, Base(toc) + |Joined(front)|)
    requires MatchesFeed(hash, toc, s, front)
    ensures Acceptable(s.current, ChunkOf(toc, p))
    ensures Matches(hash, toc, Absorb(hash, s, ChunkOf(toc, p)), p.i, Joined(front) + p.pcm)
  {
    var pcm := Joined(front);
    EncodeConcat(pcm, p.pcm);
    if front == [] {
      FirstTrack(toc, p);
      ChunkAcceptable(toc, p, 0);
      TrackOpens(hash, toc, s, pcm, p);
    } else {
      var i := front[|front| - 1].i;
      NextTrack(toc, front, p);
      ChunkAcceptable(toc, p, toc.tracks[i].number);
      if i == p.i {
        TrackContinues(hash, toc, s, pcm, p);
      } else {
        TrackOpens(hash, toc, s, pcm, p);
      }
    }
  }

  /** The chunk of a piece passes the consumer's checks after any earlier track. */
  lemma ChunkAcceptable(toc: DiscToc, p: Piece, current: nat)
    requires WellFormed(toc) && p.i < |toc.tracks| && current <= toc.tracks[p.i].number
    requires 0 < 2 * |p.pcm| <= CHUNK_BYTES && |p.pcm| % 2 == 0
    ensures Acceptable(current, ChunkOf(toc, p))
  {
    EncodeLength(p.pcm);
  }

  lemma FirstTrack(toc: DiscToc, p: Piece)
    requires WellFormed(toc) && PieceAt(toc, p, Base(toc))
    ensures p.i == 0
  {
    if 0 < p.i { StartsIncrease(toc, 0, p.i); }
  }

  /** The next piece continues its predecessor's track, or opens the one after it, which has no samples yet. */
  lemma NextTrack(toc: DiscToc, front: seq<Piece>, p: Piece)
    requires WellFormed(toc) && WellFed(toc, front) && front != []
    requires PieceAt(toc, p, Base(toc) + |Joined(front)|)
    ensures front[|front| - 1].i <= p.i <= front[|front| - 1].i + 1
    ensures front[|front| - 1].i < p.i ==> TrackPcm(toc, p.i, Joined(front)) == []
  {
    var q := front[|front| - 1].i;
    if q + 1 < p.i {
      StartsIncrease(toc, q, q + 1);
      StartsIncrease(toc, q + 1, p.i);
    } else if p.i < q {
      StartsIncrease(toc, p.i, q);
    } else if q < p.i {
      StartsIncrease(toc, q, p.i);
      assert Cut(toc, toc.tracks[p.i].startLba, |Joined(front)|) == |Joined(front)|;
    }
  }

  lemma TrackContinues(hash: Hash, toc: DiscToc, s: Absorbed, pcm: seq<Sample>, p: Piece)
    requires WellFormed(toc) && PieceAt(toc, p, Base(toc) + |pcm|)
    requires Matches(hash, toc, s, p.i, pcm) && Acceptable(s.current, ChunkOf(toc, p))
    requires Encode(pcm + p.pcm) == Encode(pcm) + Encode(p.pcm)
    ensures Matches(hash, toc, Absorb(hash, s, ChunkOf(toc, p)), p.i, pcm + p.pcm)
  {
    TrackPcmGrows(toc, pcm, p, p.i);
    EncodeConcat(TrackPcm(toc, p.i, pcm), p.pcm);
    RowsStay(hash, toc, p.i, pcm, p);
  }

  lemma TrackOpens(hash: Hash, toc: DiscToc, s: Absorbed, pcm: seq<Sample>, p: Piece)
    requires WellFormed(toc) && PieceAt(toc, p, Base(toc) + |pcm|)
    requires if p.i == 0 then s == NOTHING && pcm == [] else Matches(hash, toc, s, p.i - 1, pcm)
    requires TrackPcm(toc, p.i, pcm) == [] && Acceptable(s.current, ChunkOf(toc, p))
    requires Encode(pcm + p.pcm) == Encode(pcm) + Encode(p.pcm)
    ensures Matches(hash, toc, Absorb(hash, s, ChunkOf(toc, p)), p.i, pcm + p.pcm)
  {
    var c := ChunkOf(toc, p);
    TrackPcmGrows(toc, pcm, p, p.i);
    assert TrackPcm(toc, p.i, pcm + p.pcm) == p.pcm;
    ClosedRows(hash, toc, s, pcm, p);
    var after := Absorb(hash, s, c);
    assert after.current == c.track && after.part == c.bytes && after.rows == CloseTrack(hash, s);
  }

  lemma ClosedRows(hash: Hash, toc: DiscToc, s: Absorbed, pcm: seq<Sample>, p: Piece)
    requires WellFormed(toc) && PieceAt(toc, p, Base(toc) + |pcm|)
    requires if p.i == 0 then s == NOTHING && pcm == [] else Matches(hash, toc, s, p.i - 1, pcm)
    ensures s.current != toc.tracks[p.i].number
    ensures CloseTrack(hash, s) == RowsBelow(hash, toc, p.i, pcm + p.pcm)
  {
    RowsStay(hash, toc, p.i, pcm, p);
    if p.i != 0 {
      assert toc.tracks[p.i - 1].number == toc.tracks[0].number + (p.i - 1);
    }
  }

  /**
    The fingerprint of a whole capture: the rows are the table's tracks in order, each with 2352 bytes for each of its
    frames and the hash of exactly its samples, and the disc digest is the hash of all of them.
  */
  lemma FingerprintIsExact(hash: Hash, toc: DiscToc, feed: seq<Piece>)
    requires WellFormed(toc) && WellFed(toc, feed)
    requires |Joined(feed)| == SpanFrames(toc) * SAMPLES_PER_FRAME
    ensures AbsorbFeed(hash, toc, feed).disc == Encode(Joined(feed))
    ensures CloseTrack(hash, AbsorbFeed(hash, toc, feed)) == RowsBelow(hash, toc, |toc.tracks|, Joined(feed))
  {
    EndsBelowLeadout(toc, 0);
    var i := feed[|feed| - 1].i;
    LastPiece(toc, feed, i);
    var s := AbsorbFeed(hash, toc, feed);
    assert CloseTrack(hash, s) == s.rows + [RowOf(hash, toc, i, Joined(feed))];
  }

  /** A feed that reaches the lead-out ends in the last track. */
  lemma LastPiece(toc: DiscToc, feed: seq<Piece>, i: nat)
    requires WellFormed(toc) && WellFed(toc, feed) && feed != [] && i == feed[|feed| - 1].i
    requires |Joined(feed)| == SpanFrames(toc) * SAMPLES_PER_FRAME
    ensures i == |toc.tracks| - 1
  {
    assert toc.leadoutLba <= toc.tracks[i].EndLba();
    if i < |toc.tracks| - 1 { StartsIncrease(toc, i, i + 1); }
  }
}
