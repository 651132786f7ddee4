/**
  The consumer at work behind a capture: every chunk the input model feeds is
  absorbed, and the manifest is that of the disc's own samples.
*/
module Fingerprints {
  import opened Basics
  import opened DiscTocs
  import opened PcmFeeds
  import opened ReaderStack
  import opened Sha256
  import opened Sha256Consumers

  /** The consumer the factory makes, with its fixed texts. */
  method MakeConsumer(hash: Hash) returns (consumer: Sha256Consumer)
    ensures fresh(consumer) && fresh(consumer.tracks) && fresh(consumer.output) && consumer.Valid()
    ensures consumer.hash == hash && consumer.text == Json() && consumer.Model() == NOTHING
    ensures !consumer.finalized && !consumer.discarded
  {
    JsonOk();
    consumer := new Sha256Consumer(hash, Json());
  }

  /** What comes before a piece is a feed of its own. */
  lemma {:induction false} FedBefore(toc: DiscToc, feed: seq<Piece>, n: nat)
    requires WellFed(toc, feed) && n <= |feed|
    ensures WellFed(toc, feed[..n]) && |Joined(feed[..n])| <= |Joined(feed)|
    decreases |feed|
  {
    if n < |feed| {
      FedBefore(toc, feed[..|feed| - 1], n);
      assert feed[..|feed| - 1][..n] == feed[..n];
    } else {
      assert feed[..n] == feed;
    }
  }

  /** The last piece of a feed is absorbed after those before it. */
  lemma AbsorbLast(hash: Hash, toc: DiscToc, front: seq<Piece>, p: Piece)
    requires WellFormed(toc) && WellFed(toc, front + [p])
    ensures WellFed(toc, front) && p.i < |toc.tracks|
    ensures Acceptable(AbsorbFeed(hash, toc, front).current, ChunkOf(toc, p))
    ensures AbsorbFeed(hash, toc, front + [p]) == Absorb(hash, AbsorbFeed(hash, toc, front), ChunkOf(toc, p))
  {
    assert (front + [p])[..|front|] == front;
    NextChunk(hash, toc, front, p, AbsorbFeed(hash, toc, front));
  }

  lemma AbsorbedBytes(hash: Hash, toc: DiscToc, front: seq<Piece>, p: Piece)
    requires WellFormed(toc) && WellFed(toc, front) && p.i < |toc.tracks|
    ensures |AbsorbFeed(hash, toc, front).disc| + |ChunkOf(toc, p).bytes| == 2 * |Joined(front + [p])|
  {
    assert (front + [p])[..|front|] == front;
    EncodeLength(Joined(front));
    EncodeLength(p.pcm);
  }

  /** The piece at `n` is the next one after those before it. */
  lemma FedNext(toc: DiscToc, feed: seq<Piece>, n: nat)
    requires WellFed(toc, feed) && n < |feed|
    ensures feed[..n + 1] == feed[..n] + [feed[n]]
    ensures WellFed(toc, feed[..n] + [feed[n]]) && |Joined(feed[..n] + [feed[n]])| <= |Joined(feed)|
  {
    assert feed[..n + 1] == feed[..n] + [feed[n]];
    FedBefore(toc, feed, n + 1);
  }

  /** Over a whole capture's feed the consumer refuses nothing, and its manifest is that of the samples fed. */
  method Digest(hash: Hash, toc: DiscToc, feed: seq<Piece>) returns (manifest: Option<string>)
    requires WellFormed(toc) && WellFed(toc, feed) && toc.leadoutLba <= MAX_I32
    requires |Joined(feed)| == SpanFrames(toc) * SAMPLES_PER_FRAME
    ensures manifest == Some(ManifestOf(hash, toc, Joined(feed)))
  {
    var consumer := MakeConsumer(hash);
    for n := 0 to |feed|
      invariant consumer.Valid() && !consumer.finalized && !consumer.discarded
      invariant consumer.hash == hash && consumer.text == Json()
      invariant fresh(consumer) && fresh(consumer.tracks) && fresh(consumer.output)
      invariant WellFed(toc, feed[..n]) && consumer.Model() == AbsorbFeed(hash, toc, feed[..n])
    {
      FedNext(toc, feed, n);
      AbsorbLast(hash, toc, feed[..n], feed[n]);
      AbsorbedBytes(hash, toc, feed[..n], feed[n]);
      var c := ChunkOf(toc, feed[n]);
      var ok := consumer.Consume(c.track, c.bytes);
      if !ok { return None; }
    }
    assert feed[..|feed|] == feed;
    FingerprintIsExact(hash, toc, feed);
    manifest := consumer.Finalize();
  }

  /** The manifest of a disc whose samples are `pcm`. */
  function ManifestOf(hash: Hash, toc: DiscToc, pcm: seq<Sample>): string
    requires WellFormed(toc)
  {
    Manifest(Json(), |Encode(pcm)|, hash(Encode(pcm)), RowsBelow(hash, toc, |toc.tracks|, pcm))
  }

  /**
    So the manifest of a capture is that of the disc itself, if each block's corrupt complete reads were too few to win.
  */
  lemma ManifestIsDisc(hash: Hash, toc: DiscToc, blocks: seq<Delivered>, disc: int -> Sample)
    requires WellFormed(toc) && InStep(blocks, FirstLba(toc)) && CapturedFrames(blocks) == SpanFrames(toc)
    requires forall d :: d in blocks ==> Clean(disc, d)
    ensures ManifestOf(hash, toc, Captured(blocks)) ==
              ManifestOf(hash, toc, DiscPcm(disc, FirstLba(toc), CapturedFrames(blocks)))
  {
    CaptureIsDisc(disc, blocks, FirstLba(toc));
    assert Captured(blocks) == DiscPcm(disc, FirstLba(toc), CapturedFrames(blocks));
  }
}
