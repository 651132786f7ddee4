/**
  The direct reader (src/cdda_reader.cpp): one read call becomes transport
  calls of at most 75 frames, with optional C2 pointers, a fallback to ordinary
  audio reads, and bounded retries.
*/
module DirectReaders {
  import opened Basics
  import opened CddaReaders
  import opened Votings

  const CHUNK_FRAMES: nat := 75

  datatype DirectOptions = DirectOptions(retries: nat, requestC2: bool, inactiveC2: C2Status, requireC2: bool,
                                         c2TimeoutMs: nat)

  predicate ValidOptions(o: DirectOptions) {
    && o.retries <= 10 && 0 < o.c2TimeoutMs <= 5000
    && (o.requireC2 ==> o.requestC2)
    && (!o.requestC2 ==> o.inactiveC2 == C2NotChecked || o.inactiveC2 == C2NotAvailable)
  }

  /** Samples the drive returned without an error, and where it was asked for them. */
  datatype Delivery = Delivery(lba: int, pcm: seq<Sample>)

  /** The answer to a read with C2 pointers. */
  datatype Packet = Packet(error: int, c2: C2Status)

  /** The drive: any error at any call, any C2 claim, any samples. */
  class Transport {
    const audio: nat -> int
    const packets: nat -> Packet
    var audioCalls: nat
    var packetCalls: nat
    ghost var delivered: seq<Delivery>

    constructor (audioErrors: nat -> int, packetAnswers: nat -> Packet)
      ensures audio == audioErrors && packets == packetAnswers
      ensures audioCalls == packetCalls == 0 && delivered == []
    {
      audio, packets := audioErrors, packetAnswers;
      audioCalls, packetCalls, delivered := 0, 0, [];
    }

    method Audio(lba: int, samples: nat) returns (error: int, pcm: seq<Sample>)
      modifies this
      ensures |pcm| == samples && error == audio(old(audioCalls))
      ensures audioCalls == old(audioCalls) + 1 && packetCalls == old(packetCalls)
      ensures delivered == old(delivered) + (if error == 0 then [Delivery(lba, pcm)] else [])
    {
      error, pcm := audio(audioCalls), *;
      if |pcm| != samples { pcm := seq(samples, _ => 0); }
      audioCalls := audioCalls + 1;
      if error == 0 { delivered := delivered + [Delivery(lba, pcm)]; }
    }

    method WithC2(lba: int, samples: nat) returns (error: int, c2: C2Status, pcm: seq<Sample>)
      modifies this
      ensures |pcm| == samples && Packet(error, c2) == packets(old(packetCalls))
      ensures audioCalls == old(audioCalls) && packetCalls == old(packetCalls) + 1
      ensures delivered == old(delivered) + (if error == 0 then [Delivery(lba, pcm)] else [])
    {
      error, c2, pcm := packets(packetCalls).error, packets(packetCalls).c2, *;
      if |pcm| != samples { pcm := seq(samples, _ => 0); }
      packetCalls := packetCalls + 1;
      if error == 0 { delivered := delivered + [Delivery(lba, pcm)]; }
    }
  }

  /** Every chunk is something the drive returned for exactly that position. */
  ghost predicate FromDrive(chunks: seq<Chunk>, delivered: seq<Delivery>) {
    forall i :: 0 <= i < |chunks| ==> Delivery(chunks[i].lba, chunks[i].pcm) in delivered
  }

  lemma StillFromDrive(chunks: seq<Chunk>, before: seq<Delivery>, after: seq<Delivery>)
    requires FromDrive(chunks, before) && before <= after
    ensures FromDrive(chunks, after)
  {
    forall d | d in before ensures d in after {
      var i :| 0 <= i < |before| && before[i] == d;
      assert after[i] == d;
    }
  }

  lemma AlsoFromDrive(chunks: seq<Chunk>, c: Chunk, delivered: seq<Delivery>)
    requires FromDrive(chunks, delivered) && Delivery(c.lba, c.pcm) in delivered
    ensures FromDrive(chunks + [c], delivered)
  {
  }

  /** The answers of one retry loop: I/O errors until success, another error, or the last retry. */
  predicate LoopRun(errors: seq<int>, retries: nat) {
    && 0 < |errors| <= retries + 1
    && (forall k :: 0 <= k < |errors| - 1 ==> errors[k] == EIO)
    && (errors[|errors| - 1] == EIO ==> |errors| == retries + 1)
  }

  function Last(errors: seq<int>): int { if errors == [] then 0 else errors[|errors| - 1] }

  /** The drive's own answers, from its `from`-th call on. */
  ghost predicate Scripted(errors: seq<int>, script: nat -> int, from: nat) {
    forall k :: 0 <= k < |errors| ==> errors[k] == script(from + k)
  }

  function Retries(errors: seq<int>): nat { if errors == [] then 0 else |errors| - 1 }

  /** One chunk: where it was read, what came of it, and the answers of the C2 read and of the two retry loops. */
  datatype Chunk = Chunk(lba: int, frames: nat, pcm: seq<Sample>, c2: C2Status, error: int, packet: Option<Packet>,
                         fallback: seq<int>, ordinary: seq<int>) {
    function Retried(): nat { Retries(fallback) + Retries(ordinary) }
  }

  predicate HasC2(p: Packet) { p.error == 0 && (p.c2 == C2Clean || p.c2 == C2Reported) }

  /** How a chunk can go, well or badly. */
  predicate ChunkRuns(o: DirectOptions, c: Chunk) {
    && 0 < c.frames <= CHUNK_FRAMES && |c.pcm| == c.frames * 1176
    && (o.requestC2 <==> c.packet.Some?)
    && (if !o.requestC2 then
          c.fallback == [] && LoopRun(c.ordinary, o.retries) && c.error == Last(c.ordinary) && c.c2 == o.inactiveC2
        else if HasC2(c.packet.value) then
          c.fallback == [] && c.ordinary == [] && c.error == 0 && c.c2 == c.packet.value.c2
        else if o.requireC2 then
          && c.fallback == [] && c.ordinary == [] && c.c2 == C2Unknown
          && c.error == if c.packet.value.error != 0 then c.packet.value.error else EPROTO
        else
          && c.c2 == C2Unknown && LoopRun(c.fallback, o.retries)
          && (if Last(c.fallback) == 0 then c.ordinary == [] && c.error == 0
              else LoopRun(c.ordinary, o.retries) && c.error == Last(c.ordinary)))
  }

  predicate ChunkOk(o: DirectOptions, c: Chunk) { ChunkRuns(o, c) && c.error == 0 }

  /** No chunk, delivered or failed, retries more than twice the configured number. */
  lemma RetryBound(o: DirectOptions, c: Chunk)
    requires ChunkRuns(o, c)
    ensures c.Retried() <= 2 * o.retries
  {
  }

  /**
    The retries of a chunk, delivered or failed, stay within the configured number, whatever the drive answers, exactly
    when no fallback can happen: C2 is not asked for, or is required, or nothing is ever retried.
  */
  lemma RetriesWithinIff(o: DirectOptions)
    requires ValidOptions(o)
    ensures (forall c :: ChunkRuns(o, c) ==> c.Retried() <= o.retries) <==>
            !o.requestC2 || o.requireC2 || o.retries == 0
  {
    if o.requestC2 && !o.requireC2 && o.retries != 0 {
      var fallback := seq(o.retries + 1, _ => EIO);
      var ordinary := seq(o.retries + 1, i => if i < o.retries then EIO else 0);
      var c := Chunk(0, 1, seq(1176, _ => 0), C2Unknown, 0, Some(Packet(EIO, C2Unknown)), fallback, ordinary);
      assert ChunkRuns(o, c) && c.Retried() == 2 * o.retries;
    }
  }

  // ---------------------------------------------------------------- chunks of one read

  function Frames(chunks: seq<Chunk>): nat {
    if chunks == [] then 0 else Frames(chunks[..|chunks| - 1]) + chunks[|chunks| - 1].frames
  }

  function Pcm(chunks: seq<Chunk>): seq<Sample> {
    if chunks == [] then [] else Pcm(chunks[..|chunks| - 1]) + chunks[|chunks| - 1].pcm
  }

  function C2Of(chunks: seq<Chunk>): (r: seq<C2Status>)
    ensures |r| == |chunks|
  {
    if chunks == [] then [] else C2Of(chunks[..|chunks| - 1]) + [chunks[|chunks| - 1].c2]
  }

  function SumRetried(chunks: seq<Chunk>): nat {
    if chunks == [] then 0 else SumRetried(chunks[..|chunks| - 1]) + chunks[|chunks| - 1].Retried()
  }

  /** Chunks read one after the other from `start`. */
  ghost predicate Tiles(o: DirectOptions, chunks: seq<Chunk>, start: int) {
    chunks == [] ||
    (var front, last := chunks[..|chunks| - 1], chunks[|chunks| - 1];
     last.lba == start + Frames(front) && ChunkOk(o, last) && Tiles(o, front, start))
  }

  lemma {:induction false} PcmLength(o: DirectOptions, chunks: seq<Chunk>, start: int)
    requires Tiles(o, chunks, start)
    ensures |Pcm(chunks)| == Frames(chunks) * 1176
  {
    if chunks != [] { PcmLength(o, chunks[..|chunks| - 1], start); }
  }

  /** A drive that answered truly, chunk by chunk. */
  predicate FaithfulChunk(disc: int -> Sample, c: Chunk) {
    forall k :: 0 <= k < |c.pcm| ==> c.pcm[k] == disc(c.lba * 1176 + k)
  }

  /** Splitting changes nothing: faithful chunks make one faithful read of the whole range. */
  lemma {:induction false} ChunksMakeOneRead(o: DirectOptions, chunks: seq<Chunk>, start: int, disc: int -> Sample,
                                             k: nat)
    requires Tiles(o, chunks, start) && k < |Pcm(chunks)|
    requires forall i :: 0 <= i < |chunks| ==> FaithfulChunk(disc, chunks[i])
    ensures Pcm(chunks)[k] == disc(start * 1176 + k)
  {
    var front, last := chunks[..|chunks| - 1], chunks[|chunks| - 1];
    PcmLength(o, front, start);
    if k < |Pcm(front)| {
      ChunksMakeOneRead(o, front, start, disc, k);
    } else {
      assert Pcm(chunks)[k] == last.pcm[k - |Pcm(front)|];
      assert FaithfulChunk(disc, chunks[|chunks| - 1]);
    }
  }

  lemma OneMoreChunk(o: DirectOptions, chunks: seq<Chunk>, start: int, c: Chunk)
    requires Tiles(o, chunks, start) && ChunkOk(o, c) && c.lba == start + Frames(chunks)
    ensures Tiles(o, chunks + [c], start)
    ensures Frames(chunks + [c]) == Frames(chunks) + c.frames && Pcm(chunks + [c]) == Pcm(chunks) + c.pcm
    ensures SumRetried(chunks + [c]) == SumRetried(chunks) + c.Retried()
    ensures C2Of(chunks + [c]) == C2Of(chunks) + [c.c2]
    ensures MergeAll(C2Of(chunks + [c])) == if chunks == [] then c.c2 else Merge(MergeAll(C2Of(chunks)), c.c2)
  {
    assert (chunks + [c])[..|chunks|] == chunks;
    assert C2Of(chunks + [c])[..|chunks|] == C2Of(chunks);
  }

  /** While nothing failed, the evidence is the join of the chunks' own. */
  ghost predicate Accounted(o: DirectOptions, chunks: seq<Chunk>, r: ReadResult) {
    && r.status == ReadOk && r.nativeError == 0
    && r.retries == SumRetried(chunks) && r.c2 == JoinedC2(o, chunks)
    && (chunks == [] <==> r.framesRead == 0)
  }

  /** The C2 status of what was read so far. */
  function JoinedC2(o: DirectOptions, chunks: seq<Chunk>): C2Status {
    if chunks != [] then MergeAll(C2Of(chunks)) else if o.requestC2 then C2Unknown else o.inactiveC2
  }

  /** A call that ended at a failed chunk: its error, its retries on top of the others', and what C2 says then. */
  ghost predicate FailedAt(o: DirectOptions, count: nat, chunks: seq<Chunk>, failed: Chunk, r: ReadResult) {
    && r.status == ReadError && r.nativeError == failed.error != 0
    && ChunkRuns(o, failed) && failed.lba == r.startLba + r.framesRead
    && failed.frames == Min(CHUNK_FRAMES, count - r.framesRead)
    && r.retries == SumRetried(chunks) + failed.Retried()
    && r.c2 == if o.requireC2 then C2Unknown else JoinedC2(o, chunks)
  }

  /** What a read call delivered, in full or up to the chunk that failed. */
  ghost predicate Delivered(o: DirectOptions, start: int, count: nat, chunks: seq<Chunk>, r: ReadResult,
                            pcm: seq<Sample>, before: seq<Sample>)
  {
    && Tiles(o, chunks, start)
    && r.startLba == start && r.framesRequested == count && r.framesRead == Frames(chunks) <= count
    && |before| == |pcm| == count * 1176
    && |Pcm(chunks)| == Frames(chunks) * 1176
    && pcm == Pcm(chunks) + before[|Pcm(chunks)|..]
  }

  function Extended(r: ReadResult, c: Chunk): ReadResult {
    r.(retries := r.retries + c.Retried(), framesRead := r.framesRead + c.frames,
       c2 := if r.framesRead == 0 then c.c2 else Merge(r.c2, c.c2))
  }

  /** The caller's buffer once `block` follows what was delivered. */
  function Spliced(done: seq<Sample>, block: seq<Sample>, before: seq<Sample>): seq<Sample>
    requires |done| + |block| <= |before|
  {
    done + block + before[|done| + |block|..]
  }

  lemma MoreDelivered(o: DirectOptions, start: int, count: nat, chunks: seq<Chunk>, c: Chunk, r: ReadResult,
                      pcm: seq<Sample>, before: seq<Sample>)
    requires Delivered(o, start, count, chunks, r, pcm, before) && Accounted(o, chunks, r)
    requires ChunkOk(o, c) && c.lba == start + r.framesRead && r.framesRead + c.frames <= count
    ensures Accounted(o, chunks + [c], Extended(r, c))
    ensures Delivered(o, start, count, chunks + [c], Extended(r, c),
                      Spliced(Pcm(chunks), c.pcm, before), before)
  {
    OneMoreChunk(o, chunks, start, c);
    BlockLength(Pcm(chunks), c.pcm, before);
  }

  lemma BlockLength(done: seq<Sample>, block: seq<Sample>, before: seq<Sample>)
    requires |done| + |block| <= |before|
    ensures |done + block + before[|done| + |block|..]| == |before|
    ensures before[|done| + |block|..] == before[|done + block|..]
  {
  }

  lemma BlockDelivered(pcm: seq<Sample>, done: seq<Sample>, before: seq<Sample>, block: seq<Sample>)
    requires |done| + |block| <= |before| && pcm == done + before[|done|..]
    ensures pcm[..|done|] + block + pcm[|done| + |block|..] == done + block + before[|done + block|..]
  {
  }

  class LinuxIoctlReader {
    const options: DirectOptions
    const transport: Transport
    var cursor: int
    var positioned: bool

    ghost predicate Valid()
      reads this
    {
      ValidOptions(options) && (positioned ==> 0 <= cursor <= MAX_I32)
    }

    constructor (t: Transport, o: DirectOptions)
      requires ValidOptions(o)
      ensures Valid() && !positioned && options == o && transport == t
    {
      options, transport, cursor, positioned := o, t, 0, false;
    }

    method Seek(lba: int) returns (threw: bool)
      requires Valid() && lba <= MAX_I32
      modifies this
      ensures Valid() && (threw <==> lba < 0)
      ensures if threw then cursor == old(cursor) && positioned == old(positioned) else cursor == lba && positioned
    {
      if lba < 0 { return true; }
      cursor, positioned, threw := lba, true, false;
    }

    /** The retry loop: only an I/O error is retried. */
    method ReadRetrying(lba: int, samples: nat)
        returns (error: int, pcm: seq<Sample>, retries: nat, ghost errors: seq<int>)
      modifies transport
      ensures transport.audioCalls == old(transport.audioCalls) + |errors|
      ensures transport.delivered == old(transport.delivered) + (if error == 0 then [Delivery(lba, pcm)] else [])
      ensures LoopRun(errors, options.retries) && error == Last(errors) && retries == Retries(errors)
      ensures Scripted(errors, transport.audio, old(transport.audioCalls))
      ensures |pcm| == samples && transport.packetCalls == old(transport.packetCalls)
    {
      retries := 0;
      error, pcm := transport.Audio(lba, samples);
      errors := [error];
      while error == EIO && retries != options.retries
        invariant 0 <= retries <= options.retries && |errors| == retries + 1 && |pcm| == samples
        invariant transport.audioCalls == old(transport.audioCalls) + |errors|
        invariant transport.delivered == old(transport.delivered) + (if error == 0 then [Delivery(lba, pcm)] else [])
        invariant Scripted(errors, transport.audio, old(transport.audioCalls))
        invariant transport.packetCalls == old(transport.packetCalls)
        invariant error == errors[|errors| - 1] && forall k :: 0 <= k < |errors| - 1 ==> errors[k] == EIO
        decreases options.retries - retries
      {
        retries := retries + 1;
        error, pcm := transport.Audio(lba, samples);
        errors := errors + [error];
      }
    }

    /** One chunk, whichever way the options allow and the drive answers. */
    method ReadChunk(lba: int, frames: nat)
        returns (error: int, pcm: seq<Sample>, c2: C2Status, retries: nat, ghost c: Chunk)
      requires ValidOptions(options) && 0 < frames <= CHUNK_FRAMES
      modifies transport
      ensures old(transport.delivered) <= transport.delivered
      ensures error == 0 ==> Delivery(lba, pcm) in transport.delivered
      ensures ChunkRuns(options, c) && c == Chunk(lba, frames, pcm, c2, error, c.packet, c.fallback, c.ordinary)
      ensures retries == c.Retried()
      ensures transport.audioCalls == old(transport.audioCalls) + |c.fallback| + |c.ordinary|
      ensures c.packet.Some? ==> c.packet.value == transport.packets(old(transport.packetCalls))
      ensures Scripted(c.fallback, transport.audio, old(transport.audioCalls))
      ensures Scripted(c.ordinary, transport.audio, old(transport.audioCalls) + |c.fallback|)
    {
      error, pcm, c2, retries := 0, [], options.inactiveC2, 0;
      ghost var packet: Option<Packet> := None;
      ghost var fallback, ordinary: seq<int> := [], [];
      if options.requestC2 {
        error, c2, pcm := transport.WithC2(lba, frames * 1176);
        packet := Some(Packet(error, c2));
        if error != 0 || (c2 != C2Clean && c2 != C2Reported) {
          c2 := C2Unknown;
          if options.requireC2 {
            error := if error != 0 then error else EPROTO;
            c := Chunk(lba, frames, pcm, c2, error, packet, fallback, ordinary);
            return;
          }
          error, pcm, retries, fallback := ReadRetrying(lba, frames * 1176);
        }
      }
      if !options.requestC2 || error != 0 {
        if options.requestC2 { c2 := C2Unknown; }
        var more;
        error, pcm, more, ordinary := ReadRetrying(lba, frames * 1176);
        retries := retries + more;
      }
      c := Chunk(lba, frames, pcm, c2, error, packet, fallback, ordinary);
    }

    /**
      Success is one read of the whole range, in chunks; failure keeps the frames that were complete and needs a new
      seek.
    */
    method Read(pcm: array<Sample>)
        returns (r: Option<ReadResult>, ghost chunks: seq<Chunk>, ghost failed: Option<Chunk>)
      requires Valid()
      modifies this, pcm, transport
      ensures Valid() && FromDrive(chunks, transport.delivered)
      ensures r.Some? <==> old(positioned) && 0 < pcm.Length && pcm.Length % 1176 == 0
                           && pcm.Length / 1176 <= MAX_I32 - old(cursor)
      ensures r.None? ==> cursor == old(cursor) && positioned == old(positioned) && pcm[..] == old(pcm[..])
      ensures r.Some? ==> Delivered(options, old(cursor), pcm.Length / 1176, chunks, r.value, pcm[..], old(pcm[..]))
      ensures r.Some? ==> cursor == old(cursor) + r.value.framesRead && positioned == (r.value.status == ReadOk)
      ensures r.Some? && r.value.status == ReadOk ==> r.value.framesRead == pcm.Length / 1176 && pcm[..] == Pcm(chunks)
      ensures r.Some? && r.value.status == ReadOk ==> chunks != [] && Accounted(options, chunks, r.value)
      ensures r.Some? ==> (r.value.status == ReadOk <==> failed.None?)
      ensures r.Some? && failed.Some? ==> FailedAt(options, pcm.Length / 1176, chunks, failed.value, r.value)
    {
      r, chunks, failed := None, [], None;
      if !positioned || pcm.Length == 0 || pcm.Length % 1176 != 0 { return; }
      var count := pcm.Length / 1176;
      if MAX_I32 - cursor < count { return; }
      var result := EMPTY_RESULT.(startLba := cursor, framesRequested := count, status := ReadOk, nativeError := 0,
                                  independence := UnknownIndependence,
                                  c2 := if options.requestC2 then C2Unknown else options.inactiveC2);
      ghost var before := pcm[..];
      assert before[0..] == before;
      while result.status == ReadOk && result.framesRead < count
        invariant Valid() && positioned == (result.status == ReadOk) && cursor == old(cursor) + result.framesRead
        invariant Delivered(options, old(cursor), count, chunks, result, pcm[..], before)
        invariant result.status == ReadOk <==> failed.None?
        invariant if failed.None? then Accounted(options, chunks, result)
                  else FailedAt(options, count, chunks, failed.value, result)
        invariant FromDrive(chunks, transport.delivered)
        decreases if result.status == ReadOk then 1 else 0, count - result.framesRead
      {
        result, chunks, failed := NextChunk(pcm, result, old(cursor), count, chunks, before);
      }
      r := Some(result);
    }

    /** The next transport call of a read; on failure what was delivered stays as it is. */
    method NextChunk(pcm: array<Sample>, result: ReadResult, ghost start: int, count: nat, ghost chunks: seq<Chunk>,
                     ghost before: seq<Sample>)
        returns (result': ReadResult, ghost chunks': seq<Chunk>, ghost failed: Option<Chunk>)
      requires Valid() && positioned && result.framesRead < count
      requires cursor == start + result.framesRead && start + count <= MAX_I32
      requires Delivered(options, start, count, chunks, result, pcm[..], before) && Accounted(options, chunks, result)
      requires FromDrive(chunks, transport.delivered)
      modifies this`cursor, this`positioned, pcm, transport
      ensures Valid() && positioned == (result'.status == ReadOk) && cursor == start + result'.framesRead
      ensures Delivered(options, start, count, chunks', result', pcm[..], before)
      ensures result'.status == ReadOk <==> failed.None?
      ensures if failed.None? then Accounted(options, chunks', result')
              else FailedAt(options, count, chunks', failed.value, result')
      ensures FromDrive(chunks', transport.delivered)
      ensures result'.status == ReadOk ==> result.framesRead < result'.framesRead
    {
      chunks', failed := chunks, None;
      var frames := Min(CHUNK_FRAMES, count - result.framesRead);
      var error, block, c2, retries;
      ghost var c;
      error, block, c2, retries, c := ReadChunk(cursor, frames);
      StillFromDrive(chunks, old(transport.delivered), transport.delivered);
      if error != 0 {
        positioned, failed := false, Some(c);
        result' := result.(status := ReadError, nativeError := error, retries := result.retries + retries,
                           c2 := if options.requireC2 then C2Unknown else result.c2);
        return;
      }
      result' := KeepChunk(pcm, result, Chunk(cursor, frames, block, c2, 0, None, [], []),
                           retries, c, start, count, chunks, before);
      chunks' := chunks + [c];
      AlsoFromDrive(chunks, c, transport.delivered);
    }

    /** A chunk that came back goes into the caller's buffer and the result. */
    method KeepChunk(pcm: array<Sample>, result: ReadResult, read: Chunk, retries: nat, ghost c: Chunk,
                     ghost start: int, ghost count: nat, ghost chunks: seq<Chunk>, ghost before: seq<Sample>)
        returns (result': ReadResult)
      requires Valid() && positioned && cursor == start + result.framesRead
      requires start + count <= MAX_I32 && result.framesRead + c.frames <= count
      requires Delivered(options, start, count, chunks, result, pcm[..], before) && Accounted(options, chunks, result)
      requires ChunkOk(options, c) && c.lba == cursor
      requires read == c.(packet := None, fallback := [], ordinary := []) && retries == c.Retried()
      modifies this`cursor, pcm
      ensures Valid() && cursor == start + result'.framesRead && result' == Extended(result, c)
      ensures Delivered(options, start, count, chunks + [c], result', pcm[..], before)
      ensures Accounted(options, chunks + [c], result')
    {
      ghost var done := Pcm(chunks);
      MoreDelivered(options, start, count, chunks, c, result, pcm[..], before);
      assert |done| == result.framesRead * 1176;
      Place(pcm, result.framesRead * 1176, read.pcm, done, before);
      cursor := cursor + read.frames;
      result' := result.(retries := result.retries + retries, framesRead := result.framesRead + read.frames,
                         c2 := if result.framesRead == 0 then read.c2 else Merge(result.c2, read.c2));
    }

    method Place(pcm: array<Sample>, at: nat, block: seq<Sample>, ghost done: seq<Sample>, ghost before: seq<Sample>)
      requires at == |done| && at + |block| <= |before| == pcm.Length && pcm[..] == done + before[at..]
      modifies pcm
      ensures pcm[..] == Spliced(done, block, before)
    {
      BlockDelivered(pcm[..], done, before, block);
      assert pcm[..at] == pcm[..][..at] && pcm[at + |block|..] == pcm[..][at + |block|..];
      CopyBlock(pcm, at, block);
    }

    method CopyBlock(pcm: array<Sample>, at: nat, block: seq<Sample>)
      requires at + |block| <= pcm.Length
      modifies pcm
      ensures pcm[..] == old(pcm[..at]) + block + old(pcm[at + |block|..])
    {
      for i := 0 to |block|
        invariant pcm[..at] == old(pcm[..at])
        invariant pcm[at..at + i] == block[..i]
        invariant pcm[at + i..] == old(pcm[at + i..])
      {
        pcm[at + i] := block[i];
      }
    }
  }

  /**
    The bound of RetryBound is reached by the reader itself: with a drive that fails the C2 read and then answers with
    I/O errors until the very last attempt, one frame costs twice the configured retries, and still succeeds.
  */
  method WorstCase(o: DirectOptions) returns (error: int, retries: nat)
    requires ValidOptions(o) && o.requestC2 && !o.requireC2
    ensures error == 0 && retries == 2 * o.retries
  {
    var n := 2 * o.retries + 1;
    var drive := new Transport(k => if k < n then EIO else 0, _ => Packet(EIO, C2Unknown));
    var reader := new LinuxIoctlReader(drive, o);
    var pcm, c2;
    ghost var c;
    error, pcm, c2, retries, c := reader.ReadChunk(0, 1);
    assert |c.fallback| == o.retries + 1 by {
      assert c.fallback[|c.fallback| - 1] == drive.audio(0 + (|c.fallback| - 1)) == EIO;
    }
    assert c.ordinary[|c.ordinary| - 1] == drive.audio(|c.fallback| + (|c.ordinary| - 1));
  }
}
