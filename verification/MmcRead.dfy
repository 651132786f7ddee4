/**
  The MMC READ CD packet with C2 pointers (make_mmc_c2_audio_read in
  src/cdda_reader.cpp): the command sent and the decoding of the answer.
*/
module MmcReads {
  import opened Basics
  import opened CddaReaders
  import opened PcmFeeds

  const AUDIO_BYTES: nat := 2352
  const C2_BYTES: nat := 294
  const FRAME_BYTES: nat := 2646
  const EINVAL: int := 22
  const EMSGSIZE: int := 90

  /** Big-endian bytes of `value`, `n` of them. */
  function Big(value: nat, n: nat): (bytes: seq<Byte>)
    ensures |bytes| == n
  {
    if n == 0 then [] else Big(value / 256, n - 1) + [value % 256]
  }

  function FromBig(bytes: seq<Byte>): nat {
    if bytes == [] then 0 else FromBig(bytes[..|bytes| - 1]) * 256 + bytes[|bytes| - 1]
  }

  function Pow256(n: nat): nat { if n == 0 then 1 else 256 * Pow256(n - 1) }

  lemma {:induction false} BigRoundTrip(value: nat, n: nat)
    requires value < Pow256(n)
    ensures FromBig(Big(value, n)) == value
  {
    if n != 0 {
      BigRoundTrip(value / 256, n - 1);
      assert Big(value, n)[..n - 1] == Big(value / 256, n - 1);
    }
  }

  /** READ CD: CD-DA sectors, user data plus C2 pointers. */
  function Command(lba: nat, frames: nat): (cdb: seq<Byte>)
    ensures |cdb| == 12
  {
    [0xbe, 0x04] + Big(lba, 4) + Big(frames, 3) + [0x12, 0, 0]
  }

  /** What a drive reads in a packet: expect CD-DA sectors, this range of them, with user data and C2 pointers. */
  predicate AsksFor(command: seq<Byte>, lba: nat, frames: nat) {
    && |command| == 12 && command[0] == 0xbe && command[1] == 0x04 && command[9] == 0x12
    && FromBig(command[2..6]) == lba && FromBig(command[6..9]) == frames
  }

  /** The packet carries exactly the range asked for. */
  lemma CommandRoundTrip(lba: nat, frames: nat)
    requires lba <= MAX_I32 && frames <= 75
    ensures AsksFor(Command(lba, frames), lba, frames)
  {
    assert Pow256(2) == 65536;
    assert Pow256(3) == 16777216;
    assert Pow256(4) == 4294967296;
    BigRoundTrip(lba, 4);
    BigRoundTrip(frames, 3);
    assert Command(lba, frames)[2..6] == Big(lba, 4);
    assert Command(lba, frames)[6..9] == Big(frames, 3);
  }

  /** One exchange with the drive. */
  datatype Exchange = Exchange(command: seq<Byte>, error: int, response: seq<Byte>, transferred: nat)

  /** The drive behind the packets: any answers, all of them on record. */
  class PacketTransport {
    ghost var exchanges: seq<Exchange>

    constructor ()
      ensures exchanges == []
    {
      exchanges := [];
    }

    method Send(command: seq<Byte>, size: nat) returns (error: int, response: seq<Byte>, transferred: nat)
      modifies this
      ensures |response| == size
      ensures exchanges == old(exchanges) + [Exchange(command, error, response, transferred)]
    {
      error, response, transferred := *, *, *;
      if |response| != size { response := seq(size, _ => 0); }
      exchanges := exchanges + [Exchange(command, error, response, transferred)];
    }
  }

  /** Sample `k` of an answer: after every 2352 audio bytes come 294 pointer bytes. */
  function SampleAt(response: seq<Byte>, frame: nat, k: nat): Sample
    requires k < 1176 && (frame + 1) * FRAME_BYTES <= |response|
  {
    DecodeSample(response[frame * FRAME_BYTES + 2 * k], response[frame * FRAME_BYTES + 2 * k + 1])
  }

  /** Some C2 pointer of the frame is set. */
  predicate Reported(response: seq<Byte>, frame: nat)
    requires (frame + 1) * FRAME_BYTES <= |response|
  {
    exists k :: frame * FRAME_BYTES + AUDIO_BYTES <= k < (frame + 1) * FRAME_BYTES && response[k] != 0
  }

  method DecodeFrame(pcm: array<Sample>, frame: nat, response: seq<Byte>) returns (reported: bool)
    requires (frame + 1) * FRAME_BYTES <= |response| && (frame + 1) * 1176 <= pcm.Length
    modifies pcm
    ensures forall k :: 0 <= k < 1176 ==> pcm[frame * 1176 + k] == SampleAt(response, frame, k)
    ensures forall i :: 0 <= i < pcm.Length && !(frame * 1176 <= i < (frame + 1) * 1176) ==> pcm[i] == old(pcm[i])
    ensures reported == Reported(response, frame)
  {
    for k := 0 to 1176
      invariant forall j :: 0 <= j < k ==> pcm[frame * 1176 + j] == SampleAt(response, frame, j)
      invariant forall i :: 0 <= i < pcm.Length && !(frame * 1176 <= i < (frame + 1) * 1176) ==> pcm[i] == old(pcm[i])
    {
      pcm[frame * 1176 + k] := SampleAt(response, frame, k);
    }
    reported := AnySet(response[frame * FRAME_BYTES + AUDIO_BYTES..(frame + 1) * FRAME_BYTES]);
    PointersOf(response, frame);
  }

  method AnySet(bytes: seq<Byte>) returns (any: bool)
    ensures any <==> exists k :: 0 <= k < |bytes| && bytes[k] != 0
  {
    any := false;
    for k := 0 to |bytes|
      invariant any <==> exists j :: 0 <= j < k && bytes[j] != 0
    {
      any := any || bytes[k] != 0;
    }
  }

  lemma PointersOf(response: seq<Byte>, frame: nat)
    requires (frame + 1) * FRAME_BYTES <= |response|
    ensures var c2 := response[frame * FRAME_BYTES + AUDIO_BYTES..(frame + 1) * FRAME_BYTES];
            Reported(response, frame) <==> exists k :: 0 <= k < |c2| && c2[k] != 0
  {
    var at := frame * FRAME_BYTES + AUDIO_BYTES;
    var c2 := response[at..(frame + 1) * FRAME_BYTES];
    if Reported(response, frame) {
      var k :| at <= k < (frame + 1) * FRAME_BYTES && response[k] != 0;
      assert c2[k - at] != 0;
    }
    if exists k :: 0 <= k < |c2| && c2[k] != 0 {
      var k :| 0 <= k < |c2| && c2[k] != 0;
      assert response[at + k] != 0;
    }
  }

  /** The ranges a packet can ask for. */
  predicate Askable(lba: int, samples: nat) {
    0 <= lba && 0 < samples && samples % 1176 == 0 && samples / 1176 <= Min(75, MAX_I32 - lba)
  }

  /** What comes of an exchange: the drive's own error, or that of a short answer. */
  function ErrorOf(e: Exchange): int {
    if e.error != 0 then e.error else if e.transferred != |e.response| then EMSGSIZE else 0
  }

  /** The samples are those of the answer, frame by frame. */
  predicate Decoded(pcm: seq<Sample>, response: seq<Byte>)
    requires |response| == (|pcm| / 1176) * FRAME_BYTES
  {
    forall f, k :: 0 <= f < |pcm| / 1176 && 0 <= k < 1176 ==> pcm[f * 1176 + k] == SampleAt(response, f, k)
  }

  /**
    A range that can be asked for is asked for in one packet; its answer is decoded if it came whole, and a set pointer
    anywhere in it is reported. Any other range is refused without a packet.
  */
  method C2AudioRead(transport: PacketTransport, lba: int, pcm: array<Sample>)
      returns (error: int, c2: C2Status, ghost e: Exchange)
    modifies pcm, transport
    ensures !Askable(lba, pcm.Length) ==> error == EINVAL && transport.exchanges == old(transport.exchanges)
    ensures Askable(lba, pcm.Length) ==>
              && transport.exchanges == old(transport.exchanges) + [e] && AsksFor(e.command, lba, pcm.Length / 1176)
              && |e.response| == (pcm.Length / 1176) * FRAME_BYTES && error == ErrorOf(e)
    ensures error != 0 ==> c2 == C2Unknown && pcm[..] == old(pcm[..])
    ensures error == 0 ==> Decoded(pcm[..], e.response)
    ensures error == 0 ==> (c2 == C2Reported <==> exists f :: 0 <= f < pcm.Length / 1176 && Reported(e.response, f))
    ensures error == 0 ==> c2 == C2Reported || c2 == C2Clean
  {
    e := Exchange([], 0, [], 0);
    if lba < 0 || pcm.Length == 0 || pcm.Length % 1176 != 0 { return EINVAL, C2Unknown, e; }
    var frames := pcm.Length / 1176;
    if 75 < frames || MAX_I32 - lba < frames { return EINVAL, C2Unknown, e; }
    var answer, transferred;
    error, answer, transferred := transport.Send(Command(lba, frames), frames * FRAME_BYTES);
    CommandRoundTrip(lba, frames);
    e := Exchange(Command(lba, frames), error, answer, transferred);
    if error != 0 { return error, C2Unknown, e; }
    if transferred != |answer| { return EMSGSIZE, C2Unknown, e; }
    c2 := DecodeAnswer(pcm, answer);
  }

  /** The loop over the frames of a whole answer. */
  method DecodeAnswer(pcm: array<Sample>, answer: seq<Byte>) returns (c2: C2Status)
    requires |answer| == (pcm.Length / 1176) * FRAME_BYTES
    modifies pcm
    ensures Decoded(pcm[..], answer)
    ensures c2 == C2Reported || c2 == C2Clean
    ensures c2 == C2Reported <==> exists f :: 0 <= f < pcm.Length / 1176 && Reported(answer, f)
  {
    var frames, reported := pcm.Length / 1176, false;
    for frame := 0 to frames
      invariant forall f, k :: 0 <= f < frame && 0 <= k < 1176 ==> pcm[f * 1176 + k] == SampleAt(answer, f, k)
      invariant reported <==> exists f :: 0 <= f < frame && Reported(answer, f)
    {
      var here := DecodeFrame(pcm, frame, answer);
      reported := reported || here;
    }
    c2 := if reported then C2Reported else C2Clean;
  }
}
