/**
  The consumer object behind the local fingerprint: fixed tables and a fixed
  output buffer, proved to hold what module Sha256 says was absorbed and to
  have room for every manifest it can be asked for.
*/
module Sha256Consumers {
  import opened Basics
  import opened PcmFeeds
  import opened Sha256

  const HEX := "0123456789abcdef"
  const ROW_TEXT_LIMIT: nat := 137

  // ---------------------------------------------------------------- the manifest as text

  function Decimal(n: nat): string {
    if n < 10 then ['0' + (n as char)] else Decimal(n / 10) + ['0' + ((n % 10) as char)]
  }

  function Pow10(k: nat): nat { if k == 0 then 1 else 10 * Pow10(k - 1) }

  lemma {:induction false} DecimalFits(n: nat, k: nat)
    requires 0 < k && n < Pow10(k)
    ensures 0 < |Decimal(n)| <= k
  {
    if 10 <= n {
      assert 1 < k;
      DecimalFits(n / 10, k - 1);
    }
  }

  /** The twenty characters `number` reserves always suffice. */
  lemma NumberFits(n: nat)
    requires n <= MAX_U64
    ensures 0 < |Decimal(n)| <= 20
  {
    assert Pow10(5) == 100000;
    assert Pow10(10) == 100000 * Pow10(5);
    assert Pow10(15) == 100000 * Pow10(10);
    assert Pow10(20) == 100000 * Pow10(15);
    DecimalFits(n, 20);
  }

  function Hex(bytes: seq<Byte>): (text: string)
    ensures |text| == 2 * |bytes|
  {
    if bytes == [] then ""
    else Hex(bytes[..|bytes| - 1]) + [HEX[bytes[|bytes| - 1] / 16], HEX[bytes[|bytes| - 1] % 16]]
  }

  function Digit(c: char): int { c as int - '0' as int }

  /** The number a decimal text stands for. */
  function Value(text: string): int {
    if text == "" then 0 else 10 * Value(text[..|text| - 1]) + Digit(text[|text| - 1])
  }

  lemma {:induction false} DecimalRoundTrip(n: nat)
    ensures Value(Decimal(n)) == n
    ensures forall c <- Decimal(n) :: '0' <= c <= '9'
    ensures 1 < |Decimal(n)| ==> Decimal(n)[0] != '0'
  {
    if 10 <= n {
      DecimalRoundTrip(n / 10);
      assert Decimal(n)[..|Decimal(n)| - 1] == Decimal(n / 10);
    }
  }

  function HexDigit(c: char): int {
    if '0' <= c <= '9' then c as int - '0' as int else c as int - 'a' as int + 10
  }

  function Pair(high: char, low: char): int { 16 * HexDigit(high) + HexDigit(low) }

  /** The bytes a text of hexadecimal digits stands for. */
  function Bytes(text: string): (bytes: seq<int>)
    ensures |bytes| == |text| / 2
  {
    if |text| < 2 then [] else [Pair(text[0], text[1])] + Bytes(text[2..])
  }

  lemma PairOf(b: Byte)
    ensures Pair(HEX[b / 16], HEX[b % 16]) == b
  {
    HexDigitOf(b / 16);
    HexDigitOf(b % 16);
  }

  lemma HexDigitOf(k: nat)
    requires k < 16
    ensures HexDigit(HEX[k]) == k
  {
    if k < 10 { assert HEX[k] == "0123456789"[k]; } else { assert HEX[k] == "abcdef"[k - 10]; }
  }

  /** Each byte is the pair at its place. */
  lemma {:induction false} BytesAt(text: string, k: nat)
    requires 2 * k + 1 < |text|
    ensures Bytes(text)[k] == Pair(text[2 * k], text[2 * k + 1])
  {
    if k != 0 { BytesAt(text[2..], k - 1); }
  }

  lemma {:induction false} HexAt(bytes: seq<Byte>, k: nat)
    requires k < |bytes|
    ensures Hex(bytes)[2 * k] == HEX[bytes[k] / 16] && Hex(bytes)[2 * k + 1] == HEX[bytes[k] % 16]
  {
    if k < |bytes| - 1 { HexAt(bytes[..|bytes| - 1], k); }
  }

  lemma HexRoundTrip(bytes: seq<Byte>)
    ensures Bytes(Hex(bytes)) == bytes
  {
    forall k: nat | k < |bytes| ensures Bytes(Hex(bytes))[k] == bytes[k] {
      BytesAt(Hex(bytes), k);
      HexAt(bytes, k);
      PairOf(bytes[k]);
    }
  }

  /** The fixed texts between the values of a manifest. */
  datatype Texts = Texts(intro: string, version: string, beforeCanonical: string, canonical: string,
                         beforeBytes: string, beforeDigest: string, beforeRows: string, comma: string,
                         beforeNumber: string, beforeRowBytes: string,
                         beforeRowDigest: string, rowEnd: string, end: string)

  function Json(): Texts {
    Texts("{\"kind\":\"local_pcm_fingerprint\",\"algorithm\":\"sha256\",\"version\":\"", "local-pcm-sha256-v1",
          "\",\"canonical\":\"", "s16le-44100-stereo-v1", "\",\"external_verification\":\"NOT_CHECKED\",\"bytes\":",
          ",\"sha256\":\"", "\",\"tracks\":[", ",",
          "{\"number\":", ",\"bytes\":", ",\"sha256\":\"", "\"}", "]}")
  }

  predicate TextsOk(t: Texts) {
    && |t.intro| + |t.version| + |t.beforeCanonical| + |t.canonical| + |t.beforeBytes| + |t.beforeDigest|
       + |t.beforeRows| <= 300
    && |t.comma| + |t.beforeNumber| + |t.beforeRowBytes| + |t.beforeRowDigest| + |t.rowEnd| <= 33
    && |t.end| == 2
  }

  lemma JsonOk()
    ensures TextsOk(Json())
  {
  }

  function Head(t: Texts, bytes: nat, digest: Digest): string {
    t.intro + t.version + t.beforeCanonical + t.canonical + t.beforeBytes + Decimal(bytes) + t.beforeDigest
    + Hex(digest) + t.beforeRows
  }

  function RowText(t: Texts, row: Row): string {
    t.beforeNumber + Decimal(row.number) + t.beforeRowBytes + Decimal(row.bytes) + t.beforeRowDigest + Hex(row.digest)
    + t.rowEnd
  }

  function RowsText(t: Texts, rows: seq<Row>): string {
    if rows == [] then ""
    else RowsText(t, rows[..|rows| - 1]) + SeparatedRow(t, rows[|rows| - 1], 1 < |rows|)
  }

  function SeparatedRow(t: Texts, row: Row, later: bool): string {
    if later then t.comma + RowText(t, row) else RowText(t, row)
  }

  lemma RowFits(t: Texts, row: Row, later: bool)
    requires TextsOk(t) && RowOk(row)
    ensures |SeparatedRow(t, row, later)| <= ROW_TEXT_LIMIT
  {
    NumberFits(row.number);
    NumberFits(row.bytes);
  }

  lemma AppendToNothing(s: string)
    ensures "" + s == s
  {
  }

  lemma NoRows(t: Texts, before: string, rows: seq<Row>)
    ensures before + RowsText(t, rows[..0]) == before
    ensures rows[..|rows|] == rows
  {
  }

  lemma RowsGrow(t: Texts, before: string, rows: seq<Row>, i: nat)
    requires i < |rows|
    ensures before + RowsText(t, rows[..i]) + SeparatedRow(t, rows[i], i != 0) == before + RowsText(t, rows[..i + 1])
  {
    assert rows[..i + 1][..i] == rows[..i];
    assert RowsText(t, rows[..i + 1]) == RowsText(t, rows[..i]) + SeparatedRow(t, rows[i], i != 0);
  }

  function Manifest(t: Texts, bytes: nat, digest: Digest, rows: seq<Row>): string {
    Head(t, bytes, digest) + RowsText(t, rows) + t.end
  }

  predicate RowOk(row: Row) { row.number <= 99 && row.bytes <= MAX_U64 }

  lemma HeadFits(t: Texts, bytes: nat, digest: Digest)
    requires TextsOk(t) && bytes <= MAX_U64
    ensures |Head(t, bytes, digest)| <= 400
  {
    NumberFits(bytes);
  }

  lemma {:induction false} RowsFit(t: Texts, rows: seq<Row>)
    requires TextsOk(t) && forall k :: 0 <= k < |rows| ==> RowOk(rows[k])
    ensures |RowsText(t, rows)| <= ROW_TEXT_LIMIT * |rows|
  {
    if rows != [] {
      RowsFit(t, rows[..|rows| - 1]);
      RowFits(t, rows[|rows| - 1], 1 < |rows|);
    }
  }

  /** Whatever was absorbed, the manifest fits its buffer. */
  lemma ManifestFits(t: Texts, bytes: nat, digest: Digest, rows: seq<Row>)
    requires TextsOk(t) && bytes <= MAX_U64 && |rows| <= TRACK_LIMIT
    requires forall k :: 0 <= k < |rows| ==> RowOk(rows[k])
    ensures 0 < |Manifest(t, bytes, digest, rows)| <= MANIFEST_LIMIT
  {
    HeadFits(t, bytes, digest);
    RowsFit(t, rows);
  }

  class Sha256Consumer {
    const hash: Hash
    const text: Texts
    const tracks: array<Row>
    const output: array<char>
    /** The two digest contexts, as the bytes they have absorbed. */
    var disc: seq<Byte>
    var track: seq<Byte>
    var bytes: nat
    var trackBytes: nat
    var tracksCount: nat
    var outputSize: nat
    var currentTrack: nat
    var finalized: bool
    var discarded: bool

    ghost predicate Valid()
      reads this, tracks
    {
      && TextsOk(text)
      && tracks.Length == TRACK_LIMIT && output.Length == MANIFEST_LIMIT
      && bytes == |disc| <= MAX_U64 && trackBytes == |track| <= bytes
      && tracksCount <= currentTrack <= 99
      && (currentTrack != 0 && !finalized ==> tracksCount < currentTrack)
      && (forall k :: 0 <= k < tracksCount ==> RowOk(tracks[k]))
      && outputSize <= MANIFEST_LIMIT && (!finalized || discarded ==> outputSize == 0)
    }

    ghost function Model(): Absorbed
      requires Valid()
      reads this, tracks
    {
      Absorbed(disc, currentTrack, track, tracks[..tracksCount])
    }

    constructor (h: Hash, t: Texts)
      requires TextsOk(t)
      ensures Valid() && fresh(tracks) && fresh(output) && hash == h && text == t
      ensures Model() == NOTHING && !finalized && !discarded
    {
      hash, text := h, t;
      tracks := new Row[TRACK_LIMIT](_ => Row(0, 0, h([])));
      output := new char[MANIFEST_LIMIT](_ => '\0');
      disc, track, bytes, trackBytes := [], [], 0, 0;
      tracksCount, outputSize, currentTrack, finalized, discarded := 0, 0, 0, false, false;
    }

    /** Closes the current track; the table always has room for it. */
    method FinishTrack()
      requires Valid() && (currentTrack != 0 ==> tracksCount < currentTrack)
      modifies this`tracksCount, tracks
      ensures tracksCount <= currentTrack && (forall k :: 0 <= k < tracksCount ==> RowOk(tracks[k]))
      ensures tracks[..tracksCount] == CloseTrack(hash, old(Model()))
    {
      if currentTrack == 0 { return; }
      tracks[tracksCount] := Row(currentTrack, trackBytes, hash(track));
      tracksCount := tracksCount + 1;
    }

    /** Absorbs an acceptable chunk, and refuses any other without absorbing it. */
    method Consume(number: int, chunk: seq<Byte>) returns (ok: bool)
      requires Valid()
      modifies this, tracks
      ensures Valid() && finalized == old(finalized) && discarded == old(discarded)
      ensures ok <==> !discarded && !finalized && Acceptable(old(currentTrack), Chunk(number, chunk))
                      && |chunk| <= MAX_U64 - old(bytes)
      ensures ok ==> Model() == Absorb(hash, old(Model()), Chunk(number, chunk))
      ensures disc == if ok then old(disc) + chunk else old(disc)
    {
      if discarded || finalized { return false; }
      if !Acceptable(currentTrack, Chunk(number, chunk)) { return false; }
      if number != currentTrack {
        FinishTrack();
        currentTrack, trackBytes, track := number, 0, [];
      }
      if MAX_U64 - bytes < |chunk| { return false; }
      disc, track := disc + chunk, track + chunk;
      bytes, trackBytes := bytes + |chunk|, trackBytes + |chunk|;
      ok := true;
    }

    method AppendText(more: string)
      requires output.Length == MANIFEST_LIMIT && outputSize + |more| <= MANIFEST_LIMIT
      modifies this`outputSize, output
      ensures outputSize == old(outputSize) + |more|
      ensures output[..outputSize] == old(output[..outputSize]) + more
    {
      for i := 0 to |more|
        invariant outputSize == old(outputSize)
        invariant output[..outputSize + i] == old(output[..outputSize]) + more[..i]
      {
        output[outputSize + i] := more[i];
      }
      outputSize := outputSize + |more|;
    }

    method AppendRow(row: Row, ghost before: string, ghost rows: seq<Row>, i: nat)
      requires output.Length == MANIFEST_LIMIT
      requires outputSize + ROW_TEXT_LIMIT <= MANIFEST_LIMIT && TextsOk(text) && RowOk(row)
      requires i < |rows| && rows[i] == row && output[..outputSize] == before + RowsText(text, rows[..i])
      modifies this`outputSize, output
      ensures outputSize <= old(outputSize) + ROW_TEXT_LIMIT
      ensures output[..outputSize] == before + RowsText(text, rows[..i + 1])
    {
      RowFits(text, row, i != 0);
      RowsGrow(text, before, rows, i);
      AppendText(SeparatedRow(text, row, i != 0));
    }

    /** The table as text; it never overruns the buffer. */
    method AppendRows()
      requires output.Length == MANIFEST_LIMIT && tracksCount <= TRACK_LIMIT == tracks.Length
      requires outputSize <= 400 && TextsOk(text)
      requires forall k :: 0 <= k < tracksCount ==> RowOk(tracks[k])
      modifies this`outputSize, output
      ensures outputSize <= 400 + ROW_TEXT_LIMIT * tracksCount
      ensures output[..outputSize] == old(output[..outputSize]) + RowsText(text, tracks[..tracksCount])
    {
      ghost var rows, before := tracks[..tracksCount], output[..outputSize];
      NoRows(text, before, rows);
      for i := 0 to tracksCount
        invariant outputSize <= 400 + ROW_TEXT_LIMIT * i
        invariant output[..outputSize] == before + RowsText(text, rows[..i])
      {
        AppendRow(tracks[i], before, rows, i);
      }
    }

    /** Closes the fingerprint, once, and returns the manifest of everything absorbed. */
    method Finalize() returns (r: Option<string>)
      requires Valid()
      modifies this, tracks, output
      ensures Valid() && discarded == old(discarded)
      ensures r.Some? <==> !old(discarded) && !old(finalized)
      ensures r.Some? ==> finalized && r.value == output[..outputSize]
      ensures r.Some? ==> r.value == Manifest(text, |old(disc)|, hash(old(disc)), CloseTrack(hash, old(Model())))
    {
      if discarded || finalized { return None; }
      finalized := true;
      FinishTrack();
      WriteManifest(hash(disc));
      r := Some(output[..outputSize]);
    }

    method WriteManifest(digest: Digest)
      requires output.Length == MANIFEST_LIMIT && tracksCount <= TRACK_LIMIT == tracks.Length
      requires TextsOk(text) && outputSize == 0 && bytes <= MAX_U64
      requires forall k :: 0 <= k < tracksCount ==> RowOk(tracks[k])
      modifies this`outputSize, output
      ensures outputSize <= MANIFEST_LIMIT
      ensures output[..outputSize] == Manifest(text, bytes, digest, tracks[..tracksCount])
    {
      ghost var rows := tracks[..tracksCount];
      HeadFits(text, bytes, digest);
      AppendText(Head(text, bytes, digest));
      AppendToNothing(Head(text, bytes, digest));
      AppendRows();
      AppendText(text.end);
    }

    /** Forgets everything; nothing is accepted afterwards. */
    method DiscardAll()
      requires Valid()
      modifies this
      ensures Valid() && discarded && disc == [] && track == [] && tracksCount == 0 && outputSize == 0
    {
      discarded := true;
      disc, track, bytes, trackBytes, currentTrack, tracksCount, outputSize := [], [], 0, 0, 0, 0, 0;
    }
  }
}
