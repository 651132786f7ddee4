/**
  Which byte strings pass for PNG images (admitted_png in
  src/artist_background_image.cpp), against a grammar of chunks: sections 5.3
  to 5.6 of the W3C PNG Specification, narrowed by the product's profile.
*/
module PngAdmission {
  import Crc32

  type Bytes = seq<bv8>

  /**
    What protects a chunk's type and data, and what its type means; nothing else of a format matters to the grammar.
  */
  datatype Format = Format(sum: Bytes -> int, kind: Bytes -> Kind)

  const PNG := Format(Crc32.CrcValue, KindOf)

  /** The format the methods compute; the triggers keep the checksum's definition out of every other proof. */
  ghost predicate Computed(fmt: Format) {
    && (forall b {:trigger Crc32.CrcValue(b)} :: fmt.sum(b) == Crc32.CrcValue(b))
    && (forall name {:trigger KindOf(name)} :: fmt.kind(name) == KindOf(name))
  }

  const IMAGE_LIMIT: nat := 8 * 1024 * 1024
  const SIGNATURE: Bytes := [0x89, 0x50, 0x4e, 0x47, 0x0d, 0x0a, 0x1a, 0x0a]

  /** Chunk types by name; any other four letters are `Other`. */
  datatype Kind = IHDR | PLTE | IDAT | IEND | Animation | Critical | Ancillary

  datatype Chunk = Chunk(name: Bytes, data: Bytes)

  // ---------------------------------------------------------------- one chunk

  /** Big-endian. */
  function Number(word: Bytes): nat {
    if word == [] then 0 else Number(word[..|word| - 1]) * 256 + word[|word| - 1] as int
  }

  function U32(b: Bytes, at: nat): nat
    requires at + 4 <= |b|
  {
    Number(b[at..at + 4])
  }

  predicate Upper(b: bv8) { 0x41 <= b <= 0x5a }

  predicate Letter(b: bv8) { Upper(b) || 0x61 <= b <= 0x7a }

  /** Four letters, the third (reserved) one upper case. */
  predicate ValidName(name: Bytes) {
    |name| == 4 && (forall i :: 0 <= i < 4 ==> Letter(name[i])) && Upper(name[2])
  }

  predicate ValidChunk(c: Chunk) { ValidName(c.name) && |c.data| <= 0x7fff_ffff }

  function Size(c: Chunk): nat { |c.data| + 12 }

  /** `b` starts with an encoding of `c`: length, name, data and a matching checksum. */
  predicate StartsWith(fmt: Format, b: Bytes, c: Chunk) {
    && Size(c) <= |b| && |c.name| == 4
    && U32(b, 0) == |c.data|
    && b[4..8] == c.name && b[8..8 + |c.data|] == c.data
    && U32(b, 8 + |c.data|) == fmt.sum(b[4..8 + |c.data|])
  }

  /** `b` is the encodings of the chunks, one after the other. */
  predicate Encodes(fmt: Format, b: Bytes, chunks: seq<Chunk>)
    decreases |chunks|
  {
    if chunks == [] then b == []
    else ValidChunk(chunks[0]) && StartsWith(fmt, b, chunks[0]) && Encodes(fmt, b[Size(chunks[0])..], chunks[1..])
  }

  /** The chunk at the start of `b`, if there is one. */
  function Head(fmt: Format, b: Bytes): (r: Option<Chunk>)
    ensures r.Some? ==> ValidChunk(r.value) && StartsWith(fmt, b, r.value)
    ensures r.None? ==> forall c :: ValidChunk(c) ==> !StartsWith(fmt, b, c)
  {
    if |b| < 12 || U32(b, 0) > 0x7fff_ffff || U32(b, 0) > |b| - 12 then None
    else
      var c := Chunk(b[4..8], b[8..8 + U32(b, 0)]);
      if ValidName(c.name) && U32(b, 8 + |c.data|) == fmt.sum(b[4..8 + |c.data|]) then Some(c) else None
  }

  datatype Option<+T> = None | Some(value: T)

  lemma OneChunkStarts(fmt: Format, b: Bytes, c: Chunk, d: Chunk)
    requires StartsWith(fmt, b, c) && StartsWith(fmt, b, d)
    ensures c == d
  {
  }

  /** A byte string has at most one reading as chunks. */
  lemma {:induction false} ParseUnique(fmt: Format, b: Bytes, x: seq<Chunk>, y: seq<Chunk>)
    requires Encodes(fmt, b, x) && Encodes(fmt, b, y)
    ensures x == y
    decreases |x|
  {
    if x != [] && y != [] {
      OneChunkStarts(fmt, b, x[0], y[0]);
      ParseUnique(fmt, b[Size(x[0])..], x[1..], y[1..]);
    }
  }

  // ---------------------------------------------------------------- the rules

  function KindOf(name: Bytes): Kind {
    if name == [0x49, 0x48, 0x44, 0x52] then IHDR
    else if name == [0x50, 0x4c, 0x54, 0x45] then PLTE
    else if name == [0x49, 0x44, 0x41, 0x54] then IDAT
    else if name == [0x49, 0x45, 0x4e, 0x44] then IEND
    else if name == [0x61, 0x63, 0x54, 0x4c] || name == [0x66, 0x63, 0x54, 0x4c] || name == [0x66, 0x64, 0x41, 0x54]
    then Animation
    else if name != [] && Upper(name[0]) then Critical
    else Ancillary
  }

  predicate AdmittedDimensions(width: int, height: int) {
    0 < width <= 4096 && 0 < height <= 4096 && width * height <= 8388608
  }

  predicate LegalDepth(color: bv8, depth: bv8) {
    if color == 0 || color == 3 then depth == 1 || depth == 2 || depth == 4 || depth == 8
    else (color == 2 || color == 4 || color == 6) && depth == 8
  }

  predicate HeaderOk(data: Bytes) {
    && |data| == 13 && AdmittedDimensions(U32(data, 0), U32(data, 4)) && LegalDepth(data[9], data[8])
    && data[10] == 0 && data[11] == 0 && (data[12] == 0 || data[12] == 1)
  }

  /** Palette entries a bit depth can address. */
  function Colors(depth: bv8): nat {
    if depth == 1 then 2 else if depth == 2 then 4 else if depth == 4 then 16 else 256
  }

  predicate PaletteOk(color: bv8, depth: bv8, data: Bytes) {
    && color != 0 && color != 4 && 0 < |data| <= 768 && |data| % 3 == 0
    && (color == 3 ==> |data| / 3 <= Colors(depth))
  }

  /** A chunk, reduced to what the rules look at. */
  datatype Item = Item(kind: Kind, data: Bytes)

  function ItemOf(fmt: Format, c: Chunk): Item { Item(fmt.kind(c.name), c.data) }

  predicate Is(items: seq<Item>, i: int, kind: Kind) { 0 <= i < |items| && items[i].kind == kind }

  ghost predicate Has(items: seq<Item>, kind: Kind) { exists i :: Is(items, i, kind) }

  ghost predicate HasData(items: seq<Item>) { exists i :: Is(items, i, IDAT) && items[i].data != [] }

  function Color(items: seq<Item>): bv8 {
    if items == [] || |items[0].data| != 13 then 0 else items[0].data[9]
  }

  function Depth(items: seq<Item>): bv8 {
    if items == [] || |items[0].data| != 13 then 0 else items[0].data[8]
  }

  /** What must hold of the chunks before the end chunk. */
  ghost predicate LegalBody(items: seq<Item>) {
    && (items != [] ==> items[0].kind == IHDR && HeaderOk(items[0].data))
    && (forall i :: Is(items, i, IHDR) ==> i == 0)
    && !Has(items, IEND) && !Has(items, Animation) && !Has(items, Critical)
    && (forall i, j, k :: Is(items, i, IDAT) && Is(items, k, IDAT) && i < j < k ==> Is(items, j, IDAT))
    && (forall i, j :: Is(items, i, PLTE) && Is(items, j, PLTE) ==> i == j)
    && (forall i, j :: Is(items, i, PLTE) && Is(items, j, IDAT) ==> i < j)
    && (forall i :: Is(items, i, PLTE) ==> PaletteOk(Color(items), Depth(items), items[i].data))
    && (Color(items) == 3 && Has(items, IDAT) ==> Has(items, PLTE))
  }

  /** A whole image: a legal body with some image data, closed by an empty end chunk. */
  ghost predicate Legal(items: seq<Item>) {
    && items != [] && items[|items| - 1] == Item(IEND, [])
    && LegalBody(items[..|items| - 1]) && HasData(items[..|items| - 1])
  }

  // ---------------------------------------------------------------- the source's flags

  datatype State = State(header: bool, depth: bv8, color: bv8, palette: bool, data: bool, ended: bool, nonempty: bool)

  const INITIAL := State(false, 0, 0, false, false, false, false)

  /** One chunk before the end chunk, by the source's flags. */
  function Step(s: State, c: Item): Option<State> {
    if !s.header && c.kind != IHDR then None
    else match c.kind
      case IHDR =>
        if s.header || !HeaderOk(c.data) then None else Some(s.(header := true, depth := c.data[8], color := c.data[9]))
      case IDAT =>
        if s.ended || (s.color == 3 && !s.palette) then None
        else Some(s.(data := true, nonempty := s.nonempty || c.data != []))
      case PLTE =>
        if s.palette || s.data || !PaletteOk(s.color, s.depth, c.data) then None else Some(s.(palette := true))
      case Ancillary => Some(s.(ended := s.ended || s.data))
      case IEND => None
      case Animation => None
      case Critical => None
  }

  /** What the flags say about the chunks so far. */
  ghost predicate Describes(s: State, items: seq<Item>) {
    && (s.header <==> items != []) && s.color == Color(items) && s.depth == Depth(items)
    && (s.palette <==> Has(items, PLTE)) && (s.data <==> Has(items, IDAT)) && (s.nonempty <==> HasData(items))
    && (s.ended <==> s.data && items[|items| - 1].kind != IDAT)
  }

  lemma HasAppended(items: seq<Item>, c: Item, kind: Kind)
    ensures Has(items + [c], kind) <==> Has(items, kind) || c.kind == kind
  {
    if Has(items, kind) {
      var i :| Is(items, i, kind);
      assert Is(items + [c], i, kind);
    }
    if c.kind == kind { assert Is(items + [c], |items|, kind); }
    if Has(items + [c], kind) {
      var i :| Is(items + [c], i, kind);
      assert Is(items, i, kind) || i == |items|;
    }
  }

  lemma HasDataAppended(items: seq<Item>, c: Item)
    ensures HasData(items + [c]) <==> HasData(items) || (c.kind == IDAT && c.data != [])
  {
    var all := items + [c];
    if HasData(items) {
      var i :| Is(items, i, IDAT) && items[i].data != [];
      assert Is(all, i, IDAT) && all[i].data != [];
    }
    if c.kind == IDAT && c.data != [] { assert Is(all, |items|, IDAT) && all[|items|].data != []; }
    if HasData(all) {
      var i :| Is(all, i, IDAT) && all[i].data != [];
      assert Is(items, i, IDAT) || i == |items|;
    }
  }

  /** The flags stay a true description of a legal body. */
  lemma StepDescribes(s: State, items: seq<Item>, c: Item)
    requires LegalBody(items) && Describes(s, items) && Step(s, c).Some?
    ensures Describes(Step(s, c).value, items + [c])
  {
    HasAppended(items, c, PLTE);
    HasAppended(items, c, IDAT);
    HasDataAppended(items, c);
  }

  /** A chunk the source takes keeps the body legal. */
  lemma StepLegal(s: State, items: seq<Item>, c: Item)
    requires LegalBody(items) && Describes(s, items) && Step(s, c).Some?
    ensures LegalBody(items + [c])
  {
    var all := items + [c];
    HasAppended(items, c, IEND);
    HasAppended(items, c, Animation);
    HasAppended(items, c, Critical);
    HasAppended(items, c, PLTE);
    HasAppended(items, c, IDAT);
    assert Color(all) == Step(s, c).value.color && Depth(all) == Step(s, c).value.depth;
    forall i, j, k | Is(all, i, IDAT) && Is(all, k, IDAT) && i < j < k ensures Is(all, j, IDAT) {
      DataContiguous(s, items, c, i, j, k);
    }
    forall i, j | Is(all, i, PLTE) && Is(all, j, PLTE) ensures i == j {
      assert Is(items, i, PLTE) || i == |items|;
      assert Is(items, j, PLTE) || j == |items|;
    }
    forall i, j | Is(all, i, PLTE) && Is(all, j, IDAT) ensures i < j {
      assert Is(items, i, PLTE) || i == |items|;
      assert Is(items, j, IDAT) || j == |items|;
    }
    forall i | Is(all, i, PLTE) ensures PaletteOk(Color(all), Depth(all), all[i].data) {
      assert Is(items, i, PLTE) || i == |items|;
    }
    forall i | Is(all, i, IHDR) ensures i == 0 {
      assert Is(items, i, IHDR) || i == |items|;
    }
  }

  lemma DataContiguous(s: State, items: seq<Item>, c: Item, i: int, j: int, k: int)
    requires LegalBody(items) && Describes(s, items) && Step(s, c).Some?
    requires Is(items + [c], i, IDAT) && Is(items + [c], k, IDAT) && i < j < k
    ensures Is(items + [c], j, IDAT)
  {
    assert Is(items, i, IDAT);
    if k == |items| {
      assert Is(items, |items| - 1, IDAT);
      assert j == |items| - 1 || Is(items, j, IDAT);
    } else {
      assert Is(items, k, IDAT);
      assert Is(items, j, IDAT);
    }
  }

  /** A chunk the source refuses would make the body illegal. */
  lemma StepRefuses(s: State, items: seq<Item>, c: Item)
    requires LegalBody(items) && Describes(s, items) && Step(s, c).None?
    ensures !LegalBody(items + [c])
  {
    var all, n := items + [c], |items|;
    assert Is(all, n, c.kind) && all[n] == c;
    HasAppended(items, c, c.kind);
    if c.kind == IDAT && s.header {
      DataRefused(s, items, c);
    } else if c.kind == PLTE && s.header {
      PaletteRefused(s, items, c);
    } else if s.header {
      assert all[0] == items[0];
    }
  }

  lemma DataRefused(s: State, items: seq<Item>, c: Item)
    requires LegalBody(items) && Describes(s, items) && Step(s, c).None? && c.kind == IDAT && s.header
    ensures !LegalBody(items + [c])
  {
    var all, n := items + [c], |items|;
    assert Is(all, n, IDAT);
    HasAppended(items, c, PLTE);
    assert all[0] == items[0];
    if s.ended {
      var i :| Is(items, i, IDAT);
      assert Is(all, i, IDAT) && !Is(all, n - 1, IDAT) && i < n - 1;
    }
  }

  lemma PaletteRefused(s: State, items: seq<Item>, c: Item)
    requires LegalBody(items) && Describes(s, items) && Step(s, c).None? && c.kind == PLTE && s.header
    ensures !LegalBody(items + [c])
  {
    var all, n := items + [c], |items|;
    assert Is(all, n, PLTE) && all[n] == c;
    assert all[0] == items[0];
    if s.palette {
      var i :| Is(items, i, PLTE);
      assert Is(all, i, PLTE);
    }
    if s.data {
      var i :| Is(items, i, IDAT);
      assert Is(all, i, IDAT);
    }
  }

  // ---------------------------------------------------------------- whole images

  /** The source's verdict on the chunks from here on. */
  predicate Follows(s: State, items: seq<Item>)
    decreases |items|
  {
    && items != []
    && (if items[0].kind == IEND then s.header && items[0].data == [] && s.data && s.nonempty && |items| == 1
        else Step(s, items[0]).Some? && Follows(Step(s, items[0]).value, items[1..]))
  }

  lemma LegalPrefix(items: seq<Item>, n: nat)
    requires LegalBody(items) && n <= |items|
    ensures LegalBody(items[..n])
  {
    var front := items[..n];
    forall i, kind | Is(front, i, kind) ensures Is(items, i, kind) {
    }
    forall i, j, k | Is(front, i, IDAT) && Is(front, k, IDAT) && i < j < k ensures Is(front, j, IDAT) {
      assert Is(items, i, IDAT) && Is(items, k, IDAT);
      assert Is(items, j, IDAT);
    }
    if Color(front) == 3 && Has(front, IDAT) {
      var j :| Is(front, j, IDAT);
      assert Is(items, j, IDAT);
      var i :| Is(items, i, PLTE);
      assert Is(front, i, PLTE);
    }
  }

  /** The flags decide exactly the declared rules. */
  lemma {:induction false} FollowsIffLegal(s: State, done: seq<Item>, items: seq<Item>)
    requires LegalBody(done) && Describes(s, done)
    ensures Follows(s, items) <==> items != [] && Legal(done + items)
    decreases |items|
  {
    if items == [] { return; }
    var c, all := items[0], done + items;
    assert all == (done + [c]) + items[1..];
    if c.kind == IEND {
      EndDecides(s, done, items);
    } else if Step(s, c).Some? {
      StepDescribes(s, done, c);
      StepLegal(s, done, c);
      FollowsIffLegal(Step(s, c).value, done + [c], items[1..]);
      if |items| == 1 { assert all[|all| - 1] == c; }
    } else {
      RefusedIsIllegal(s, done, c, items[1..]);
    }
  }

  lemma RefusedIsIllegal(s: State, done: seq<Item>, c: Item, rest: seq<Item>)
    requires LegalBody(done) && Describes(s, done) && c.kind != IEND && Step(s, c).None?
    ensures !Legal(done + [c] + rest)
  {
    var all := done + [c] + rest;
    StepRefuses(s, done, c);
    if Legal(all) {
      BodyOf(done, c, rest);
      LegalPrefix(all[..|all| - 1], |done| + 1);
    }
  }

  /** In an image, a chunk that is not the end belongs to the body. */
  lemma BodyOf(done: seq<Item>, c: Item, rest: seq<Item>)
    requires Legal(done + [c] + rest) && c.kind != IEND
    ensures rest != [] && (done + [c] + rest)[..|done + rest|][..|done| + 1] == done + [c]
  {
    var all := done + [c] + rest;
    assert (done + [c])[|done|] == c;
    assert rest == [] ==> all == done + [c];
  }

  lemma EndDecides(s: State, done: seq<Item>, items: seq<Item>)
    requires LegalBody(done) && Describes(s, done) && items != [] && items[0].kind == IEND
    ensures Follows(s, items) <==> Legal(done + items)
  {
    var all := done + items;
    if HasData(done) {
      var i :| Is(done, i, IDAT) && done[i].data != [];
      assert Has(done, IDAT);
    }
    if |items| == 1 {
      assert all[..|all| - 1] == done && all[|all| - 1] == items[0];
    } else {
      assert Is(all[..|all| - 1], |done|, IEND);
    }
  }

  lemma FollowsFromStart(items: seq<Item>)
    ensures Follows(INITIAL, items) <==> Legal(items)
  {
    FollowsIffLegal(INITIAL, [], items);
    assert [] + items == items;
  }

  /** What the rules see of a chunk list. */
  function Items(fmt: Format, chunks: seq<Chunk>): (items: seq<Item>)
    ensures |items| == |chunks|
  {
    if chunks == [] then [] else [ItemOf(fmt, chunks[0])] + Items(fmt, chunks[1..])
  }

  /** `b` reads as chunks the source would follow from `s`. */
  predicate Reads(fmt: Format, s: State, b: Bytes, chunks: seq<Chunk>) { Encodes(fmt, b, chunks) && Follows(s,
                  Items(fmt, chunks)) }

  ghost predicate Readable(fmt: Format, s: State, b: Bytes) { exists chunks :: Reads(fmt, s, b, chunks) }

  predicate Signed(b: Bytes) { 8 <= |b| <= IMAGE_LIMIT && b[..8] == SIGNATURE }

  /** An image: the signature, then encodings of chunks that obey the rules; nothing more. */
  ghost predicate Image(fmt: Format, b: Bytes, chunks: seq<Chunk>) {
    Signed(b) && Encodes(fmt, b[8..], chunks) && Legal(Items(fmt, chunks))
  }

  ghost predicate Admitted(fmt: Format, b: Bytes) { exists chunks :: Image(fmt, b, chunks) }

  /** No image has two readings. */
  lemma ImageUnique(fmt: Format, b: Bytes, x: seq<Chunk>, y: seq<Chunk>)
    requires Image(fmt, b, x) && Image(fmt, b, y)
    ensures x == y
  {
    ParseUnique(fmt, b[8..], x, y);
  }

  lemma ReadsIsImage(fmt: Format, b: Bytes, chunks: seq<Chunk>)
    requires Signed(b)
    ensures Reads(fmt, INITIAL, b[8..], chunks) <==> Image(fmt, b, chunks)
  {
    FollowsFromStart(Items(fmt, chunks));
  }

  lemma ReadableIsAdmitted(fmt: Format, b: Bytes)
    requires Signed(b)
    ensures Readable(fmt, INITIAL, b[8..]) <==> Admitted(fmt, b)
  {
    if Readable(fmt, INITIAL, b[8..]) {
      var chunks :| Reads(fmt, INITIAL, b[8..], chunks);
      ReadsIsImage(fmt, b, chunks);
    }
    if Admitted(fmt, b) {
      var chunks :| Image(fmt, b, chunks);
      ReadsIsImage(fmt, b, chunks);
    }
  }

  /** What the source does with the chunk at the front, and what it leaves for the rest. */
  predicate Takes(fmt: Format, s: State, c: Chunk, rest: Bytes) {
    if ItemOf(fmt, c).kind == IEND then s.header && c.data == [] && s.data && s.nonempty && rest == []
    else Step(s, ItemOf(fmt, c)).Some?
  }

  lemma ReadsFront(fmt: Format, s: State, b: Bytes, chunks: seq<Chunk>)
    requires Reads(fmt, s, b, chunks)
    ensures chunks != [] && Head(fmt, b) == Some(chunks[0]) && Takes(fmt, s, chunks[0], b[Size(chunks[0])..])
    ensures ItemOf(fmt, chunks[0]).kind != IEND ==>
              Reads(fmt, Step(s, ItemOf(fmt, chunks[0])).value, b[Size(chunks[0])..], chunks[1..])
  {
    assert StartsWith(fmt, b, chunks[0]);
    OneChunkStarts(fmt, b, chunks[0], Head(fmt, b).value);
    assert Encodes(fmt, b[Size(chunks[0])..], chunks[1..]);
    assert Items(fmt, chunks)[1..] == Items(fmt, chunks[1..]);
    assert |chunks| == 1 ==> chunks[1..] == [];
  }

  lemma ReadsOn(fmt: Format, s: State, b: Bytes, c: Chunk, more: seq<Chunk>)
    requires Head(fmt, b) == Some(c) && Takes(fmt, s, c, b[Size(c)..])
    requires if ItemOf(fmt, c).kind == IEND then more == []
             else Reads(fmt, Step(s, ItemOf(fmt, c)).value, b[Size(c)..], more)
    ensures Reads(fmt, s, b, [c] + more)
  {
    assert ([c] + more)[1..] == more;
    assert ([ItemOf(fmt, c)] + Items(fmt, more))[1..] == Items(fmt, more);
  }

  /** Reading on after one chunk. */
  lemma ReadableStep(fmt: Format, s: State, b: Bytes)
    ensures Head(fmt, b).None? ==> !Readable(fmt, s, b)
    ensures Head(fmt, b).Some? ==>
              var c := Head(fmt, b).value;
              Readable(fmt, s, b) <==>
                && Takes(fmt, s, c, b[Size(c)..])
                && (ItemOf(fmt, c).kind != IEND ==> Readable(fmt, Step(s, ItemOf(fmt, c)).value, b[Size(c)..]))
  {
    if Readable(fmt, s, b) {
      var chunks :| Reads(fmt, s, b, chunks);
      ReadsFront(fmt, s, b, chunks);
    }
    if Head(fmt, b).Some? && Takes(fmt, s, Head(fmt, b).value, b[Size(Head(fmt, b).value)..]) {
      var c := Head(fmt, b).value;
      if ItemOf(fmt, c).kind == IEND {
        ReadsOn(fmt, s, b, c, []);
      } else if Readable(fmt, Step(s, ItemOf(fmt, c)).value, b[Size(c)..]) {
        var more :| Reads(fmt, Step(s, ItemOf(fmt, c)).value, b[Size(c)..], more);
        ReadsOn(fmt, s, b, c, more);
      }
    }
  }

  // ---------------------------------------------------------------- the recogniser

  lemma SliceOfSlice(bytes: Bytes, offset: nat, from: nat, to: nat)
    requires from <= to && offset + to <= |bytes|
    ensures bytes[offset..][from..to] == bytes[offset + from..offset + to]
  {
  }

  /** The chunk at an offset, in terms of the whole text. */
  lemma HeadAt(fmt: Format, bytes: Bytes, offset: nat, length: nat)
    requires offset + 12 + length <= |bytes| && U32(bytes, offset) == length <= 0x7fff_ffff
    ensures var c := Chunk(bytes[offset + 4..offset + 8], bytes[offset + 8..offset + 8 + length]);
            Head(fmt, bytes[offset..]) ==
              if ValidName(c.name)
                 && U32(bytes, offset + 8 + length) == fmt.sum(bytes[offset + 4..offset + 8 + length])
              then Some(c) else None
  {
    SliceOfSlice(bytes, offset, 4, 8);
    SliceOfSlice(bytes, offset, 8, 8 + length);
    SliceOfSlice(bytes, offset, 4, 8 + length);
    SliceOfSlice(bytes, offset, 0, 4);
    SliceOfSlice(bytes, offset, 8 + length, 12 + length);
  }

  method CheckName(name: Bytes) returns (ok: bool)
    requires |name| == 4
    ensures ok <==> ValidName(name)
  {
    for i := 0 to 4
      invariant forall j :: 0 <= j < i ==> Letter(name[j])
    {
      if !Letter(name[i]) { return false; }
    }
    ok := Upper(name[2]);
  }

  method ReadHead(fmt: Format, bytes: Bytes, offset: nat) returns (r: Option<Chunk>)
    requires offset <= |bytes| && Computed(fmt)
    ensures r == Head(fmt, bytes[offset..])
  {
    if |bytes| - offset < 12 { return None; }
    var length := U32(bytes, offset);
    SliceOfSlice(bytes, offset, 0, 4);
    if 0x7fff_ffff < length || |bytes| - offset - 12 < length { return None; }
    HeadAt(fmt, bytes, offset, length);
    var valid := CheckName(bytes[offset + 4..offset + 8]);
    if !valid { return None; }
    var crc := Checked(fmt, bytes[offset + 4..offset + 8 + length]);
    if crc != U32(bytes, offset + 8 + length) { return None; }
    r := Some(Chunk(bytes[offset + 4..offset + 8], bytes[offset + 8..offset + 8 + length]));
  }

  method Checked(fmt: Format, bytes: Bytes) returns (value: int)
    requires Computed(fmt)
    ensures value == fmt.sum(bytes)
  {
    value := Crc32.ComputeCrc(bytes);
  }

  method Classify(fmt: Format, name: Bytes) returns (kind: Kind)
    requires Computed(fmt)
    ensures kind == fmt.kind(name)
  {
    kind := KindOf(name);
  }

  /** Accepts exactly the images. */
  method AdmittedPng(bytes: Bytes) returns (admitted: bool)
    ensures admitted <==> Admitted(PNG, bytes)
  {
    if IMAGE_LIMIT < |bytes| || |bytes| < 8 || bytes[..8] != SIGNATURE { return false; }
    ReadableIsAdmitted(PNG, bytes);
    admitted := Recognise(PNG, bytes);
  }

  /** The chunk loop. */
  method Recognise(fmt: Format, bytes: Bytes) returns (ok: bool)
    requires Computed(fmt) && 8 <= |bytes|
    ensures ok <==> Readable(fmt, INITIAL, bytes[8..])
  {
    var offset, s, verdict := 8, INITIAL, None;
    while offset < |bytes|
      invariant 8 <= offset <= |bytes| && (Readable(fmt, s, bytes[offset..]) <==> Readable(fmt, INITIAL, bytes[8..]))
    {
      offset, s, verdict := TakeChunk(fmt, bytes, offset, s);
      if verdict.Some? { return verdict.value; }
    }
    NothingLeft(fmt, s);
    assert bytes[offset..] == [];
    ok := false;
  }

  /** One chunk: a verdict on everything from here on, or where to go on and with which flags. */
  method TakeChunk(fmt: Format, bytes: Bytes, offset: nat, s: State)
      returns (next: nat, s': State, verdict: Option<bool>)
    requires Computed(fmt) && offset < |bytes|
    ensures verdict.Some? ==> (verdict.value <==> Readable(fmt, s, bytes[offset..]))
    ensures verdict.None? ==> offset < next <= |bytes|
    ensures verdict.None? ==> (Readable(fmt, s, bytes[offset..]) <==> Readable(fmt, s', bytes[next..]))
  {
    next, s', verdict := offset, s, Some(false);
    NoHead(fmt, s, bytes[offset..]);
    var head := ReadHead(fmt, bytes, offset);
    if head.None? { return; }
    next := offset + Size(head.value);
    var kind := Classify(fmt, head.value.name);
    s', verdict := Decide(fmt, s, head.value, kind, next == |bytes|, bytes[offset..]);
    TailOfTail(bytes, offset, Size(head.value));
  }

  lemma TailOfTail(bytes: Bytes, offset: nat, from: nat)
    requires offset + from <= |bytes|
    ensures bytes[offset..][from..] == bytes[offset + from..]
  {
  }

  lemma NoHead(fmt: Format, s: State, b: Bytes)
    ensures Head(fmt, b).None? ==> !Readable(fmt, s, b)
  {
    ReadableStep(fmt, s, b);
  }

  /** What the flags say to the chunk in front. */
  method Decide(fmt: Format, s: State, c: Chunk, kind: Kind, atEnd: bool, ghost b: Bytes)
      returns (s': State, verdict: Option<bool>)
    requires Head(fmt, b) == Some(c) && kind == fmt.kind(c.name) && (atEnd <==> |b| == Size(c))
    ensures verdict.Some? ==> (verdict.value <==> Readable(fmt, s, b))
    ensures verdict.None? ==> (Readable(fmt, s, b) <==> Readable(fmt, s', b[Size(c)..]))
  {
    ReadableStep(fmt, s, b);
    s', verdict := s, Some(false);
    if !s.header && kind != IHDR { return; }
    if kind == IEND { return s, Some(c.data == [] && s.data && s.nonempty && atEnd); }
    var stepped := Step(s, Item(kind, c.data));
    if stepped.None? { return; }
    s', verdict := stepped.value, None;
  }

  lemma NothingLeft(fmt: Format, s: State)
    ensures !Readable(fmt, s, [])
  {
    ReadableStep(fmt, s, []);
  }

  // ---------------------------------------------------------------- tampering

  /** Changing one byte changes the sum. */
  ghost predicate SeesOneByte(fmt: Format) {
    forall a, b, p {:trigger Crc32.OneByteDiffers(a, b, p), fmt.sum(a), fmt.sum(b)} ::
      Crc32.OneByteDiffers(a, b, p) ==> fmt.sum(a) != fmt.sum(b)
  }

  function Offset(chunks: seq<Chunk>, k: nat): nat
    requires k <= |chunks|
  {
    if k == 0 then 0 else Size(chunks[0]) + Offset(chunks[1..], k - 1)
  }

  /** Position `p` lies in the type or the data of chunk `k`. */
  ghost predicate Inside(chunks: seq<Chunk>, k: nat, p: int) {
    k < |chunks| && Offset(chunks, k) + 4 <= p < Offset(chunks, k) + 8 + |chunks[k].data|
  }

  /** One changed byte in the type or data of the first chunk leaves no chunk there. */
  lemma TamperedHead(fmt: Format, x: Bytes, y: Bytes, c: Chunk, p: nat)
    requires SeesOneByte(fmt) && StartsWith(fmt, x, c) && Crc32.OneByteDiffers(x, y, p) && 4 <= p < 8 + |c.data|
    ensures Head(fmt, y).None?
  {
    var n := |c.data|;
    SameSlice(x, y, p, 0, 4);
    SameSlice(x, y, p, 8 + n, 12 + n);
    var a, b := x[4..8 + n], y[4..8 + n];
    assert a[p - 4] == x[p] && b[p - 4] == y[p];
    assert Crc32.OneByteDiffers(a, b, p - 4);
    assert fmt.sum(a) != fmt.sum(b);
  }

  lemma UntouchedHead(fmt: Format, x: Bytes, y: Bytes, c: Chunk, p: nat)
    requires StartsWith(fmt, x, c) && ValidChunk(c) && Crc32.OneByteDiffers(x, y, p) && Size(c) <= p
    ensures Head(fmt, y) == Some(c) && Crc32.OneByteDiffers(x[Size(c)..], y[Size(c)..], p - Size(c))
  {
    var n := |c.data|;
    SameSlice(x, y, p, 0, 4);
    SameSlice(x, y, p, 8 + n, 12 + n);
    SameSlice(x, y, p, 4, 8);
    SameSlice(x, y, p, 8, 8 + n);
    SameSlice(x, y, p, 4, 8 + n);
    OneChunkStarts(fmt, y, c, Head(fmt, y).value);
    TailDiffers(x, y, p, Size(c));
  }

  lemma SameSlice(x: Bytes, y: Bytes, p: nat, from: nat, to: nat)
    requires Crc32.OneByteDiffers(x, y, p) && from <= to <= |x| && (to <= p || p < from)
    ensures x[from..to] == y[from..to]
  {
  }

  lemma TailDiffers(x: Bytes, y: Bytes, p: nat, from: nat)
    requires Crc32.OneByteDiffers(x, y, p) && from <= p
    ensures Crc32.OneByteDiffers(x[from..], y[from..], p - from)
  {
    assert x[from..][p - from] == x[p] && y[from..][p - from] == y[p];
    forall i | 0 <= i < |x| - from && i != p - from ensures x[from..][i] == y[from..][i] {
      assert x[from..][i] == x[from + i] && y[from..][i] == y[from + i];
    }
  }

  /** The flags after the chunk in front; any, when the source refuses it. */
  function NextState(fmt: Format, s: State, c: Chunk): State {
    if Step(s, ItemOf(fmt, c)).Some? then Step(s, ItemOf(fmt, c)).value else s
  }

  /** What stays unreadable after the first chunk makes the whole unreadable. */
  lemma UnreadableOn(fmt: Format, s: State, b: Bytes, c: Chunk, rest: Bytes)
    requires Head(fmt, b) == Some(c) && rest == b[Size(c)..] && rest != []
    requires !Readable(fmt, NextState(fmt, s, c), rest)
    ensures !Readable(fmt, s, b)
  {
    ReadableStep(fmt, s, b);
  }

  lemma {:induction false} TamperedSuffix(fmt: Format, s: State, x: Bytes, y: Bytes, chunks: seq<Chunk>, k: nat, p: nat)
    requires SeesOneByte(fmt) && Encodes(fmt, x, chunks) && Inside(chunks, k, p) && Crc32.OneByteDiffers(x, y, p)
    ensures !Readable(fmt, s, y)
    decreases k
  {
    if k == 0 {
      TamperedHead(fmt, x, y, chunks[0], p);
      NoHead(fmt, s, y);
    } else {
      var x', y', p' := FrontUntouched(fmt, x, y, chunks, k, p);
      TamperedSuffix(fmt, NextState(fmt, s, chunks[0]), x', y', chunks[1..], k - 1, p');
      UnreadableOn(fmt, s, y, chunks[0], y');
    }
  }

  /** A change behind the first chunk leaves that chunk, and moves the question to the rest. */
  lemma FrontUntouched(fmt: Format, x: Bytes, y: Bytes, chunks: seq<Chunk>, k: nat, p: nat)
      returns (x': Bytes, y': Bytes, p': nat)
    requires Encodes(fmt, x, chunks) && Inside(chunks, k, p) && Crc32.OneByteDiffers(x, y, p) && 0 < k
    ensures Encodes(fmt, x', chunks[1..]) && Inside(chunks[1..], k - 1, p') && Crc32.OneByteDiffers(x', y', p')
    ensures Head(fmt, y) == Some(chunks[0]) && y' == y[Size(chunks[0])..] && y' != []
  {
    InsideRest(chunks, k, p);
    var c := chunks[0];
    UntouchedHead(fmt, x, y, c, p);
    x', y', p' := x[Size(c)..], y[Size(c)..], p - Size(c);
  }

  lemma InsideRest(chunks: seq<Chunk>, k: nat, p: int)
    requires Inside(chunks, k, p) && 0 < k
    ensures Inside(chunks[1..], k - 1, p - Size(chunks[0])) && Size(chunks[0]) <= p
  {
    assert chunks[1..][k - 1] == chunks[k];
  }

  /** No single byte of any chunk's type or data can be changed without losing admission. */
  lemma OneByteTamperRejected(fmt: Format, b: Bytes, chunks: seq<Chunk>, k: nat, p: nat, v: bv8)
    requires SeesOneByte(fmt) && Image(fmt, b, chunks) && 8 <= p < |b| && Inside(chunks, k, p - 8) && b[p] != v
    ensures !Admitted(fmt, b[p := v])
  {
    var t := b[p := v];
    ReadsIsImage(fmt, b, chunks);
    assert t[..8] == b[..8];
    assert Crc32.OneByteDiffers(b[8..], t[8..], p - 8);
    TamperedSuffix(fmt, INITIAL, b[8..], t[8..], chunks, k, p - 8);
    ReadableIsAdmitted(fmt, t);
  }

  /** With the CRC in particular. */
  lemma CrcTamperRejected(b: Bytes, chunks: seq<Chunk>, k: nat, p: nat, v: bv8)
    requires Image(PNG, b, chunks) && 8 <= p < |b| && Inside(chunks, k, p - 8) && b[p] != v
    ensures !Admitted(PNG, b[p := v])
  {
    CrcIsAChecksum();
    OneByteTamperRejected(PNG, b, chunks, k, p, v);
  }

  lemma CrcIsAChecksum()
    ensures SeesOneByte(PNG)
  {
    forall a, b, p | Crc32.OneByteDiffers(a, b, p) ensures PNG.sum(a) != PNG.sum(b) {
      Crc32.CrcValueSeesOneByte(a, b, p);
    }
  }
}
