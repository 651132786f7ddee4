/**
  JPEG admission (admitted_jpeg in src/artist_background_image.cpp): which
  sequences of segments and restart intervals are legal, and the marker loop
  that admits exactly the images made of one.
*/
module JpegAdmission {
  import opened Basics
  import opened JpegScript
  import opened JpegTables

  /**
    The parts of an image: a marker with its payload, and behind a scan header the stretches of entropy-coded data,
    each ended by a restart marker or by the next segment; `data` says whether a stretch holds any data.
  */
  datatype Item = Segment(marker: int, payload: Bytes) | Restart(data: bool, number: int) | EndOfScan(data: bool)

  // ---------------------------------------------------------------- where items begin and end

  /** Behind the fill bytes from `at` on. */
  function SkipFill(bytes: Bytes, at: nat): (k: nat)
    requires at <= |bytes|
    ensures at <= k <= |bytes| && (k < |bytes| ==> bytes[k] != 255)
    decreases |bytes| - at
  {
    if at == |bytes| || bytes[at] != 255 then at else SkipFill(bytes, at + 1)
  }

  /** The position behind the marker at `offset`, if there is one. */
  function BehindMarker(bytes: Bytes, offset: nat): (next: Option<nat>)
    requires offset < |bytes|
    ensures next.Some? ==> offset + 2 <= next.value <= |bytes|
  {
    if bytes[offset] != 255 || SkipFill(bytes, offset + 1) == |bytes| then None
    else Some(SkipFill(bytes, offset + 1) + 1)
  }

  predicate Standalone(marker: int) {
    marker == 0 || marker == 1 || (0xd0 <= marker <= 0xd8) || marker == 0xdc || marker == 0xde || marker == 0xdf
  }

  /** A marker with a length and a payload behind it. */
  predicate HasSegment(bytes: Bytes, next: nat) {
    && 2 <= next && next + 2 <= |bytes| && !Standalone(bytes[next - 1]) && bytes[next - 1] != 0xd9
    && 2 <= U16(bytes, next) <= |bytes| - next
  }

  function SegmentAt(bytes: Bytes, next: nat): Item
    requires HasSegment(bytes, next)
  {
    Segment(bytes[next - 1], bytes[next + 2..next + U16(bytes, next)])
  }

  /**
    The items from an offset up to the end marker at the very end of the bytes. Behind a scan header comes
    entropy-coded data, in which a stuffed FF00 is data and a restart marker begins the next stretch.
  */
  function Items(bytes: Bytes, offset: nat, entropy: bool, data: bool): Option<seq<Item>>
    requires offset <= |bytes|
    decreases |bytes| - offset
  {
    if offset == |bytes| then None
    else if entropy && bytes[offset] != 255 then Items(bytes, offset + 1, true, true)
    else if BehindMarker(bytes, offset).None? then None
    else
      var next := BehindMarker(bytes, offset).value;
      var marker := bytes[next - 1];
      if !entropy then ItemsBehind(bytes, next)
      else if marker == 0 then if next != offset + 2 then None else Items(bytes, next, true, true)
      else if 0xd0 <= marker <= 0xd7 then After([Restart(data, marker - 0xd0)], Items(bytes, next, true, false))
      else After([EndOfScan(data)], ItemsBehind(bytes, next))
  }

  /** The items from the marker that ends at `next` on. */
  function ItemsBehind(bytes: Bytes, next: nat): Option<seq<Item>>
    requires 2 <= next <= |bytes|
    decreases |bytes| - next
  {
    if bytes[next - 1] == 0xd9 then if next == |bytes| then Some([]) else None
    else if !HasSegment(bytes, next) then None
    else
      After([SegmentAt(bytes, next)], Items(bytes, next + U16(bytes, next), bytes[next - 1] == 0xda, false))
  }

  // ---------------------------------------------------------------- what the items declare

  datatype Frame = Frame(process: int, components: seq<Component>)

  predicate DeclaresFrame(item: Item) { item.Segment? && 0xc0 <= item.marker <= 0xc2 && FrameSized(item.payload) }

  predicate AnnouncesScan(item: Item) { item.Segment? && item.marker == 0xda }

  /** The frame declared, or process 0. */
  function FrameOf(items: seq<Item>): Frame {
    if items == [] then Frame(0, [])
    else
      var last := items[|items| - 1];
      if DeclaresFrame(last) then Frame(last.marker, FrameComponents(last.payload, last.payload[5]))
      else FrameOf(items[..|items| - 1])
  }

  /** The scans announced, over the components then in force. */
  function ScansOf(items: seq<Item>): seq<Scan> {
    if items == [] then []
    else
      var front, last := items[..|items| - 1], items[|items| - 1];
      if AnnouncesScan(last) then ScansOf(front) + [ScanFrom(FrameOf(front).components, last.payload)]
      else ScansOf(front)
  }

  /** The tables defined and used. */
  function TablesOf(items: seq<Item>): Tables {
    if items == [] then NO_TABLES
    else
      var front, last := items[..|items| - 1], items[|items| - 1];
      if last.Segment? then WithSegment(TablesOf(front), FrameOf(front).components, last.marker, last.payload)
      else TablesOf(front)
  }

  function WithSegment(t: Tables, components: seq<Component>, marker: int, payload: Bytes): Tables {
    if marker == 0xdb then WithQuants(t, payload)
    else if marker == 0xc4 then WithHuffmans(t, payload)
    else if marker == 0xdd && |payload| == 2 then t.(restart := U16(payload, 0))
    else if marker == 0xda then t.(used := t.used + Used(components, ScanFrom(components, payload)))
    else t
  }

  /** Restart markers since the last segment. */
  function Restarts(items: seq<Item>): nat {
    if items == [] || !items[|items| - 1].Restart? then 0 else Restarts(items[..|items| - 1]) + 1
  }

  function Declared(items: seq<Item>): Setup {
    var t := TablesOf(items);
    Setup(FrameOf(items).components, FrameOf(items).process, seq(4, i => i in t.quant), seq(8, i => i in t.huffman))
  }

  // ---------------------------------------------------------------- legality

  /** What a segment may say after the items before it. */
  ghost predicate SegmentLegal(before: seq<Item>, marker: int, payload: Bytes) {
    if 0xc0 <= marker <= 0xc2 then FrameOf(before).process == 0 && FrameOk(payload)
    else if marker == 0xdb then QuantsOk(FrameOf(before).process, TablesOf(before), payload)
    else if marker == 0xc4 then HuffmansOk(payload)
    else if marker == 0xdd then |payload| == 2
    else if marker == 0xda then HeaderOk(Declared(before), ScansOf(before), payload)
    else 0xe0 <= marker <= 0xef || marker == 0xfe
  }

  /** Restart markers count round from 0 to 7 after each scan header, and no stretch is empty. */
  ghost predicate ItemLegal(before: seq<Item>, item: Item) {
    match item
    case Segment(marker, payload) => SegmentLegal(before, marker, payload)
    case Restart(data, number) => data && TablesOf(before).restart != 0 && number == Restarts(before) % 8
    case EndOfScan(data) => data
  }

  ghost predicate AllLegal(items: seq<Item>) {
    forall i :: 0 <= i < |items| ==> ItemLegal(items[..i], items[i])
  }

  /** The scans reach the DC of every component. */
  predicate Complete(components: seq<Component>, script: seq<Scan>) {
    && 1 <= |components| <= 4 && script != []
    && forall c: nat :: c < |components| ==> Refinements(script, c, 0) != []
  }

  /** The images the source admits. */
  ghost predicate LegalImage(bytes: Bytes) {
    && 4 <= |bytes| <= PngAdmission.IMAGE_LIMIT && bytes[0] == 0xff && bytes[1] == 0xd8
    && Items(bytes, 2, false, false).Some?
    && LegalItems(Items(bytes, 2, false, false).value)
  }

  ghost predicate LegalItems(items: seq<Item>) {
    AllLegal(items) && Complete(FrameOf(items).components, ScansOf(items))
  }

  lemma OneMoreLegal(items: seq<Item>, item: Item)
    requires AllLegal(items) && ItemLegal(items, item)
    ensures AllLegal(items + [item])
  {
    var all := items + [item];
    forall i | 0 <= i < |all| ensures ItemLegal(all[..i], all[i]) {
      assert all[..i] == items[..i];
    }
  }

  /** Whatever follows `items` does not make a legal sequence of them. */
  ghost predicate Obstructed(items: seq<Item>, rest: Option<seq<Item>>) {
    rest.Some? ==> !LegalItems(items + rest.value)
  }

  lemma IllegalObstructs(items: seq<Item>, item: Item, rest: Option<seq<Item>>)
    requires !ItemLegal(items, item)
    ensures Obstructed(items, After([item], rest))
  {
    if rest.Some? {
      var all := items + ([item] + rest.value);
      assert all[..|items|] == items && all[|items|] == item;
    }
  }

  // ---------------------------------------------------------------- one segment

  /** The parser's tables are those the items declare. */
  ghost predicate Follows(d: Decoder, script: seq<Scan>, items: seq<Item>) {
    && Good(d, script) && script == ScansOf(items) && Frame(d.process, d.components) == FrameOf(items)
    && Agrees(d, TablesOf(items))
  }

  lemma NothingRead()
    ensures Follows(START, [], [])
  {
    StartGood();
  }

  lemma SetupDeclared(d: Decoder, script: seq<Scan>, items: seq<Item>)
    requires Follows(d, script, items)
    ensures SetupOf(d) == Declared(items)
  {
    assert d.quant == Declared(items).quant && d.huffman == Declared(items).huffman;
  }

  lemma Extended(items: seq<Item>, item: Item)
    ensures FrameOf(items + [item])
         == if DeclaresFrame(item) then Frame(item.marker, FrameComponents(item.payload, item.payload[5]))
         else FrameOf(items)
    ensures ScansOf(items + [item])
         == if AnnouncesScan(item) then ScansOf(items) + [ScanFrom(FrameOf(items).components, item.payload)]
         else ScansOf(items)
    ensures TablesOf(items + [item])
         == if item.Segment? then WithSegment(TablesOf(items), FrameOf(items).components, item.marker, item.payload)
            else TablesOf(items)
    ensures Restarts(items + [item]) == if item.Restart? then Restarts(items) + 1 else 0
  {
    assert (items + [item])[..|items|] == items;
  }

  lemma ScanUses(d: Decoder, d': Decoder, t: Tables, s: Scan)
    requires Shape(d) && Shape(d') && Agrees(d, t) && UsedOk(d, d'.used, s.components)
    requires d' == d.(planes := d'.planes, used := d'.used)
    ensures Agrees(d', t.(used := t.used + Used(d.components, s)))
  {
  }

  /** A scan header behind the items. */
  method ReadScanHeader(d: Decoder, payload: Bytes, ghost script: seq<Scan>, ghost items: seq<Item>)
      returns (ok: bool, d': Decoder, ghost script': seq<Scan>)
    requires Follows(d, script, items)
    ensures ok <==> SegmentLegal(items, 0xda, payload)
    ensures ok ==> Follows(d', script', items + [Segment(0xda, payload)]) && |script'| == |script| + 1
  {
    SetupDeclared(d, script, items);
    Extended(items, Segment(0xda, payload));
    ok, d', script' := ReadScan(d, payload, script);
    if ok { ScanUses(d, d', TablesOf(items), ScanFrom(d.components, payload)); }
  }

  /** A quantizer or Huffman segment behind the items. */
  method ReadTables(d: Decoder, marker: int, payload: Bytes, ghost script: seq<Scan>, ghost items: seq<Item>)
      returns (ok: bool, d': Decoder)
    requires Follows(d, script, items) && (marker == 0xdb || marker == 0xc4)
    ensures ok <==> SegmentLegal(items, marker, payload)
    ensures ok ==> Follows(d', script, items + [Segment(marker, payload)])
  {
    Extended(items, Segment(marker, payload));
    if marker == 0xdb {
      ok, d' := ReadQuantizers(d, payload, TablesOf(items));
    } else {
      ok, d' := ReadHuffman(d, payload, TablesOf(items));
    }
  }

  /** A segment is taken exactly when it is legal behind the items, and then the tables follow it. */
  method ReadSegment(d: Decoder, marker: int, payload: Bytes, ghost script: seq<Scan>, ghost items: seq<Item>)
      returns (ok: bool, d': Decoder, ghost script': seq<Scan>)
    requires Follows(d, script, items)
    ensures ok <==> SegmentLegal(items, marker, payload)
    ensures ok ==> Follows(d', script', items + [Segment(marker, payload)])
    ensures ok ==> |script'| == |script| + (if marker == 0xda then 1 else 0)
  {
    d', script', ok := d, script, true;
    Extended(items, Segment(marker, payload));
    if 0xc0 <= marker <= 0xc2 {
      ok, d' := ReadFrame(d, marker, payload, script);
    } else if marker == 0xdb || marker == 0xc4 {
      ok, d' := ReadTables(d, marker, payload, script, items);
    } else if marker == 0xdd {
      if |payload| != 2 { return false, d, script; }
      d' := d.(restart := U16(payload, 0));
    } else if marker == 0xda {
      ok, d', script' := ReadScanHeader(d, payload, script, items);
    } else {
      ok := 0xe0 <= marker <= 0xef || marker == 0xfe;
    }
  }

  /** At the end of the image: a frame, a scan, and every component's DC. */
  method Finished(d: Decoder, scans: nat, ghost script: seq<Scan>) returns (ok: bool)
    requires Good(d, script) && scans == |script|
    ensures ok <==> Complete(d.components, script)
  {
    if d.process == 0 || scans == 0 { return false; }
    for i := 0 to |d.components|
      invariant forall c: nat :: c < i ==> Refinements(script, c, 0) != []
    {
      assert PlaneOk(d.planes[i], script, i);
      if d.planes[i][0] < 0 { return false; }
    }
    ok := true;
  }

  // ---------------------------------------------------------------- the marker loop

  /** Where the loop stands in the entropy-coded data behind a scan header. */
  datatype Flow = Flow(entropy: bool, data: bool, nextRestart: int)

  method ReadMarker(bytes: Bytes, offset: nat) returns (next: Option<nat>, fill: nat)
    requires offset < |bytes|
    ensures next == BehindMarker(bytes, offset)
    ensures next.Some? ==> next.value == offset + fill + 2
  {
    fill := 0;
    if bytes[offset] != 255 { return None, fill; }
    var at := offset + 1;
    while at < |bytes| && bytes[at] == 255
      invariant at == offset + fill + 1 <= |bytes| && SkipFill(bytes, offset + 1) == SkipFill(bytes, at)
    {
      at, fill := at + 1, fill + 1;
    }
    next := if at == |bytes| then None else Some(at + 1);
  }

  /** What comes next: data, a restart marker, a segment's marker behind what data there was, or something refused. */
  datatype Next = Data(offset: nat) | Restarted(number: int, offset: nat) | AtMarker(next: nat) | Refused

  ghost predicate Comes(bytes: Bytes, offset: nat, flow: Flow, r: Next)
    requires offset < |bytes|
  {
    var items := Items(bytes, offset, flow.entropy, flow.data);
    match r
    case Data(behind) => offset < behind <= |bytes| && flow.entropy && items == Items(bytes, behind, true, true)
    case Restarted(number, behind) =>
      && offset < behind <= |bytes| && flow.entropy && 0 <= number < 8
      && items == After([Restart(flow.data, number)], Items(bytes, behind, true, false))
    case AtMarker(next) =>
      && offset + 2 <= next <= |bytes|
      && items == After(if flow.entropy then [EndOfScan(flow.data)] else [], ItemsBehind(bytes, next))
    case Refused => items.None?
  }

  /** The top of the loop, up to the marker. */
  method LookAhead(bytes: Bytes, offset: nat, flow: Flow) returns (r: Next)
    requires offset < |bytes|
    ensures Comes(bytes, offset, flow, r)
  {
    if flow.entropy && bytes[offset] != 255 { return Data(offset + 1); }
    var next, fill := ReadMarker(bytes, offset);
    if next.None? { return Refused; }
    var marker := bytes[next.value - 1];
    if flow.entropy && marker == 0 { return if fill != 0 then Refused else Data(next.value); }
    if flow.entropy && 0xd0 <= marker <= 0xd7 { return Restarted(marker - 0xd0, next.value); }
    if !flow.entropy { AfterNothing(ItemsBehind(bytes, next.value)); }
    r := AtMarker(next.value);
  }

  lemma AfterNothing<T>(rest: Option<seq<T>>)
    ensures After([], rest) == rest
  {
    if rest.Some? { assert [] + rest.value == rest.value; }
  }

  /** The loop has taken `items`, all legal, and the rest of the image is `rest`. */
  ghost predicate Stands(bytes: Bytes, d: Decoder, script: seq<Scan>, items: seq<Item>, rest: Option<seq<Item>>)
    requires 2 <= |bytes|
  {
    && Follows(d, script, items) && AllLegal(items)
    && Items(bytes, 2, false, false) == After(items, rest)
  }

  /** Taking one item that only counts: a restart marker, or the end of a scan's data. */
  lemma TakeMarker(bytes: Bytes, d: Decoder, script: seq<Scan>, items: seq<Item>, item: Item, rest: Option<seq<Item>>)
    requires 2 <= |bytes| && Stands(bytes, d, script, items, After([item], rest))
    requires !item.Segment? && ItemLegal(items, item)
    ensures Stands(bytes, d, script, items + [item], rest)
    ensures Restarts(items + [item]) == if item.Restart? then Restarts(items) + 1 else 0
  {
    Extended(items, item);
    OneMoreLegal(items, item);
    AfterOne(items, item, rest);
  }

  lemma RestartRefused(bytes: Bytes, d: Decoder, script: seq<Scan>, items: seq<Item>, item: Item,
                       rest: Option<seq<Item>>)
    requires 2 <= |bytes| && Stands(bytes, d, script, items, After([item], rest)) && item.Restart?
    requires d.restart == 0 || !item.data || item.number != Restarts(items) % 8
    ensures !LegalRun(bytes)
  {
    assert !ItemLegal(items, item);
    IllegalObstructs(items, item, rest);
  }

  lemma RoundToEight(n: nat)
    ensures (n % 8 + 1) % 8 == (n + 1) % 8
  {
  }

  /** A restart marker is taken exactly when it is the next one, behind some data. */
  method ReadRestart(bytes: Bytes, d: Decoder, flow: Flow, number: int, ghost script: seq<Scan>, ghost items: seq<Item>,
                     ghost rest: Option<seq<Item>>)
      returns (ok: bool, flow': Flow)
    requires 2 <= |bytes| && Stands(bytes, d, script, items, After([Restart(flow.data, number)], rest))
    requires flow.nextRestart == Restarts(items) % 8
    ensures ok ==> Stands(bytes, d, script, items + [Restart(flow.data, number)], rest)
    ensures ok ==> flow' == Flow(flow.entropy, false, Restarts(items + [Restart(flow.data, number)]) % 8)
    ensures !ok ==> !LegalRun(bytes)
  {
    flow' := flow;
    if d.restart == 0 || !flow.data || number != flow.nextRestart {
      RestartRefused(bytes, d, script, items, Restart(flow.data, number), rest);
      return false, flow;
    }
    TakeMarker(bytes, d, script, items, Restart(flow.data, number), rest);
    RoundToEight(Restarts(items));
    ok, flow' := true, flow.(nextRestart := (flow.nextRestart + 1) % 8, data := false);
  }

  /** The items of an image lex and are legal. */
  ghost predicate LegalRun(bytes: Bytes)
    requires 2 <= |bytes|
  {
    Items(bytes, 2, false, false).Some? && LegalItems(Items(bytes, 2, false, false).value)
  }

  /** A segment is taken exactly when it is legal behind the items taken before it. */
  method TakeSegment(bytes: Bytes, marker: int, payload: Bytes, d: Decoder, ghost script: seq<Scan>,
                     ghost items: seq<Item>, ghost rest: Option<seq<Item>>)
      returns (ok: bool, d': Decoder, ghost script': seq<Scan>)
    requires 2 <= |bytes| && Stands(bytes, d, script, items, After([Segment(marker, payload)], rest))
    ensures ok ==> Stands(bytes, d', script', items + [Segment(marker, payload)], rest)
    ensures ok ==> |script'| == |script| + (if marker == 0xda then 1 else 0)
    ensures !ok ==> !LegalRun(bytes)
  {
    AfterOne(items, Segment(marker, payload), rest);
    ok, d', script' := ReadSegment(d, marker, payload, script, items);
    if ok {
      OneMoreLegal(items, Segment(marker, payload));
    } else {
      IllegalObstructs(items, Segment(marker, payload), rest);
    }
  }

  /** A segment's length, behind its marker. */
  method SegmentEnd(bytes: Bytes, next: nat) returns (ok: bool, behind: nat)
    requires 2 <= next <= |bytes| && bytes[next - 1] != 0xd9
    ensures ok <==> HasSegment(bytes, next)
    ensures ok ==> behind == next + U16(bytes, next)
  {
    behind := next;
    if Standalone(bytes[next - 1]) || |bytes| - next < 2 { return false, behind; }
    var length := U16(bytes, next);
    if length < 2 || |bytes| - next < length { return false, behind; }
    ok, behind := true, next + length;
  }

  lemma NothingBehind(bytes: Bytes, next: nat, d: Decoder, script: seq<Scan>, items: seq<Item>)
    requires 2 <= next <= |bytes| && bytes[next - 1] != 0xd9 && !HasSegment(bytes, next)
    requires Stands(bytes, d, script, items, ItemsBehind(bytes, next))
    ensures !LegalRun(bytes)
  {
  }

  lemma SegmentBehind(bytes: Bytes, next: nat)
    requires HasSegment(bytes, next)
    ensures next + U16(bytes, next) <= |bytes|
    ensures ItemsBehind(bytes, next)
         == After([SegmentAt(bytes, next)], Items(bytes, next + U16(bytes, next), bytes[next - 1] == 0xda, false))
  {
  }

  method ReadSegmentAt(bytes: Bytes, next: nat, d: Decoder, ghost script: seq<Scan>, ghost items: seq<Item>)
      returns (ok: bool, d': Decoder, behind: nat, ghost script': seq<Scan>, ghost items': seq<Item>)
    requires 2 <= next <= |bytes| && bytes[next - 1] != 0xd9
    requires Stands(bytes, d, script, items, ItemsBehind(bytes, next))
    ensures ok ==> next <= behind <= |bytes|
    ensures ok ==> Stands(bytes, d', script', items', Items(bytes, behind, bytes[next - 1] == 0xda, false))
    ensures ok ==> |script'| == |script| + (if bytes[next - 1] == 0xda then 1 else 0) && Restarts(items') == 0
    ensures !ok ==> !LegalRun(bytes)
  {
    d', script', items' := d, script, items;
    ok, behind := SegmentEnd(bytes, next);
    if !ok {
      NothingBehind(bytes, next, d, script, items);
      return;
    }
    SegmentBehind(bytes, next);
    ghost var s := SegmentAt(bytes, next);
    ok, d', script' :=
      TakeSegment(bytes, bytes[next - 1], bytes[next + 2..behind], d, script, items,
                  Items(bytes, behind, bytes[next - 1] == 0xda, false));
    Extended(items, s);
    items' := items + [s];
  }

  /** At the end marker, the image is legal exactly when it ends here and is complete. */
  method ReadEnd(bytes: Bytes, next: nat, d: Decoder, scans: nat, ghost script: seq<Scan>, ghost items: seq<Item>)
      returns (ok: bool)
    requires 2 <= next <= |bytes| && bytes[next - 1] == 0xd9 && scans == |script|
    requires Stands(bytes, d, script, items, ItemsBehind(bytes, next))
    ensures ok <==> LegalRun(bytes)
    ensures ok ==> Script(ScansOf(Items(bytes, 2, false, false).value))
  {
    assert items + [] == items;
    ok := Finished(d, scans, script);
    ok := ok && next == |bytes|;
  }

  /** Outside a scan's data, the flag for data says nothing. */
  lemma DataIdle(bytes: Bytes, offset: nat, data: bool)
    requires offset <= |bytes|
    ensures Items(bytes, offset, false, data) == Items(bytes, offset, false, false)
  {
  }

  /** The loop's whole state agrees with the items taken. */
  ghost predicate Running(bytes: Bytes, d: Decoder, flow: Flow, offset: nat, scans: nat, script: seq<Scan>,
                          items: seq<Item>)
    requires 2 <= |bytes|
  {
    && 2 <= offset <= |bytes| && scans == |script|
    && Stands(bytes, d, script, items, Items(bytes, offset, flow.entropy, flow.data))
    && (flow.entropy ==> flow.nextRestart == Restarts(items) % 8)
  }

  /** A marker behind a scan's data ends them, if there are any. */
  method ReadScanEnd(bytes: Bytes, next: nat, d: Decoder, flow: Flow, ghost script: seq<Scan>, ghost items: seq<Item>)
      returns (ok: bool, ghost items': seq<Item>)
    requires 2 <= next <= |bytes|
    requires Stands(bytes, d, script, items,
                    After(if flow.entropy then [EndOfScan(flow.data)] else [], ItemsBehind(bytes, next)))
    ensures ok ==> Stands(bytes, d, script, items', ItemsBehind(bytes, next))
    ensures !ok ==> !LegalRun(bytes)
  {
    items', ok := items, true;
    if flow.entropy {
      if !flow.data {
        IllegalObstructs(items, EndOfScan(false), ItemsBehind(bytes, next));
        return false, items;
      }
      TakeMarker(bytes, d, script, items, EndOfScan(true), ItemsBehind(bytes, next));
      items' := items + [EndOfScan(true)];
    } else {
      AfterNothing(ItemsBehind(bytes, next));
    }
  }

  /** What a segment's marker leads to: on behind its segment, or the verdict on the image. */
  method ReadAtMarker(bytes: Bytes, next: nat, d: Decoder, flow: Flow, scans: nat, ghost script: seq<Scan>,
                      ghost items: seq<Item>)
      returns (verdict: Option<bool>, d': Decoder, flow': Flow, behind: nat, scans': nat, ghost script': seq<Scan>,
               ghost items': seq<Item>)
    requires 2 <= next <= |bytes| && scans == |script|
    requires Stands(bytes, d, script, items,
                    After(if flow.entropy then [EndOfScan(flow.data)] else [], ItemsBehind(bytes, next)))
    ensures verdict.None? ==> next <= behind && Running(bytes, d', flow', behind, scans', script', items')
    ensures verdict.Some? ==> (verdict.value <==> LegalRun(bytes))
    ensures verdict.Some? && verdict.value ==> Script(ScansOf(Items(bytes, 2, false, false).value))
  {
    d', flow', behind, scans', script' := d, flow, next, scans, script;
    var ok;
    ok, items' := ReadScanEnd(bytes, next, d, flow, script, items);
    if !ok { return Some(false), d', flow', behind, scans', script', items'; }
    if bytes[next - 1] == 0xd9 {
      ok := ReadEnd(bytes, next, d, scans, script, items');
      return Some(ok), d', flow', behind, scans', script', items';
    }
    ok, d', behind, script', items' := ReadSegmentAt(bytes, next, d, script, items');
    if !ok { return Some(false), d', flow', behind, scans', script', items'; }
    verdict := None;
    if bytes[next - 1] == 0xda {
      flow', scans' := Flow(true, false, 0), scans + 1;
    } else {
      flow' := flow.(entropy := false);
      DataIdle(bytes, behind, flow.data);
    }
  }

  /** The marker loop. */
  method ReadItems(bytes: Bytes) returns (ok: bool)
    requires 4 <= |bytes|
    ensures ok <==> LegalRun(bytes)
    ensures ok ==> Script(ScansOf(Items(bytes, 2, false, false).value))
  {
    NothingRead();
    AfterNothing(Items(bytes, 2, false, false));
    ghost var script: seq<Scan>, items: seq<Item> := [], [];
    var d, flow, offset := START, Flow(false, false, 0), 2;
    var scans: nat := 0;
    while offset < |bytes|
      invariant Running(bytes, d, flow, offset, scans, script, items)
    {
      var r := LookAhead(bytes, offset, flow);
      match r
      case Refused => return false;
      case Data(behind) =>
        flow, offset := flow.(data := true), behind;
      case Restarted(number, behind) =>
        var taken;
        ghost var item := Restart(flow.data, number);
        taken, flow := ReadRestart(bytes, d, flow, number, script, items, Items(bytes, behind, true, false));
        if !taken { return false; }
        items, offset := items + [item], behind;
      case AtMarker(next) =>
        var verdict;
        verdict, d, flow, offset, scans, script, items := ReadAtMarker(bytes, next, d, flow, scans, script, items);
        if verdict.Some? { return verdict.value; }
    }
    ok := false;
  }

  /**
    Admission: exactly the legal images. Their scans form approximation chains that fall by one, with no AC band
    before its component's DC, and so are at most 3584.
  */
  method AdmittedJpeg(bytes: Bytes) returns (ok: bool)
    ensures ok <==> LegalImage(bytes)
    ensures ok ==>
              var script := ScansOf(Items(bytes, 2, false, false).value);
              Script(script) && |script| <= 3584
  {
    if |bytes| < 4 || PngAdmission.IMAGE_LIMIT < |bytes| || bytes[0] != 0xff || bytes[1] != 0xd8 { return false; }
    ok := ReadItems(bytes);
    if ok { ScanBound(ScansOf(Items(bytes, 2, false, false).value)); }
  }
}
