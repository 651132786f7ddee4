/**
  What the segments of a JPEG may say (admitted_jpeg in
  src/artist_background_image.cpp): frame headers, quantizers, Huffman tables
  and scan headers, each taken exactly when it is legal after what came before.
*/
module JpegTables {
  import opened Basics
  import opened JpegScript
  import PngAdmission

  type Bytes = seq<Byte>

  const PROGRESSIVE: int := 0xc2

  datatype Component = Component(id: Byte, h: int, v: int, q: int)

  /** The parser's tables; `process` is 0 before the frame header. */
  datatype Decoder = Decoder(components: seq<Component>, process: int, restart: int, quant: seq<bool>, used: seq<bool>,
                             values: seq<Bytes>, huffman: seq<bool>, planes: seq<seq<int>>)

  const START := Decoder([], 0, 0, seq(4, _ => false), seq(4, _ => false), seq(4, _ => []), seq(8, _ => false),
                         seq(COMPONENTS, _ => seq(COEFFICIENTS, _ => -1)))

  function U16(b: Bytes, at: nat): int
    requires at + 2 <= |b|
  {
    var high: int := b[at];
    high * 256 + b[at + 1]
  }

  predicate Shape(d: Decoder) {
    && |d.components| <= 4 && (forall i :: 0 <= i < |d.components| ==> 0 <= d.components[i].q <= 3)
    && |d.quant| == |d.used| == |d.values| == 4 && |d.huffman| == 8 && |d.planes| == COMPONENTS
    && (forall c :: 0 <= c < COMPONENTS ==> |d.planes[c]| == COEFFICIENTS)
    && (d.process != 0 ==> d.components != [])
  }

  /** A plane stands where the scans so far put it. */
  ghost predicate PlaneOk(plane: seq<int>, script: seq<Scan>, c: nat) {
    |plane| == COEFFICIENTS && forall k: nat :: k < COEFFICIENTS ==> plane[k] == Point(Refinements(script, c, k))
  }

  predicate Flat(plane: seq<int>) { forall k :: 0 <= k < |plane| ==> plane[k] == plane[0] }

  /** The tables agree with a legal script. */
  ghost predicate Good(d: Decoder, script: seq<Scan>) {
    && Shape(d) && Script(script)
    && (forall c: nat :: c < COMPONENTS ==> PlaneOk(d.planes[c], script, c))
    && (d.process != PROGRESSIVE ==> forall c :: 0 <= c < COMPONENTS ==> Flat(d.planes[c]))
    && (d.process == 0 ==> script == [])
  }

  lemma StartGood()
    ensures Good(START, [])
  {
  }

  // ---------------------------------------------------------------- frame and tables

  /** The first `n` components a frame header lists. */
  function FrameComponents(payload: Bytes, n: nat): (r: seq<Component>)
    requires 6 + 3 * n <= |payload|
    ensures |r| == n
  {
    if n == 0 then []
    else
      FrameComponents(payload, n - 1)
      + [Component(payload[3 + 3 * n], payload[4 + 3 * n] / 16, payload[4 + 3 * n] % 16, payload[5 + 3 * n])]
  }

  predicate ComponentOk(c: Component) { 1 <= c.h <= 4 && 1 <= c.v <= 4 && c.q <= 3 }

  predicate DistinctIds(components: seq<Component>) {
    forall i, j :: 0 <= i < j < |components| ==> components[i].id != components[j].id
  }

  predicate FrameSized(payload: Bytes) {
    && 6 <= |payload| && payload[0] == 8 && (payload[5] == 1 || payload[5] == 3 || payload[5] == 4)
    && |payload| == 6 + 3 * payload[5]
  }

  /** The frame headers the source takes. */
  predicate FrameOk(payload: Bytes) {
    && FrameSized(payload)
    && PngAdmission.AdmittedDimensions(U16(payload, 3), U16(payload, 1))
    && (forall i :: 0 <= i < payload[5] ==> ComponentOk(FrameComponents(payload, payload[5])[i]))
    && DistinctIds(FrameComponents(payload, payload[5]))
  }

  /** A frame header is taken once, and exactly when it is legal. */
  method ReadFrame(d: Decoder, marker: int, payload: Bytes, ghost script: seq<Scan>) returns (ok: bool, d': Decoder)
    requires Good(d, script) && 0xc0 <= marker <= 0xc2
    ensures ok <==> d.process == 0 && FrameOk(payload)
    ensures ok ==> Good(d', script) && d' == d.(process := marker, components := FrameComponents(payload, payload[5]))
  {
    d' := d;
    if d.process != 0 || |payload| < 6 || payload[0] != 8 { return false, d; }
    var count := payload[5];
    if (count != 1 && count != 3 && count != 4) || |payload| != 6 + 3 * count { return false, d; }
    if !PngAdmission.AdmittedDimensions(U16(payload, 3), U16(payload, 1)) { return false, d; }
    var components;
    ok, components := ReadComponents(payload, count);
    if ok { d' := d.(components := components, process := marker); }
  }

  method ReadComponents(payload: Bytes, count: nat) returns (ok: bool, components: seq<Component>)
    requires |payload| == 6 + 3 * count
    ensures ok <==> (forall i :: 0 <= i < count ==> ComponentOk(FrameComponents(payload, count)[i]))
                    && DistinctIds(FrameComponents(payload, count))
    ensures ok ==> components == FrameComponents(payload, count)
    ensures ok ==> forall i :: 0 <= i < count ==> 0 <= components[i].q
  {
    components := [];
    ghost var all := FrameComponents(payload, count);
    for i := 0 to count
      invariant components == FrameComponents(payload, i)
      invariant (forall j :: 0 <= j < i ==> ComponentOk(components[j]) && 0 <= components[j].q)
      invariant DistinctIds(components)
    {
      FrameGrows(payload, i + 1, count);
      var id, sampling, q := payload[6 + 3 * i], payload[7 + 3 * i], payload[8 + 3 * i];
      assert all[i] == Component(id, sampling / 16, sampling % 16, q);
      var known := Known(components, id);
      if known < |components| || sampling / 16 == 0 || 4 < sampling / 16
         || sampling % 16 == 0 || 4 < sampling % 16 || 3 < q {
        assert known < |components| ==> all[known].id == all[i].id;
        return false, components;
      }
      components := components + [Component(id, sampling / 16, sampling % 16, q)];
    }
    ok := true;
  }

  lemma {:induction false} FrameGrows(payload: Bytes, n: nat, count: nat)
    requires n <= count && 6 + 3 * count <= |payload|
    ensures FrameComponents(payload, n) == FrameComponents(payload, count)[..n]
    decreases count - n
  {
    if n < count { FrameGrows(payload, n + 1, count); }
  }

  /** The index of the component with this identifier, or the number of components. */
  function Known(components: seq<Component>, id: Byte): (i: nat)
    ensures i <= |components| && (i < |components| ==> components[i].id == id)
    ensures forall j :: 0 <= j < i ==> components[j].id != id
  {
    if components == [] then 0
    else
      var i := Known(components[..|components| - 1], id);
      if i < |components| - 1 then i else if components[|components| - 1].id == id then i else |components|
  }

  /**
    The tables defined so far: quantizers with their values, Huffman tables, quantizers a scan has used, and the restart
    interval.
  */
  datatype Tables = Tables(quant: map<int, Bytes>, huffman: set<int>, used: set<int>, restart: int)

  const NO_TABLES := Tables(map[], {}, {}, 0)

  /** The parser's flags and values are these tables. */
  ghost predicate Agrees(d: Decoder, t: Tables)
    requires Shape(d)
  {
    && (forall i :: 0 <= i < 4 ==> (d.quant[i] <==> i in t.quant) && (d.used[i] <==> i in t.used))
    && (forall i :: 0 <= i < 4 && i in t.quant ==> d.values[i] == t.quant[i])
    && (forall i :: 0 <= i < 4 && i in t.used ==> i in t.quant)
    && (forall i :: 0 <= i < 8 ==> (d.huffman[i] <==> i in t.huffman))
    && d.restart == t.restart
  }

  /** One quantizer of a segment. */
  datatype Quant = Quant(table: int, values: Bytes)

  /** The quantizers from `p` to the end of a payload: 8-bit tables 0 to 3, without a zero. */
  function QuantsFrom(payload: Bytes, p: nat): Option<seq<Quant>>
    requires p <= |payload|
    decreases |payload| - p
  {
    if p == |payload| then Some([])
    else if |payload| - p < 65 || 3 < payload[p] || 0 in payload[p + 1..p + 65] then None
    else
      var rest := QuantsFrom(payload, p + 65);
      if rest.None? then None else Some([Quant(payload[p], payload[p + 1..p + 65])] + rest.value)
  }

  /** The tables a list defines; a later definition replaces an earlier one. */
  function Tabulated(quants: seq<Quant>): map<int, Bytes> {
    if quants == [] then map[]
    else Tabulated(quants[..|quants| - 1])[quants[|quants| - 1].table := quants[|quants| - 1].values]
  }

  /** In a progressive image, a quantizer that a scan has used may only be repeated as it is. */
  predicate KeepsUsed(process: int, t: Tables, quants: seq<Quant>) {
    process == PROGRESSIVE ==>
      forall i :: 0 <= i < |quants| && quants[i].table in t.used && quants[i].table in t.quant ==>
        t.quant[quants[i].table] == quants[i].values
  }

  predicate QuantsOk(process: int, t: Tables, payload: Bytes) {
    && payload != [] && QuantsFrom(payload, 0).Some?
    && KeepsUsed(process, t, QuantsFrom(payload, 0).value)
  }

  function WithQuants(t: Tables, payload: Bytes): Tables {
    if QuantsFrom(payload, 0).None? then t else t.(quant := t.quant + Tabulated(QuantsFrom(payload, 0).value))
  }

  function After<T>(done: seq<T>, rest: Option<seq<T>>): Option<seq<T>> {
    if rest.None? then None else Some(done + rest.value)
  }

  lemma AfterOne<T>(done: seq<T>, x: T, rest: Option<seq<T>>)
    ensures After(done, After([x], rest)) == After(done + [x], rest)
  {
    if rest.Some? { assert done + ([x] + rest.value) == done + [x] + rest.value; }
  }

  /** Some quantizers of a segment have been entered. */
  ghost predicate Entered(d: Decoder, d': Decoder, t: Tables, quants: seq<Quant>)
    requires Shape(d)
  {
    && d' == d.(quant := d'.quant, values := d'.values) && Shape(d')
    && Agrees(d', t.(quant := t.quant + Tabulated(quants)))
    && KeepsUsed(d.process, t, quants)
    && (d.process == PROGRESSIVE ==> forall i :: 0 <= i < 4 && i in t.used ==> d'.values[i] == d.values[i])
  }

  lemma EnterOne(d: Decoder, d': Decoder, t: Tables, quants: seq<Quant>, q: Quant)
    requires Shape(d) && Agrees(d, t) && Entered(d, d', t, quants) && 0 <= q.table <= 3
    requires d.process == PROGRESSIVE && d'.used[q.table] ==> d'.values[q.table] == q.values
    ensures Entered(d, d'.(quant := d'.quant[q.table := true], values := d'.values[q.table := q.values]),
                    t, quants + [q])
  {
    assert (quants + [q])[..|quants|] == quants;
  }

  /** The loop over a quantizer segment. */
  method ReadQuantizers(d: Decoder, payload: Bytes, ghost t: Tables) returns (ok: bool, d': Decoder)
    requires Shape(d) && Agrees(d, t)
    ensures ok <==> QuantsOk(d.process, t, payload)
    ensures ok ==> Shape(d') && Agrees(d', WithQuants(t, payload)) && d' == d.(quant := d'.quant, values := d'.values)
  {
    d' := d;
    if payload == [] { return false, d; }
    var p := 0;
    ghost var quants: seq<Quant> := [];
    NothingEntered(d, t, QuantsFrom(payload, 0));
    while p < |payload|
      invariant 0 <= p <= |payload| && Entered(d, d', t, quants)
      invariant QuantsFrom(payload, 0) == After(quants, QuantsFrom(payload, p))
    {
      if |payload| - p < 65 { return false, d; }
      var table := payload[p];
      if 3 < table { return false, d; }
      var values := payload[p + 1..p + 65];
      if 0 in values { return false, d; }
      ghost var q := Quant(table, values);
      AfterOne(quants, q, QuantsFrom(payload, p + 65));
      if d.process == PROGRESSIVE && d'.used[table] && d'.values[table] != values {
        ChangedInTheWay(d, d', t, quants, q, QuantsFrom(payload, p + 65));
        return false, d;
      }
      EnterOne(d, d', t, quants, q);
      d' := d'.(quant := d'.quant[table := true], values := d'.values[table := values]);
      quants := quants + [q];
      p := p + 65;
    }
    assert quants + [] == quants;
    ok := true;
  }

  lemma NothingEntered(d: Decoder, t: Tables, all: Option<seq<Quant>>)
    requires Shape(d) && Agrees(d, t)
    ensures Entered(d, d, t, []) && all == After([], all)
  {
    assert t.quant + Tabulated([]) == t.quant;
    if all.Some? { assert [] + all.value == all.value; }
  }

  lemma ChangedInTheWay(d: Decoder, d': Decoder, t: Tables, quants: seq<Quant>, q: Quant, rest: Option<seq<Quant>>)
    requires Shape(d) && Agrees(d, t) && Entered(d, d', t, quants) && 0 <= q.table <= 3
    requires d.process == PROGRESSIVE && d'.used[q.table] && d'.values[q.table] != q.values
    ensures rest.Some? ==> !KeepsUsed(d.process, t, quants + [q] + rest.value)
  {
    if rest.Some? {
      var all := quants + [q] + rest.value;
      assert all[|quants|] == q;
    }
  }

  /** The Huffman tables from `p` to the end of a payload. */
  function HuffmansFrom(payload: Bytes, p: nat): Option<seq<int>>
    requires p <= |payload|
    decreases |payload| - p
  {
    if p == |payload| then Some([])
    else if |payload| - p < 17 || 1 < payload[p] / 16 || 3 < payload[p] % 16 then None
    else
      var counts: seq<nat> := payload[p + 1..p + 17];
      if !UsableCounts(counts) || |payload| - p - 17 < Symbols(counts) then None
      else
        var rest := HuffmansFrom(payload, p + 17 + Symbols(counts));
        if rest.None? then None else Some([payload[p] / 16 * 4 + payload[p] % 16] + rest.value)
  }

  predicate HuffmansOk(payload: Bytes) { payload != [] && HuffmansFrom(payload, 0).Some? }

  function Members(xs: seq<int>): set<int> { set x | x in xs }

  function WithHuffmans(t: Tables, payload: Bytes): Tables {
    if HuffmansFrom(payload, 0).None? then t else t.(huffman := t.huffman + Members(HuffmansFrom(payload, 0).value))
  }

  ghost predicate HuffmansEntered(d: Decoder, t: Tables, ids: seq<int>) {
    Shape(d) && Agrees(d, t.(huffman := t.huffman + Members(ids)))
  }

  lemma EnterHuffman(d: Decoder, t: Tables, ids: seq<int>, id: int)
    requires HuffmansEntered(d, t, ids) && 0 <= id < 8
    ensures HuffmansEntered(d.(huffman := d.huffman[id := true]), t, ids + [id])
  {
  }

  lemma NoHuffmans(d: Decoder, t: Tables, all: Option<seq<int>>)
    requires Shape(d) && Agrees(d, t)
    ensures HuffmansEntered(d, t, []) && all == After([], all)
  {
    if all.Some? { assert [] + all.value == all.value; }
  }

  /** The loop over a Huffman segment. */
  method ReadHuffman(d: Decoder, payload: Bytes, ghost t: Tables) returns (ok: bool, d': Decoder)
    requires Shape(d) && Agrees(d, t)
    ensures ok <==> HuffmansOk(payload)
    ensures ok ==> Shape(d') && Agrees(d', WithHuffmans(t, payload)) && d' == d.(huffman := d'.huffman)
  {
    d' := d;
    if payload == [] { return false, d; }
    var p := 0;
    ghost var ids: seq<int> := [];
    NoHuffmans(d, t, HuffmansFrom(payload, 0));
    while p < |payload|
      invariant 0 <= p <= |payload| && d' == d.(huffman := d'.huffman) && HuffmansEntered(d', t, ids)
      invariant HuffmansFrom(payload, 0) == After(ids, HuffmansFrom(payload, p))
    {
      if |payload| - p < 17 { return false, d; }
      var table := payload[p];
      if 1 < table / 16 || 3 < table % 16 { return false, d; }
      var counts: seq<nat> := payload[p + 1..p + 17];
      var usable, symbols := CheckCounts(counts);
      if !usable || |payload| - p - 17 < symbols { return false, d; }
      var id: int := table / 16 * 4 + table % 16;
      AfterOne(ids, id, HuffmansFrom(payload, p + 17 + symbols));
      EnterHuffman(d', t, ids, id);
      d' := d'.(huffman := d'.huffman[id := true]);
      ids := ids + [id];
      p := p + 17 + symbols;
    }
    assert ids + [] == ids;
    ok := true;
  }

  // ---------------------------------------------------------------- a scan header

  predicate Ready(point: int, ah: int) { if ah == 0 then point == -1 else point == ah }

  /** The loop over one component's band. */
  method UpdatePlane(plane: seq<int>, ss: nat, se: nat, ah: nat, al: nat) returns (ok: bool, plane': seq<int>)
    requires |plane| == COEFFICIENTS && ss <= se < COEFFICIENTS
    ensures ok <==> forall k :: ss <= k <= se ==> Ready(plane[k], ah)
    ensures ok ==> |plane'| == COEFFICIENTS
    ensures ok ==> forall k :: 0 <= k < COEFFICIENTS ==> plane'[k] == if ss <= k <= se then al else plane[k]
  {
    plane' := plane;
    for k := ss to se + 1
      invariant |plane'| == COEFFICIENTS
      invariant forall j :: ss <= j < k ==> Ready(plane[j], ah)
      invariant forall j :: 0 <= j < COEFFICIENTS ==> plane'[j] == if ss <= j < k then al else plane[j]
    {
      if !Ready(plane'[k], ah) { return false, plane'; }
      plane' := plane'[k := al];
    }
    ok := true;
  }

  /** The band and the approximation a scan header announces. */
  datatype Band = Band(ss: nat, se: nat, ah: nat, al: nat)

  predicate BandOk(process: int, n: int, b: Band) {
    if process == PROGRESSIVE then
      && b.ss <= b.se <= 63 && (if b.ss == 0 then b.se == 0 else n == 1) && b.ah <= 13 && b.al <= 13
      && (b.ah != 0 ==> b.al + 1 == b.ah)
    else b == Band(0, 63, 0, 0)
  }

  /** What a scan header is checked against: the frame, and which tables are defined. */
  datatype Setup = Setup(components: seq<Component>, process: int, quant: seq<bool>, huffman: seq<bool>)

  function SetupOf(d: Decoder): Setup { Setup(d.components, d.process, d.quant, d.huffman) }

  predicate Defined(tables: seq<bool>, t: int) { 0 <= t < |tables| && tables[t] }

  /** The tables one component of a scan refers to are there. */
  predicate TablesThere(u: Setup, b: Band, c: nat, tables: Byte)
    requires c < |u.components|
  {
    var dc, ac, limit := tables / 16, tables % 16, if u.process == 0xc0 then 1 else 3;
    && dc <= limit && ac <= limit && Defined(u.quant, u.components[c].q)
    && (u.process != PROGRESSIVE || (b.ss == 0 && b.ah == 0) ==> Defined(u.huffman, dc))
    && (u.process != PROGRESSIVE || b.ss != 0 ==> Defined(u.huffman, 4 + ac))
  }

  predicate InBand(b: Band, k: int) { b.ss <= k <= b.se }

  /** The band of a plane moved to point `al`, the rest as before. */
  predicate Marked(b: Band, before: seq<int>, after: seq<int>) {
    && |before| == |after| == COEFFICIENTS
    && forall k :: 0 <= k < COEFFICIENTS ==> after[k] == if InBand(b, k) then b.al else before[k]
  }

  /** The band may be scanned next: every coefficient is ready, and a DC scan has come before any AC band. */
  ghost predicate Continues(script: seq<Scan>, b: Band, c: nat) {
    && (forall k: nat :: InBand(b, k) ==> Allowed(script, b.ah, c, k))
    && (b.ss != 0 ==> Refinements(script, c, 0) != [])
  }

  predicate ProperBand(process: int, b: Band) {
    b.ss <= b.se <= 63 && (process != PROGRESSIVE ==> b == Band(0, 63, 0, 0))
  }

  /** One component's coefficients of a scan: all of a baseline plane at once, or the band of a progressive one. */
  method ScanPlane(process: int, plane: seq<int>, b: Band, ghost script: seq<Scan>, ghost c: nat)
      returns (ok: bool, plane': seq<int>)
    requires PlaneOk(plane, script, c) && ProperBand(process, b) && (process != PROGRESSIVE ==> Flat(plane))
    ensures ok ==> Marked(b, plane, plane') && (process != PROGRESSIVE ==> Flat(plane'))
    ensures ok <==> Continues(script, b, c)
  {
    plane' := plane;
    if process != PROGRESSIVE {
      ReadyIsAllowed(plane, script, 0, c, 0);
      if plane[0] != -1 {
        assert InBand(b, 0);
        return false, plane;
      }
      plane' := seq(COEFFICIENTS, _ => 0);
      ok := true;
    } else {
      if b.ss != 0 && plane[0] < 0 { return false, plane; }
      ok, plane' := UpdatePlane(plane, b.ss, b.se, b.ah, b.al);
    }
    forall k: nat | InBand(b, k) ensures Allowed(script, b.ah, c, k) <==> Ready(plane[k], b.ah) {
      ReadyIsAllowed(plane, script, b.ah, c, k);
    }
  }

  lemma ReadyIsAllowed(plane: seq<int>, script: seq<Scan>, ah: nat, c: nat, k: nat)
    requires PlaneOk(plane, script, c) && k < COEFFICIENTS
    ensures Allowed(script, ah, c, k) <==> Ready(plane[k], ah)
  {
  }

  /** The planes after part of a scan's components. */
  ghost predicate PlanesAfter(d: Decoder, planes: seq<seq<int>>, script: seq<Scan>, b: Band, done: seq<nat>)
    requires Shape(d)
  {
    && |planes| == COMPONENTS
    && (forall c: nat :: c < COMPONENTS && c in done ==> Marked(b, d.planes[c], planes[c]) && Continues(script, b, c))
    && (forall c: nat :: c < COMPONENTS && c !in done ==> planes[c] == d.planes[c])
    && (d.process != PROGRESSIVE ==> forall c :: 0 <= c < COMPONENTS ==> Flat(planes[c]))
  }

  function ScanOf(b: Band, done: seq<nat>): Scan { Scan(done, b.ss, b.se, b.ah, b.al) }

  /** A plane after one more scan of the script. */
  lemma PlaneAfter(before: seq<int>, after: seq<int>, script: seq<Scan>, b: Band, done: seq<nat>, c: nat)
    requires PlaneOk(before, script, c) && (if c in done then Marked(b, before, after) else after == before)
    ensures PlaneOk(after, script + [ScanOf(b, done)], c)
  {
    var s := ScanOf(b, done);
    assert (script + [s])[..|script|] == script;
    forall k: nat | k < COEFFICIENTS ensures after[k] == Point(Refinements(script + [s], c, k)) {
      var r := Refinements(script, c, k);
      assert (r + [s])[|r|] == s;
    }
  }

  /** A finished scan extends the script. */
  lemma ScanDone(d: Decoder, d': Decoder, script: seq<Scan>, b: Band, done: seq<nat>)
    requires Good(d, script) && ValidScan(ScanOf(b, done)) && PlanesAfter(d, d'.planes, script, b, done)
    requires d.process != 0 && |d'.used| == 4 && d' == d.(planes := d'.planes, used := d'.used)
    ensures Good(d', script + [ScanOf(b, done)])
  {
    var s := ScanOf(b, done);
    assert (script + [s])[..|script|] == script;
    forall c: nat | c < COMPONENTS ensures PlaneOk(d'.planes[c], script + [s], c) {
      PlaneAfter(d.planes[c], d'.planes[c], script, b, done, c);
    }
    forall c: nat, k: nat | Covers(s, c, k) ensures Allowed(script, s.ah, c, k) {
      assert Continues(script, b, c) && InBand(b, k);
    }
    forall c: nat | s.ss != 0 && c in s.components ensures Refinements(script, c, 0) != [] {
      assert Continues(script, b, c);
    }
  }

  /** One component of a scan. */
  method ScanComponent(d: Decoder, planes: seq<seq<int>>, b: Band, c: nat, tables: Byte, ghost script: seq<Scan>,
                       ghost done: seq<nat>)
      returns (ok: bool, planes': seq<seq<int>>)
    requires Good(d, script) && ProperBand(d.process, b) && PlanesAfter(d, planes, script, b, done)
    requires c < |d.components| && c !in done
    ensures ok ==> PlanesAfter(d, planes', script, b, done + [c])
    ensures ok <==> TablesThere(SetupOf(d), b, c, tables) && Continues(script, b, c)
  {
    planes' := planes;
    if !TablesThere(SetupOf(d), b, c, tables) { return false, planes; }
    var plane;
    ok, plane := ScanPlane(d.process, planes[c], b, script, c);
    planes' := planes[c := plane];
  }

  /** The component a scan header names at place `i`, or none. */
  function Named(components: seq<Component>, payload: Bytes, i: nat): nat
    requires 1 + 2 * i < |payload|
  {
    Known(components, payload[1 + 2 * i])
  }

  /** The components a header names at its first `n` places. */
  function Places(components: seq<Component>, payload: Bytes, n: nat): (r: seq<nat>)
    requires 2 * n < |payload|
    ensures |r| == n
  {
    if n == 0 then [] else Places(components, payload, n - 1) + [Known(components, payload[2 * n - 1])]
  }

  /** The scan a header announces. */
  function ScanFrom(components: seq<Component>, payload: Bytes): Scan {
    var n: nat := if payload == [] then 0 else payload[0];
    if |payload| != 4 + 2 * n then Scan([], 0, 0, 0, 0) else ScanOf(BandOf(payload, n), Places(components, payload, n))
  }

  /** The quantizers of the components listed. */
  function UsedBy(components: seq<Component>, places: seq<nat>): set<int> {
    if places == [] then {}
    else
      var c := places[|places| - 1];
      UsedBy(components, places[..|places| - 1]) + (if c < |components| then {components[c].q} else {})
  }

  function Used(components: seq<Component>, s: Scan): set<int> { UsedBy(components, s.components) }

  /** The flags of used quantizers after the components listed; only defined ones are used. */
  ghost predicate UsedOk(d: Decoder, used: seq<bool>, done: seq<nat>)
    requires Shape(d)
  {
    && |used| == 4
    && (forall t :: 0 <= t < 4 ==> (used[t] <==> d.used[t] || t in UsedBy(d.components, done)))
    && (forall t :: 0 <= t < 4 && used[t] ==> d.used[t] || d.quant[t])
  }

  lemma UseOne(d: Decoder, used: seq<bool>, done: seq<nat>, c: nat)
    requires Shape(d) && UsedOk(d, used, done) && c < |d.components| && d.quant[d.components[c].q]
    ensures UsedOk(d, used[d.components[c].q := true], done + [c])
  {
    assert (done + [c])[..|done|] == done;
  }

  /** Sampling blocks of the first `n` components a header names. */
  function Blocks(components: seq<Component>, payload: Bytes, n: nat): int
    requires 2 * n < |payload|
  {
    if n == 0 then 0 else Blocks(components, payload, n - 1) + BlocksOf(components, Named(components, payload, n - 1))
  }

  function BlocksOf(components: seq<Component>, c: nat): int {
    if c < |components| then components[c].h * components[c].v else 0
  }

  function BandOf(payload: Bytes, n: nat): Band
    requires |payload| == 4 + 2 * n
  {
    Band(payload[1 + 2 * n], payload[2 + 2 * n], payload[3 + 2 * n] / 16, payload[3 + 2 * n] % 16)
  }

  /** Place `i` of a header: a known component after its predecessor, with its tables there and its band ready. */
  ghost predicate PlaceOk(u: Setup, script: seq<Scan>, payload: Bytes, b: Band, i: nat)
    requires 2 + 2 * i < |payload|
  {
    var c := Named(u.components, payload, i);
    && c < |u.components| && (i != 0 ==> Named(u.components, payload, i - 1) < c)
    && TablesThere(u, b, c, payload[2 + 2 * i]) && Continues(script, b, c)
  }

  /** The first `n` places of a header are in order. */
  ghost predicate PlacesOk(u: Setup, script: seq<Scan>, payload: Bytes, b: Band, n: nat)
    requires 2 * n < |payload|
  {
    n == 0 || (PlacesOk(u, script, payload, b, n - 1) && PlaceOk(u, script, payload, b, n - 1))
  }

  /** A place out of order stays in the way. */
  lemma {:induction false} PlaceInTheWay(u: Setup, script: seq<Scan>, payload: Bytes, b: Band, i: nat, n: nat)
    requires i < n && 2 * n < |payload| && !PlaceOk(u, script, payload, b, i)
    ensures !PlacesOk(u, script, payload, b, n)
  {
    if i + 1 < n { PlaceInTheWay(u, script, payload, b, i, n - 1); }
  }

  /** The scan headers the source takes. */
  ghost predicate HeaderOk(u: Setup, script: seq<Scan>, payload: Bytes) {
    && u.process != 0 && 6 <= |payload| && 1 <= payload[0] <= |u.components| && |payload| == 4 + 2 * (payload[0] as int)
    && BandOk(u.process, payload[0], BandOf(payload, payload[0]))
    && PlacesOk(u, script, payload, BandOf(payload, payload[0]), payload[0])
    && (1 < payload[0] ==> Blocks(u.components, payload, payload[0]) <= 10)
  }

  /** A scan header is taken exactly when it is legal after the script so far, and then extends it. */
  method ReadScan(d: Decoder, payload: Bytes, ghost script: seq<Scan>)
      returns (ok: bool, d': Decoder, ghost script': seq<Scan>)
    requires Good(d, script)
    ensures ok <==> HeaderOk(SetupOf(d), script, payload)
    ensures ok ==> Good(d', script') && script' == script + [ScanFrom(d.components, payload)]
    ensures ok ==> d' == d.(planes := d'.planes, used := d'.used) && d.process != 0
    ensures ok ==> UsedOk(d, d'.used, ScanFrom(d.components, payload).components)
  {
    d', script' := d, script;
    ok := false;
    if d.process == 0 || |payload| < 6 { return; }
    var n := payload[0];
    if n == 0 || |d.components| < n || |payload| != 4 + 2 * n { return; }
    var b := BandOf(payload, n);
    if !BandOk(d.process, n, b) { return; }
    var there, planes, used;
    ghost var done;
    there, planes, used, done := ReadPlaces(d, payload, n, b, script);
    var blocks := CountBlocks(d, payload, n);
    if !there || (1 < n && 10 < blocks) { return; }
    PlacesAre(d, payload, n, done);
    ProperScan(d, n, b, done);
    d', script' := TakeScan(d, script, b, planes, used, done);
    ok := true;
  }

  lemma ProperScan(d: Decoder, n: nat, b: Band, done: seq<nat>)
    requires Shape(d) && BandOk(d.process, n, b) && 0 < |done|
    requires forall i :: 0 <= i < |done| ==> done[i] < |d.components|
    ensures ValidScan(ScanOf(b, done))
  {
  }

  /** The tables after a scan. */
  method TakeScan(d: Decoder, ghost script: seq<Scan>, ghost b: Band, planes: seq<seq<int>>, used: seq<bool>,
                  ghost done: seq<nat>)
      returns (d': Decoder, ghost script': seq<Scan>)
    requires Good(d, script) && ValidScan(ScanOf(b, done)) && PlanesAfter(d, planes, script, b, done)
    requires d.process != 0 && UsedOk(d, used, done)
    ensures Good(d', script') && script' == script + [ScanOf(b, done)]
    ensures d' == d.(planes := planes, used := used)
  {
    d' := d.(planes := planes, used := used);
    ScanDone(d, d', script, b, done);
    script' := script + [ScanOf(b, done)];
  }

  lemma {:induction false} PlacesAre(d: Decoder, payload: Bytes, n: nat, done: seq<nat>)
    requires |done| == n && 2 * n < |payload| && forall i: nat :: i < n ==> done[i] == Named(d.components, payload, i)
    ensures done == Places(d.components, payload, n)
  {
    if n != 0 { PlacesAre(d, payload, n - 1, done[..n - 1]); }
  }

  method CountBlocks(d: Decoder, payload: Bytes, n: nat) returns (blocks: int)
    requires 2 * n < |payload|
    ensures blocks == Blocks(d.components, payload, n)
  {
    blocks := 0;
    for i := 0 to n
      invariant blocks == Blocks(d.components, payload, i)
    {
      blocks := blocks + BlocksOf(d.components, Known(d.components, payload[1 + 2 * i]));
    }
  }

  /** The loop over a header's components. */
  method ReadPlaces(d: Decoder, payload: Bytes, n: nat, b: Band, ghost script: seq<Scan>)
      returns (ok: bool, planes: seq<seq<int>>, used: seq<bool>, ghost done: seq<nat>)
    requires Good(d, script) && ProperBand(d.process, b) && |payload| == 4 + 2 * n
    ensures ok <==> PlacesOk(SetupOf(d), script, payload, b, n)
    ensures ok ==> PlanesAfter(d, planes, script, b, done) && UsedOk(d, used, done)
    ensures ok ==> |done| == n && forall i: nat :: i < n ==> done[i] == Named(d.components, payload, i) < |d.components|
  {
    done, planes, used := [], d.planes, d.used;
    for i := 0 to n
      invariant |done| == i && PlanesAfter(d, planes, script, b, done)
      invariant forall j: nat :: j < i ==> done[j] == Named(d.components, payload, j)
      invariant UsedOk(d, used, done)
      invariant PlacesOk(SetupOf(d), script, payload, b, i)
      invariant forall j :: 0 <= j < i ==> done[j] < |d.components| && done[j] <= done[i - 1]
    {
      var c;
      ok, c, planes := ReadPlace(d, payload, i, b, planes, script, done);
      if !ok {
        PlaceInTheWay(SetupOf(d), script, payload, b, i, n);
        return;
      }
      UseOne(d, used, done, c);
      used := used[d.components[c].q := true];
      done := done + [c];
    }
    ok := true;
  }

  method ReadPlace(d: Decoder, payload: Bytes, i: nat, b: Band, planes: seq<seq<int>>, ghost script: seq<Scan>,
                   ghost done: seq<nat>)
      returns (ok: bool, c: nat, planes': seq<seq<int>>)
    requires Good(d, script) && ProperBand(d.process, b) && 2 + 2 * i < |payload|
    requires |done| == i && (i != 0 ==> done[i - 1] == Named(d.components, payload, i - 1))
    requires PlanesAfter(d, planes, script, b, done)
    requires forall j :: 0 <= j < i ==> done[j] <= done[i - 1]
    ensures ok <==> PlaceOk(SetupOf(d), script, payload, b, i)
    ensures ok ==>
              c == Named(d.components, payload, i) < |d.components| && PlanesAfter(d, planes', script, b, done + [c])
    ensures ok ==> (forall j :: 0 <= j < i ==> done[j] < c) && d.quant[d.components[c].q]
  {
    planes' := planes;
    c := Known(d.components, payload[1 + 2 * i]);
    if c == |d.components| || (i != 0 && c <= Known(d.components, payload[2 * i - 1])) { return false, c, planes; }
    ok, planes' := ScanComponent(d, planes, b, c, payload[2 + 2 * i], script, done);
  }
}
