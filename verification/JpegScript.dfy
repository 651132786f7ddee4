/**
  What a JPEG's scans do to its coefficients (the scan headers checked in
  admitted_jpeg, src/artist_background_image.cpp; section G.1.1.1.2 of ITU-T
  T.81), and what a Huffman table's counts must satisfy (section C.2).
*/
module JpegScript {

  const COMPONENTS: nat := 4
  const COEFFICIENTS: nat := 64
  const MAXIMUM_POINT: nat := 13

  /** One scan: the components it covers, a band of coefficients, and its successive approximation. */
  datatype Scan = Scan(components: seq<nat>, ss: nat, se: nat, ah: nat, al: nat)

  predicate Covers(s: Scan, c: nat, k: nat) { c in s.components && s.ss <= k <= s.se }

  /** What the header checks leave of a scan. */
  predicate ValidScan(s: Scan) {
    && s.components != [] && (forall i :: 0 <= i < |s.components| ==> s.components[i] < COMPONENTS)
    && s.ss <= s.se < COEFFICIENTS && s.al <= MAXIMUM_POINT && (s.ah != 0 ==> s.al + 1 == s.ah)
  }

  /** The approximations a coefficient went through, in order. */
  function Refinements(scans: seq<Scan>, c: nat, k: nat): seq<Scan> {
    if scans == [] then []
    else
      var front, last := Refinements(scans[..|scans| - 1], c, k), scans[|scans| - 1];
      if Covers(last, c, k) then front + [last] else front
  }

  /** A first scan, then refinements that each take the point one bit down. */
  predicate Chain(refinements: seq<Scan>) {
    refinements == [] ||
    (var front, last := refinements[..|refinements| - 1], refinements[|refinements| - 1];
     Chain(front) && (if front == [] then last.ah == 0 else last.ah == front[|front| - 1].al && last.ah != 0))
  }

  /** What the source's plane records of a coefficient: -1, or the point it stands at. */
  function Point(refinements: seq<Scan>): int {
    if refinements == [] then -1 else refinements[|refinements| - 1].al
  }

  /** A coefficient may be scanned next from point `ah`, or for the first time. */
  predicate Allowed(scans: seq<Scan>, ah: nat, c: nat, k: nat) {
    if ah == 0 then Refinements(scans, c, k) == [] else Point(Refinements(scans, c, k)) == ah
  }

  /** A legal script: chains everywhere, and no AC band of a component before its DC. */
  ghost predicate Script(scans: seq<Scan>) {
    scans == [] ||
    (var front, last := scans[..|scans| - 1], scans[|scans| - 1];
     && Script(front) && ValidScan(last)
     && (forall c, k :: Covers(last, c, k) ==> Allowed(front, last.ah, c, k))
     && (forall c :: last.ss != 0 && c in last.components ==> Refinements(front, c, 0) != []))
  }

  /** Every coefficient of a legal script is refined by a chain. */
  lemma {:induction false} ScriptChains(scans: seq<Scan>, c: nat, k: nat)
    requires Script(scans)
    ensures Chain(Refinements(scans, c, k))
    ensures forall i :: 0 <= i < |Refinements(scans, c, k)| ==> ValidScan(Refinements(scans, c, k)[i])
  {
    if scans != [] {
      var front, last := scans[..|scans| - 1], scans[|scans| - 1];
      ScriptChains(front, c, k);
      if Covers(last, c, k) {
        assert Allowed(front, last.ah, c, k);
        var before := Refinements(front, c, k);
        assert (before + [last])[..|before|] == before;
      }
    }
  }

  /** A chain falls by exactly one a step. */
  lemma {:induction false} ChainFalls(r: seq<Scan>, i: nat)
    requires Chain(r) && i < |r| && (forall j :: 0 <= j < |r| ==> ValidScan(r[j]))
    ensures r[i].al == r[0].al - i
    ensures r[i].ah == if i == 0 then 0 else r[i - 1].al
    decreases |r|
  {
    var front := r[..|r| - 1];
    if i < |front| {
      ChainFalls(front, i);
    } else if 0 < i {
      ChainFalls(front, i - 1);
    }
  }

  /** So no coefficient is scanned more than fourteen times. */
  lemma ChainBound(r: seq<Scan>)
    requires Chain(r) && (forall j :: 0 <= j < |r| ==> ValidScan(r[j]))
    ensures |r| <= MAXIMUM_POINT + 1
  {
    if r != [] { ChainFalls(r, |r| - 1); }
  }

  // ---------------------------------------------------------------- the number of scans

  /** Scans of the first `k` coefficients of component `c`. */
  function Depth(scans: seq<Scan>, c: nat, k: nat): nat {
    if k == 0 then 0 else Depth(scans, c, k - 1) + |Refinements(scans, c, k - 1)|
  }

  function Work(scans: seq<Scan>, c: nat): nat {
    if c == 0 then 0 else Work(scans, c - 1) + Depth(scans, c - 1, COEFFICIENTS)
  }

  lemma {:induction false} DepthGrows(scans: seq<Scan>, s: Scan, c: nat, k: nat)
    ensures Depth(scans, c, k) <= Depth(scans + [s], c, k)
    ensures c in s.components && s.ss < k && s.ss <= s.se ==> Depth(scans, c, k) < Depth(scans + [s], c, k)
  {
    assert (scans + [s])[..|scans|] == scans;
    if k != 0 { DepthGrows(scans, s, c, k - 1); }
  }

  lemma {:induction false} WorkGrows(scans: seq<Scan>, s: Scan, c: nat)
    requires ValidScan(s)
    ensures Work(scans, c) <= Work(scans + [s], c)
    ensures s.components[0] < c ==> Work(scans, c) < Work(scans + [s], c)
  {
    if c != 0 {
      WorkGrows(scans, s, c - 1);
      DepthGrows(scans, s, c - 1, COEFFICIENTS);
    }
  }

  lemma {:induction false} EveryScanWorks(scans: seq<Scan>)
    requires Script(scans)
    ensures |scans| <= Work(scans, COMPONENTS)
  {
    if scans != [] {
      var front, last := scans[..|scans| - 1], scans[|scans| - 1];
      EveryScanWorks(front);
      WorkGrows(front, last, COMPONENTS);
      assert front + [last] == scans;
    }
  }

  lemma {:induction false} DepthBound(scans: seq<Scan>, c: nat, k: nat)
    requires Script(scans)
    ensures Depth(scans, c, k) <= 14 * k
  {
    if k != 0 {
      DepthBound(scans, c, k - 1);
      ScriptChains(scans, c, k - 1);
      ChainBound(Refinements(scans, c, k - 1));
    }
  }

  lemma {:induction false} WorkBound(scans: seq<Scan>, c: nat)
    requires Script(scans)
    ensures Work(scans, c) <= 896 * c
  {
    if c != 0 {
      WorkBound(scans, c - 1);
      DepthBound(scans, c - 1, COEFFICIENTS);
    }
  }

  /** However a legal script is written, it has at most 4 * 64 * 14 scans. */
  lemma ScanBound(scans: seq<Scan>)
    requires Script(scans)
    ensures |scans| <= 3584
  {
    EveryScanWorks(scans);
    WorkBound(scans, COMPONENTS);
  }

  // ---------------------------------------------------------------- Huffman counts

  function Symbols(counts: seq<nat>): nat {
    if counts == [] then 0 else Symbols(counts[..|counts| - 1]) + counts[|counts| - 1]
  }

  function Pow2(n: nat): nat { if n == 0 then 1 else 2 * Pow2(n - 1) }

  /** The Kraft sum of code lengths 1 to |counts|, in units of the longest code. */
  function Kraft(counts: seq<nat>): nat {
    if counts == [] then 0 else 2 * Kraft(counts[..|counts| - 1]) + counts[|counts| - 1]
  }

  /** Code space left after the lengths so far. */
  function Available(counts: seq<nat>): int {
    if counts == [] then 1 else Available(counts[..|counts| - 1]) * 2 - counts[|counts| - 1]
  }

  lemma {:induction false} AvailableIsKraft(counts: seq<nat>)
    ensures Available(counts) == Pow2(|counts|) - Kraft(counts)
  {
    if counts != [] { AvailableIsKraft(counts[..|counts| - 1]); }
  }

  /** Once overdrawn, the code space stays overdrawn. */
  lemma {:induction false} OverdrawnStays(counts: seq<nat>, n: nat)
    requires n <= |counts| && Available(counts[..n]) < 0
    ensures Available(counts) < 0
  {
    if n < |counts| {
      assert counts[..|counts| - 1][..n] == counts[..n];
      OverdrawnStays(counts[..|counts| - 1], n);
    } else {
      assert counts[..n] == counts;
    }
  }

  /** A table's counts are usable: a prefix code with room to spare, of 1 to 256 symbols. */
  predicate UsableCounts(counts: seq<nat>) {
    Kraft(counts) < Pow2(|counts|) && 1 <= Symbols(counts) <= 256
  }

  /** The loop over a table's sixteen counts, with its early return, decides exactly that. */
  method CheckCounts(counts: seq<nat>) returns (ok: bool, symbols: nat)
    requires |counts| == 16
    ensures ok <==> UsableCounts(counts)
    ensures ok ==> symbols == Symbols(counts)
  {
    symbols := 0;
    var available: int := 1;
    for i := 0 to 16
      invariant symbols == Symbols(counts[..i]) && available == Available(counts[..i]) && 0 <= available
    {
      assert counts[..i + 1][..i] == counts[..i];
      available := available * 2 - counts[i];
      symbols := symbols + counts[i];
      if available < 0 {
        OverdrawnStays(counts, i + 1);
        AvailableIsKraft(counts);
        return false, symbols;
      }
    }
    assert counts[..16] == counts;
    AvailableIsKraft(counts);
    ok := available != 0 && symbols != 0 && symbols <= 256;
  }
}
