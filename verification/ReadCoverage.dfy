/**
  Coverage of a stream (ReadCoverage in src/integrity_state.cpp): the union of
  accepted intervals in a fixed array, kept sorted and apart by shifting.
*/
module ReadCoverages {
  import opened Basics
  import opened CddaReaders

  datatype Region = Region(begin: int, end: int) {
    predicate Has(x: int) { begin <= x < end }
  }

  const CAPACITY: nat := 128

  // ---------------------------------------------------------------- intervals as sets

  function Span(begin: int, end: int): (r: set<int>)
    ensures forall x :: x in r <==> begin <= x < end
    ensures |r| == Max(0, end - begin)
    decreases end - begin
  {
    if end <= begin then {} else Span(begin, end - 1) + {end - 1}
  }

  /** The LBAs the regions hold. */
  function Points(rs: seq<Region>): set<int> {
    if rs == [] then {} else Points(rs[..|rs| - 1]) + Span(rs[|rs| - 1].begin, rs[|rs| - 1].end)
  }

  lemma {:induction false} PointsMember(rs: seq<Region>, x: int)
    ensures x in Points(rs) <==> exists i :: 0 <= i < |rs| && rs[i].Has(x)
  {
    if rs != [] {
      var front := rs[..|rs| - 1];
      PointsMember(front, x);
      if x in Points(front) {
        var i :| 0 <= i < |front| && front[i].Has(x);
        assert rs[i].Has(x);
      } else if x in Span(rs[|rs| - 1].begin, rs[|rs| - 1].end) {
        assert rs[|rs| - 1].Has(x);
      }
      if exists i :: 0 <= i < |rs| && rs[i].Has(x) {
        var i :| 0 <= i < |rs| && rs[i].Has(x);
        if i < |front| { assert front[i].Has(x); }
      }
    }
  }

  function Total(rs: seq<Region>): int {
    if rs == [] then 0 else Total(rs[..|rs| - 1]) + (rs[|rs| - 1].end - rs[|rs| - 1].begin)
  }

  lemma {:induction false} TotalConcat(a: seq<Region>, b: seq<Region>)
    ensures Total(a + b) == Total(a) + Total(b)
  {
    if b == [] {
      assert a + b == a;
    } else {
      TotalConcat(a, b[..|b| - 1]);
      assert (a + b)[..|a + b| - 1] == a + b[..|b| - 1];
    }
  }

  lemma {:induction false} PointsConcat(a: seq<Region>, b: seq<Region>)
    ensures Points(a + b) == Points(a) + Points(b)
  {
    if b == [] {
      assert a + b == a;
    } else {
      PointsConcat(a, b[..|b| - 1]);
      PointsOfLast(a, b);
    }
  }

  lemma PointsOfLast(a: seq<Region>, b: seq<Region>)
    requires b != [] && Points(a + b[..|b| - 1]) == Points(a) + Points(b[..|b| - 1])
    ensures Points(a + b) == Points(a) + Points(b)
  {
    var front, last := b[..|b| - 1], b[|b| - 1];
    assert (a + b)[..|a + b| - 1] == a + front && (a + b)[|a + b| - 1] == last;
    UnionAssociates(Points(a), Points(front), Span(last.begin, last.end));
  }

  lemma UnionAssociates(a: set<int>, b: set<int>, c: set<int>)
    ensures a + b + c == a + (b + c)
  {
  }

  lemma LastPoints(rs: seq<Region>, r: Region)
    ensures Points(rs + [r]) == Points(rs) + Span(r.begin, r.end)
  {
    assert (rs + [r])[..|rs|] == rs;
  }

  /** Nonempty regions in order, with a gap before the next. */
  predicate Apart(rs: seq<Region>) {
    && (forall i :: 0 <= i < |rs| ==> rs[i].begin < rs[i].end)
    && (forall i, j :: 0 <= i < j < |rs| ==> rs[i].end < rs[j].begin)
  }

  /** Regions that are apart count every LBA once. */
  lemma {:induction false} TotalIsSize(rs: seq<Region>)
    requires Apart(rs)
    ensures Total(rs) == |Points(rs)|
  {
    if rs != [] {
      var front, last := rs[..|rs| - 1], rs[|rs| - 1];
      TotalIsSize(front);
      forall x | x in Points(front) ensures x !in Span(last.begin, last.end) {
        PointsMember(front, x);
      }
    }
  }

  // ---------------------------------------------------------------- merging one interval

  /** How many leading regions end before `begin`. */
  function FirstTouching(rs: seq<Region>, begin: int): (n: nat)
    ensures n <= |rs|
    ensures forall i :: 0 <= i < n ==> rs[i].end < begin
    ensures n < |rs| ==> begin <= rs[n].end
  {
    if rs == [] then 0
    else
      var n := FirstTouching(rs[..|rs| - 1], begin);
      if n < |rs| - 1 then n else if begin <= rs[|rs| - 1].end then n else |rs|
  }

  /** The regions with [first, last) replaced by one. */
  function Replaced(rs: seq<Region>, first: nat, last: nat, merged: Region): seq<Region>
    requires first <= last <= |rs|
  {
    rs[..first] + [merged] + rs[last..]
  }

  /** `merged` is the new interval joined with exactly the regions [first, last) it touches. */
  predicate Joins(rs: seq<Region>, added: Region, first: nat, last: nat, merged: Region) {
    && first <= last <= |rs|
    && (forall i :: 0 <= i < first ==> rs[i].end < added.begin)
    && (forall i :: first <= i < last ==>
         added.begin <= rs[i].end && merged.begin <= rs[i].begin && rs[i].end <= merged.end)
    && (forall i :: first <= i < last ==> rs[i].begin <= added.end)
    && merged.begin == (if first < last then Min(added.begin, rs[first].begin) else added.begin)
    && merged.end == (if first < last then Max(added.end, rs[last - 1].end) else added.end)
  }

  lemma ReplacedIsApart(rs: seq<Region>, added: Region, first: nat, last: nat, merged: Region)
    requires Apart(rs) && added.begin < added.end && Joins(rs, added, first, last, merged)
    requires last < |rs| ==> merged.end < rs[last].begin
    ensures Apart(Replaced(rs, first, last, merged))
  {
    var out := Replaced(rs, first, last, merged);
    forall i | 0 <= i < |out| ensures out[i].begin < out[i].end {
      if first < i { assert out[i] == rs[last + (i - first - 1)]; }
    }
    forall i, j | 0 <= i < j < |out| ensures out[i].end < out[j].begin {
      if first < j { assert out[j] == rs[last + (j - first - 1)]; }
      if first < i { assert out[i] == rs[last + (i - first - 1)]; }
    }
  }

  /** Merging loses nothing and adds nothing: the old points and the added interval. */
  lemma ReplacedPoints(rs: seq<Region>, added: Region, first: nat, last: nat, merged: Region)
    requires Apart(rs) && added.begin < added.end && Joins(rs, added, first, last, merged)
    ensures Points(Replaced(rs, first, last, merged)) == Points(rs) + Span(added.begin, added.end)
  {
    MergedPoints(rs, added, first, last, merged);
    SwapPoints(rs[..first], rs[first..last], rs[last..], merged, Span(added.begin, added.end));
    Cut(rs, first, last);
  }

  lemma Cut(rs: seq<Region>, first: nat, last: nat)
    requires first <= last <= |rs|
    ensures rs[..first] + rs[first..last] + rs[last..] == rs
  {
  }

  lemma SwapPoints(a: seq<Region>, m: seq<Region>, z: seq<Region>, merged: Region, extra: set<int>)
    requires Span(merged.begin, merged.end) == Points(m) + extra
    ensures Points(a + [merged] + z) == Points(a + m + z) + extra
  {
    PointsConcat(a, m);
    PointsConcat(a + m, z);
    LastPoints(a, merged);
    PointsConcat(a + [merged], z);
  }

  lemma ReplacedTotal(rs: seq<Region>, first: nat, last: nat, merged: Region)
    requires first <= last <= |rs|
    ensures Total(Replaced(rs, first, last, merged)) == Total(rs) - Total(rs[first..last]) + (merged.end - merged.begin)
  {
    SwapTotal(rs[..first], rs[first..last], rs[last..], merged);
    Cut(rs, first, last);
  }

  lemma SwapTotal(a: seq<Region>, m: seq<Region>, z: seq<Region>, merged: Region)
    ensures Total(a + [merged] + z) == Total(a + m + z) - Total(m) + (merged.end - merged.begin)
  {
    TotalConcat(a, m);
    TotalConcat(a + m, z);
    TotalConcat(a, [merged]);
    TotalConcat(a + [merged], z);
    OneTotal(merged);
  }

  lemma OneTotal(r: Region)
    ensures Total([r]) == r.end - r.begin
  {
    assert [r][..0] == [];
  }

  lemma MergedPoints(rs: seq<Region>, added: Region, first: nat, last: nat, merged: Region)
    requires Apart(rs) && added.begin < added.end && Joins(rs, added, first, last, merged)
    ensures Span(merged.begin, merged.end) == Points(rs[first..last]) + Span(added.begin, added.end)
  {
    forall x
      ensures x in Span(merged.begin, merged.end) <==> x in Points(rs[first..last]) + Span(added.begin, added.end) {
      MergedPoint(rs, added, first, last, merged, x);
    }
  }

  lemma MergedPoint(rs: seq<Region>, added: Region, first: nat, last: nat, merged: Region, x: int)
    requires Apart(rs) && added.begin < added.end && Joins(rs, added, first, last, merged)
    ensures x in Span(merged.begin, merged.end) <==> x in Points(rs[first..last]) + Span(added.begin, added.end)
  {
    var m := rs[first..last];
    PointsMember(m, x);
    if merged.Has(x) && !added.Has(x) {
      NearestHas(rs, added, first, last, merged, x);
    }
    if x in Points(m) {
      var i :| 0 <= i < |m| && m[i].Has(x);
      assert m[i] == rs[first + i];
    }
  }

  /** A point of the merged region outside the added one lies in the first or the last region merged. */
  lemma NearestHas(rs: seq<Region>, added: Region, first: nat, last: nat, merged: Region, x: int)
    requires Joins(rs, added, first, last, merged) && merged.Has(x) && !added.Has(x)
    ensures first < last
    ensures var m := rs[first..last]; if x < added.begin then m[0].Has(x) else m[|m| - 1].Has(x)
  {
  }

  /** All that one merge does to the regions. */
  lemma MergeFacts(rs: seq<Region>, added: Region, first: nat, last: nat, merged: Region)
    requires Apart(rs) && added.begin < added.end && Joins(rs, added, first, last, merged)
    requires last < |rs| ==> merged.end < rs[last].begin
    ensures var out := Replaced(rs, first, last, merged);
            && Apart(out) && Points(out) == Points(rs) + Span(added.begin, added.end)
            && |Points(out)| == |Points(rs)| - Total(rs[first..last]) + (merged.end - merged.begin)
            && |Points(rs)| <= |Points(out)|
  {
    var out := Replaced(rs, first, last, merged);
    ReplacedIsApart(rs, added, first, last, merged);
    ReplacedPoints(rs, added, first, last, merged);
    ReplacedTotal(rs, first, last, merged);
    TotalIsSize(rs);
    TotalIsSize(out);
    SubsetSize(Points(rs), Points(out));
  }

  lemma JoinOne(rs: seq<Region>, added: Region, first: nat, last: nat, merged: Region)
    requires Apart(rs) && added.begin < added.end && Joins(rs, added, first, last, merged)
    requires last < |rs| && rs[last].begin <= merged.end && (first == last ==> added.begin <= rs[last].end)
    ensures Joins(rs, added, first, last + 1,
                  Region(Min(merged.begin, rs[last].begin), Max(merged.end, rs[last].end)))
  {
    if first < last { assert rs[last - 1].end < rs[last].begin && rs[first].begin < rs[last].begin; }
  }

  /** Some region overlaps the added one, or lies directly beside it. */
  predicate Touched(rs: seq<Region>, added: Region) {
    exists i :: 0 <= i < |rs| && rs[i].begin <= added.end && added.begin <= rs[i].end
  }

  /** The joining loop finds something exactly when something touches. */
  lemma JoinsTouched(rs: seq<Region>, added: Region, first: nat, last: nat, merged: Region)
    requires Apart(rs) && Joins(rs, added, first, last, merged)
    requires last < |rs| ==> merged.end < rs[last].begin
    ensures first < last <==> Touched(rs, added)
  {
    if first < last { assert rs[first].begin <= added.end && added.begin <= rs[first].end; }
  }

  class ReadCoverage {
    const regions: array<Region>
    var size: nat
    var acceptedUniqueFrames: int
    var complete: bool
    /** Every LBA of every accepted observation so far, kept or not. */
    ghost var accepted: set<int>

    ghost predicate Shape()
      reads this, regions
    {
      regions.Length == CAPACITY && size <= CAPACITY
    }

    ghost function Kept(): seq<Region>
      requires Shape()
      reads this, regions
    {
      regions[..size]
    }

    /** Sorted, apart and within the int32 range; the count is exact while complete, and a lower bound for ever. */
    ghost predicate Valid()
      reads this, regions
    {
      && Shape() && Apart(Kept())
      && acceptedUniqueFrames == |Points(Kept())|
      && (if complete then Points(Kept()) == accepted else Points(Kept()) <= accepted)
    }

    lemma CountIsLowerBound()
      requires Valid()
      ensures acceptedUniqueFrames <= |accepted|
      ensures complete ==> acceptedUniqueFrames == |accepted|
    {
      SubsetSize(Points(Kept()), accepted);
    }

    constructor ()
      ensures Valid() && fresh(regions) && complete && accepted == {} && acceptedUniqueFrames == 0
    {
      regions := new Region[CAPACITY](_ => Region(0, 0));
      size, acceptedUniqueFrames, complete, accepted := 0, 0, true, {};
    }

    method FindFirst(begin: int) returns (first: nat)
      requires Shape()
      ensures first <= size
      ensures forall i :: 0 <= i < first ==> regions[i].end < begin
      ensures first < size ==> begin <= regions[first].end
    {
      first := 0;
      while first < size && regions[first].end < begin
        invariant first <= size
        invariant forall i :: 0 <= i < first ==> regions[i].end < begin
      {
        first := first + 1;
      }
    }

    /** Grows the interval over every region it touches. */
    method JoinFrom(added: Region, first: nat) returns (last: nat, merged: Region)
      requires Shape() && Apart(Kept()) && added.begin < added.end && first <= size
      requires forall i :: 0 <= i < first ==> regions[i].end < added.begin
      requires first < size ==> added.begin <= regions[first].end
      ensures Joins(Kept(), added, first, last, merged)
      ensures last < size ==> merged.end < regions[last].begin
      ensures first < last <==> Touched(Kept(), added)
    {
      last, merged := first, added;
      while last < size && regions[last].begin <= merged.end
        invariant first <= last <= size && Joins(Kept(), added, first, last, merged)
      {
        JoinOne(Kept(), added, first, last, merged);
        merged := Region(Min(merged.begin, regions[last].begin), Max(merged.end, regions[last].end));
        last := last + 1;
      }
      JoinsTouched(Kept(), added, first, last, merged);
    }

    /** Sums the lengths that are replaced. */
    method LengthOf(first: nat, last: nat) returns (sum: int)
      requires Shape() && first <= last <= size
      ensures sum == Total(Kept()[first..last])
    {
      sum := 0;
      assert Kept()[first..first] == [];
      for i := first to last
        invariant sum == Total(Kept()[first..i])
      {
        assert Kept()[first..i + 1][..i - first] == Kept()[first..i];
        sum := sum + (regions[i].end - regions[i].begin);
      }
    }

    /** Shifts the regions from `first` on one place up. */
    method OpenSlot(first: nat)
      requires Shape() && first <= size < CAPACITY
      modifies this`size, regions
      ensures Shape() && size == old(size) + 1
      ensures regions[..first] == old(regions[..first]) && regions[first + 1..size] == old(regions[first..size])
    {
      var i := size;
      while first < i
        invariant first <= i <= size
        invariant forall j :: 0 <= j < i ==> regions[j] == old(regions[j])
        invariant forall j :: i < j <= size ==> regions[j] == old(regions[j - 1])
        modifies regions
      {
        regions[i] := regions[i - 1];
        i := i - 1;
      }
      size := size + 1;
    }

    /** Shifts the regions from `last` on down, so that one place is left after `first`. */
    method CloseSlots(first: nat, last: nat)
      requires Shape() && first < last <= size
      modifies this`size, regions
      ensures Shape() && size == old(size) - (last - first - 1)
      ensures forall j :: 0 <= j < first ==> regions[j] == old(regions[j])
      ensures forall j :: first < j < size ==> regions[j] == old(regions[j + (last - first - 1)])
    {
      var removed := last - first - 1;
      for i := last to size
        invariant forall j :: 0 <= j < first || i <= j < size ==> regions[j] == old(regions[j])
        invariant forall j :: first < j < i - removed ==> regions[j] == old(regions[j + removed])
        modifies regions
      {
        regions[i - removed] := regions[i];
      }
      size := size - removed;
    }

    /** Puts `merged` in place of the regions [first, last). */
    method Replace(first: nat, last: nat, merged: Region)
      requires Shape() && first <= last <= size && (first == last ==> size < CAPACITY)
      modifies this`size, regions
      ensures Shape() && Kept() == Replaced(old(Kept()), first, last, merged)
    {
      ghost var was := Kept();
      if first == last { OpenSlot(first); } else { CloseSlots(first, last); }
      assert regions[..first] == was[..first] && regions[first + 1..size] == was[last..];
      regions[first] := merged;
    }

    /** Records a read result; only complete successful reads count, and only if their range fits. */
    method Observe(r: ReadResult)
      requires Valid()
      modifies this, regions
      ensures Valid()
      ensures var counts := r.status == ReadOk && 0 < r.framesRequested && r.framesRead == r.framesRequested;
              accepted == if counts then old(accepted) + Span(r.startLba, r.startLba + r.framesRead) else old(accepted)
      ensures old(acceptedUniqueFrames) <= acceptedUniqueFrames && (complete ==> old(complete))
      ensures !old(complete) ==> acceptedUniqueFrames == old(acceptedUniqueFrames)
      ensures old(complete) && !complete ==>
                r.status == ReadOk && 0 < r.framesRequested && r.framesRead == r.framesRequested
      ensures old(complete) && r.status == ReadOk && 0 < r.framesRequested && r.framesRead == r.framesRequested ==>
                (complete <==> 0 <= r.startLba && r.framesRead <= MAX_I32 - r.startLba
                               && (old(size) < CAPACITY
                                  || Touched(old(Kept()), Region(r.startLba, r.startLba + r.framesRead))))
    {
      if r.status != ReadOk || r.framesRequested == 0 || r.framesRead != r.framesRequested { return; }
      var added := Region(r.startLba, r.startLba + r.framesRead);
      accepted := accepted + Span(added.begin, added.end);
      if !complete { return; }
      if r.startLba < 0 || MAX_I32 - r.startLba < r.framesRead {
        complete := false;
        return;
      }
      Merge(added);
    }

    /** Where the interval goes, and what it becomes there. */
    method Locate(added: Region) returns (first: nat, last: nat, merged: Region)
      requires Shape() && Apart(Kept()) && added.begin < added.end
      ensures Joins(Kept(), added, first, last, merged)
      ensures last < size ==> merged.end < regions[last].begin
      ensures first < last <==> Touched(Kept(), added)
    {
      first := FindFirst(added.begin);
      last, merged := JoinFrom(added, first);
    }

    method Merge(added: Region)
      requires Shape() && Apart(Kept()) && acceptedUniqueFrames == |Points(Kept())|
      requires complete && added.begin < added.end
      modifies this`size, this`acceptedUniqueFrames, this`complete, regions
      ensures Shape() && Apart(Kept()) && acceptedUniqueFrames == |Points(Kept())|
      ensures Points(Kept()) == if complete then old(Points(Kept())) + Span(added.begin, added.end)
              else old(Points(Kept()))
      ensures old(acceptedUniqueFrames) <= acceptedUniqueFrames
      ensures complete <==> old(size) < CAPACITY || Touched(old(Kept()), added)
    {
      var first, last, merged := Locate(added);
      if first == last && size == CAPACITY {
        complete := false;
        return;
      }
      Insert(added, first, last, merged);
    }

    method Insert(added: Region, first: nat, last: nat, merged: Region)
      requires Shape() && Apart(Kept()) && acceptedUniqueFrames == |Points(Kept())|
      requires added.begin < added.end && Joins(Kept(), added, first, last, merged)
      requires last < size ==> merged.end < Kept()[last].begin
      requires first == last ==> size < CAPACITY
      modifies this`size, this`acceptedUniqueFrames, regions
      ensures Shape() && Apart(Kept()) && acceptedUniqueFrames == |Points(Kept())|
      ensures Points(Kept()) == old(Points(Kept())) + Span(added.begin, added.end)
      ensures old(acceptedUniqueFrames) <= acceptedUniqueFrames
    {
      MergeFacts(Kept(), added, first, last, merged);
      ReplaceCounted(first, last, merged, Replaced(Kept(), first, last, merged));
    }

    /** Replaces regions and keeps the count of unique frames. */
    method ReplaceCounted(first: nat, last: nat, merged: Region, ghost out: seq<Region>)
      requires Shape() && first <= last <= size && (first == last ==> size < CAPACITY)
      requires out == Replaced(Kept(), first, last, merged)
      modifies this`size, this`acceptedUniqueFrames, regions
      ensures Shape() && Kept() == out
      ensures acceptedUniqueFrames ==
                old(acceptedUniqueFrames) - Total(old(Kept())[first..last]) + (merged.end - merged.begin)
    {
      var removed := LengthOf(first, last);
      acceptedUniqueFrames := acceptedUniqueFrames - removed + (merged.end - merged.begin);
      Replace(first, last, merged);
    }
  }

  lemma SubsetSize(a: set<int>, b: set<int>)
    requires a <= b
    ensures |a| <= |b|
  {
    assert b == a + (b - a);
  }
}
