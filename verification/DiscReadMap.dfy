/**
  The disc-scoped map of read observations (make_read_evidence and
  DiscReadMap in src/integrity_state.cpp): regions that carry sets of facts,
  merged only with regions of identical facts, in a fixed array.
*/
module DiscReadMaps {
  import opened Basics
  import opened CddaReaders

  datatype ReadJudgement = Clean | Recovered | Uncertain

  function Complete(r: ReadResult): bool { r.status == ReadOk && r.framesRead == r.framesRequested }

  /** The status part of `make_read_evidence`. */
  function Judge(r: ReadResult): ReadJudgement {
    if !Complete(r) then Uncertain
    else if (r.paranoia.fixups != 0 && r.paranoia.skips == 0)
            || (2 <= r.verification.matchingReads && r.verification.mismatches != 0)
    then Recovered
    else if r.retries != 0 || r.paranoia.skips != 0 || r.paranoia.readErrors != 0
            || r.paranoia.cacheErrors != 0
    then Uncertain
    else Clean
  }

  datatype Fact = Attempted | Accepted | Retried | Repeated | WasRecovered | WasUncertain | BackendAnomaly

  function Facts(r: ReadResult): set<Fact> {
    {Attempted}
    + (if Complete(r) then {Accepted} else {})
    + (if r.retries != 0 then {Retried} else {})
    + (if 1 < r.verification.attempts then {Repeated} else {})
    + (if Judge(r) == Recovered then {WasRecovered} else {})
    + (if Judge(r) == Uncertain then {WasUncertain} else {})
    + (if r.paranoia.fixups != 0 || r.paranoia.skips != 0 || r.paranoia.readErrors != 0 || r.paranoia.cacheErrors != 0
       then {BackendAnomaly} else {})
  }

  /** Facts never contradict each other: only complete reads are recovered, and no read is both. */
  lemma FactsConsistent(r: ReadResult)
    ensures WasRecovered in Facts(r) ==> Accepted in Facts(r) && WasUncertain !in Facts(r)
    ensures Accepted !in Facts(r) ==> WasUncertain in Facts(r)
    ensures Accepted in Facts(r) && WasUncertain in Facts(r) ==> Retried in Facts(r) || BackendAnomaly in Facts(r)
  {
  }

  datatype Region = Region(begin: int, end: int, facts: set<Fact>) {
    predicate Has(x: int) { begin <= x < end }

    /** Adjoining counts as touching. */
    predicate Touches(other: Region) { facts == other.facts && begin <= other.end && other.begin <= end }
  }

  const CAPACITY: nat := 256
  const MAX_REVISION: nat := 0xffff_ffff_ffff_ffff

  /** Some region holds `x` under exactly these facts. */
  ghost predicate Marked(rs: seq<Region>, facts: set<Fact>, x: int) {
    exists i :: 0 <= i < |rs| && rs[i].facts == facts && rs[i].Has(x)
  }

  /** Regions of the same facts neither overlap nor adjoin. */
  predicate Separate(rs: seq<Region>) {
    && (forall i :: 0 <= i < |rs| ==> rs[i].begin < rs[i].end)
    && (forall i, j :: 0 <= i < j < |rs| ==> !rs[i].Touches(rs[j]))
  }

  /** `rs` with `r` beside it marks what `was` with `added` beside it marks. */
  ghost predicate SameMarks(rs: seq<Region>, r: Region, was: seq<Region>, added: Region) {
    forall facts, x :: Marked(rs + [r], facts, x) <==> Marked(was + [added], facts, x)
  }

  /** Taking out region `i` by moving the last one into its place. */
  function Without(rs: seq<Region>, i: nat): seq<Region>
    requires i < |rs|
  {
    rs[i := rs[|rs| - 1]][..|rs| - 1]
  }

  lemma WithoutSeparate(rs: seq<Region>, i: nat)
    requires Separate(rs) && i < |rs|
    ensures Separate(Without(rs, i))
  {
    var out, last := Without(rs, i), |rs| - 1;
    forall a, b | 0 <= a < b < |out| ensures !out[a].Touches(out[b]) {
      assert out[a] == rs[if a == i then last else a];
      assert out[b] == rs[if b == i then last else b];
      assert !rs[if a == i then b else a].Touches(rs[if a == i || b == i then last else b]);
    }
  }

  function Join(r: Region, other: Region): Region {
    Region(Min(r.begin, other.begin), Max(r.end, other.end), r.facts)
  }

  /** Joining touching regions marks what the two marked: there is no gap to fill. */
  lemma JoinMarks(rs: seq<Region>, i: nat, r: Region, facts: set<Fact>, x: int)
    requires i < |rs| && rs[i].Touches(r) && r.begin < r.end && rs[i].begin < rs[i].end
    ensures Marked(Without(rs, i) + [Join(r, rs[i])], facts, x) <==> Marked(rs + [r], facts, x)
  {
    var before, after := rs + [r], Without(rs, i) + [Join(r, rs[i])];
    if Marked(before, facts, x) {
      var k :| 0 <= k < |before| && before[k].facts == facts && before[k].Has(x);
      if k == i || k == |rs| {
        assert after[|rs| - 1].Has(x);
      } else {
        assert after[if k == |rs| - 1 then i else k] == rs[k];
      }
    }
    if Marked(after, facts, x) {
      var k :| 0 <= k < |after| && after[k].facts == facts && after[k].Has(x);
      if k == |rs| - 1 {
        assert before[|rs|].Has(x) || before[i].Has(x);
      } else {
        assert before[if k == i then |rs| - 1 else k] == after[k];
      }
    }
  }

  /** The region an observation adds. */
  function Observed(r: ReadResult): Region { Region(r.startLba, r.startLba + r.framesRequested, Facts(r)) }

  predicate InRange(r: ReadResult) {
    && 0 <= r.startLba && 0 < r.framesRequested && r.framesRead <= r.framesRequested
    && r.framesRequested <= MAX_I32 - r.startLba
  }

  class DiscReadMap {
    const regions: array<Region>
    var size: nat
    var discGeneration: nat
    var revision: nat
    var complete: bool
    /** Every observation taken or refused for lack of room since the map was made. */
    ghost var log: seq<Region>

    ghost predicate Shape()
      reads this, regions
    {
      regions.Length == CAPACITY && size <= CAPACITY
    }

    ghost function Kept(): seq<Region>
      requires Shape()
      reads this, regions
    {
      regions[..size]
    }

    /** Per set of facts, exactly the LBAs observed with it; once frozen, a part of them. */
    ghost predicate Valid()
      reads this, regions
    {
      && Shape() && Separate(Kept())
      && (forall facts, x :: Marked(Kept(), facts, x) ==> Marked(log, facts, x))
      && (complete ==> forall facts, x :: Marked(log, facts, x) ==> Marked(Kept(), facts, x))
    }

    constructor (generation: nat)
      ensures Valid() && fresh(regions) && complete && log == [] && discGeneration == generation
    {
      regions := new Region[CAPACITY](_ => Region(0, 0, {}));
      size, discGeneration, revision, complete, log := 0, generation, 0, true, [];
    }

    /**
      Joins the added region with every kept one it touches, taking each out by moving the last into its place and
      starting over. Every restart removes a region, so the search ends.
    */
    method Absorb(added: Region) returns (merged: Region)
      requires Shape() && Separate(Kept()) && added.begin < added.end
      modifies this`size, regions
      ensures Shape() && Separate(Kept()) && size <= old(size)
      ensures merged.facts == added.facts && merged.begin < merged.end
      ensures forall j :: 0 <= j < size ==> !regions[j].Touches(merged)
      ensures SameMarks(Kept(), merged, old(Kept()), added)
      ensures size == old(size) ==> Kept() == old(Kept()) && merged == added
    {
      merged := added;
      var i := 0;
      while i < size
        invariant Shape() && Separate(Kept()) && i <= size <= old(size)
        invariant merged.facts == added.facts && merged.begin < merged.end
        invariant forall j :: 0 <= j < i ==> !regions[j].Touches(merged)
        invariant SameMarks(Kept(), merged, old(Kept()), added)
        invariant size == old(size) ==> Kept() == old(Kept()) && merged == added
        decreases size, size - i
      {
        if regions[i].Touches(merged) {
          WithoutSeparate(Kept(), i);
          JoinSameMarks(Kept(), i, merged, old(Kept()), added);
          merged := Join(merged, regions[i]);
          TakeOut(i);
          i := 0;
        } else {
          i := i + 1;
        }
      }
    }

    method TakeOut(i: nat)
      requires Shape() && i < size
      modifies this`size, regions
      ensures Shape() && size == old(size) - 1 && Kept() == Without(old(Kept()), i)
    {
      size := size - 1;
      regions[i] := regions[size];
    }

    /** One observation. Freezing for lack of room happens only when nothing merged, and forgets nothing recorded. */
    method Observe(r: ReadResult)
      requires Valid()
      modifies this, regions
      ensures Valid() && (complete ==> old(complete)) && old(revision) <= revision
      ensures forall facts, x :: old(Marked(Kept(), facts, x)) ==> Marked(Kept(), facts, x)
      ensures discGeneration == 0 || !old(complete) ==>
                size == old(size) && complete == old(complete) && log == old(log)
      ensures discGeneration == old(discGeneration)
      ensures discGeneration != 0 && old(complete) && old(revision) != MAX_REVISION && InRange(r) ==>
                log == old(log) + [Observed(r)] && revision == old(revision) + 1
      ensures complete && discGeneration != 0 ==> InRange(r)
      ensures old(complete) && !complete && old(revision) != MAX_REVISION && InRange(r) ==>
                old(size) == CAPACITY && forall j :: 0 <= j < size ==> !regions[j].Touches(Observed(r))
    {
      if discGeneration == 0 || !complete { return; }
      if revision == MAX_REVISION {
        complete := false;
        return;
      }
      revision := revision + 1;
      if r.startLba < 0 || r.framesRequested == 0 || r.framesRequested < r.framesRead
         || MAX_I32 - r.startLba < r.framesRequested {
        complete := false;
        return;
      }
      Take(Observed(r));
    }

    method Take(added: Region)
      requires Valid() && complete && added.begin < added.end
      modifies this`size, this`complete, this`log, regions
      ensures Valid() && log == old(log) + [added]
      ensures forall facts, x :: old(Marked(Kept(), facts, x)) ==> Marked(Kept(), facts, x)
      ensures !complete ==> old(size) == CAPACITY && forall j :: 0 <= j < size ==> !regions[j].Touches(added)
    {
      var merged := Absorb(added);
      MarksGrow(log, added);
      MarksGrow(old(Kept()), added);
      MarksGrow(Kept(), merged);
      log := log + [added];
      if size == CAPACITY {
        complete := false;
        return;
      }
      ghost var kept := Kept();
      regions[size] := merged;
      size := size + 1;
      assert Kept() == kept + [merged];
    }
  }

  lemma JoinSameMarks(rs: seq<Region>, i: nat, r: Region, was: seq<Region>, added: Region)
    requires SameMarks(rs, r, was, added)
    requires i < |rs| && rs[i].Touches(r) && r.begin < r.end && rs[i].begin < rs[i].end
    ensures SameMarks(Without(rs, i), Join(r, rs[i]), was, added)
  {
    forall facts, x
      ensures Marked(Without(rs, i) + [Join(r, rs[i])], facts, x) <==> Marked(was + [added], facts, x)
    {
      JoinMarks(rs, i, r, facts, x);
    }
  }

  /** One more region marks its own points besides. */
  lemma MarksGrow(rs: seq<Region>, r: Region)
    ensures forall facts, x :: Marked(rs + [r], facts, x) <==> Marked(rs, facts, x) || (facts == r.facts && r.Has(x))
  {
    forall facts, x
      ensures Marked(rs + [r], facts, x) <==> Marked(rs, facts, x) || (facts == r.facts && r.Has(x))
    {
      if Marked(rs, facts, x) {
        var k :| 0 <= k < |rs| && rs[k].facts == facts && rs[k].Has(x);
        assert (rs + [r])[k] == rs[k];
      }
      if facts == r.facts && r.Has(x) { assert (rs + [r])[|rs|].Has(x); }
    }
  }
}
