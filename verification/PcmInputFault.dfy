/**
  What an exception of the clock does to an input that is used again (the
  checks at src/complete_pcm_input.cpp:174 and :199 call the clock outside
  any handler): two captures of a disc of one frame.
*/
module PcmInputFaults {
  import opened Basics
  import opened DiscTocs
  import opened CompletePcm
  import opened CddaReaders
  import opened PcmFeeds
  import opened PcmInputs

  /** The clock's readings from number `from` on: `t` wherever `good` says so, an exception elsewhere. */
  ghost predicate Reads(w: World, from: nat, t: int, good: seq<bool>) {
    forall k: nat :: k < |good| ==> w.clock(from + k) == if good[k] then Now(t) else ClockThrew
  }

  ghost predicate Readings(input: CompletePcmInput, t: int, good: seq<bool>)
    reads input`checks
  {
    Reads(input.world, input.checks, t, good)
  }

  /** A calm collecting input that stands at time `t`, before its deadline. */
  ghost predicate Ready(input: CompletePcmInput, t: int)
    reads input
  {
    input.Valid() && input.Calm() && input.state == Collecting && input.lastNow <= t < input.deadline
  }

  /** An append whose block is one chunk, with an exception behind it: all of the block is fed, none of it accepted. */
  method AppendThrows(input: CompletePcmInput, read: ReadResult, pcm: seq<Sample>, ghost t: int) returns (r: Passage)
    requires Ready(input, t) && |input.toc.tracks| == 1 && |pcm| <= CHUNK_SAMPLES && input.Fits(read, |pcm|)
    requires Readings(input, t, [true, false])
    modifies input, input.scratch
    ensures r.Thrown? && Ready(input, t) && input.Fits(read, |pcm|) && input.checks == old(input.checks) + 2
    ensures input.fed == old(input.fed) + pcm && input.accepted == old(input.accepted)
    ensures input.stray == old(input.stray) + |pcm|
  {
    TwoReadings(input, t, false);
    UptoEnd(input.fed, pcm);
    r := input.Append(input.identity, read, pcm);
  }

  /** The same append with a good clock. */
  method AppendPasses(input: CompletePcmInput, read: ReadResult, pcm: seq<Sample>, ghost t: int) returns (r: Passage)
    requires Ready(input, t) && |input.toc.tracks| == 1 && |pcm| <= CHUNK_SAMPLES && input.Fits(read, |pcm|)
    requires Readings(input, t, [true, true])
    modifies input, input.scratch
    ensures r.Passed? && Ready(input, t) && input.checks == old(input.checks) + 2
    ensures input.fed == old(input.fed) + pcm && input.accepted == old(input.accepted) + pcm
    ensures input.stray == old(input.stray)
    ensures input.nextLba == old(input.nextLba) + read.framesRead
  {
    TwoReadings(input, t, true);
    r := input.Append(input.identity, read, pcm);
  }

  lemma TwoReadings(input: CompletePcmInput, t: int, good: bool)
    requires Readings(input, t, [true, good])
    ensures input.world.clock(input.checks) == Now(t)
    ensures input.world.clock(input.checks + 1) == if good then Now(t) else ClockThrew
  {
    var readings := [true, good];
    assert input.world.clock(input.checks + 0) == if readings[0] then Now(t) else ClockThrew;
    assert input.world.clock(input.checks + 1) == if readings[1] then Now(t) else ClockThrew;
  }

  /**
    On a disc of one track, whenever the clock throws behind the only chunk of a block: the input still collects and its
    cursor has not moved. The block appended again is taken, and the consumer has been handed its bytes twice.
  */
  method RetryRepeats(input: CompletePcmInput, read: ReadResult, pcm: seq<Sample>, ghost t: int)
      returns (first: Passage, second: Passage)
    requires Ready(input, t) && |input.toc.tracks| == 1 && |pcm| <= CHUNK_SAMPLES && input.Fits(read, |pcm|)
    requires Readings(input, t, [true, false, true, true])
    modifies input, input.scratch
    ensures first.Thrown? && second.Passed? && input.Valid() && input.state == Collecting
    ensures input.fed == old(input.fed) + pcm + pcm && input.accepted == old(input.accepted) + pcm
    ensures !HandsOver(input.toc, input.log, input.accepted)
  {
    LaterReadings(input.world, input.checks, t);
    first := AppendThrows(input, read, pcm, t);
    second := AppendPasses(input, read, pcm, t);
    input.ExactIff();
  }

  /** Four readings are two, and two more. */
  lemma LaterReadings(w: World, from: nat, t: int)
    requires Reads(w, from, t, [true, false, true, true])
    ensures Reads(w, from, t, [true, false]) && Reads(w, from + 2, t, [true, true])
  {
    var good, later := [true, false, true, true], [true, true];
    forall k: nat | k < 2 ensures w.clock(from + 2 + k) == if later[k] then Now(t) else ClockThrew {
      assert w.clock(from + (2 + k)) == if good[2 + k] then Now(t) else ClockThrew;
    }
    forall k: nat | k < 2 ensures w.clock(from + k) == if [true, false][k] then Now(t) else ClockThrew {
      assert w.clock(from + k) == if good[k] then Now(t) else ClockThrew;
    }
  }

  // ---------------------------------------------------------------- finalizing twice

  predicate UsableManifest(manifest: seq<Byte>, limit: int) { 0 < |manifest| <= limit }

  /** The clock throws behind the finalization; a second prepare finalizes again, and prepares. */
  method PrepareTwice(input: CompletePcmInput, ghost t: int) returns (first: Passage, second: Passage)
    requires Ready(input, t) && input.nextLba == input.toc.leadoutLba && Readings(input, t, [true, false, true, true])
    requires forall k :: UsableManifest(input.world.callback(k).result, input.identity.profile.maximumResultBytes)
    modifies input
    ensures first.Thrown? && second.Passed? && input.Valid() && input.state == Prepared
    ensures input.log == old(input.log) + [Finalize, Finalize]
  {
    LaterReadings(input.world, input.checks, t);
    first := PrepareThrows(input, t);
    second := PreparePasses(input, t);
  }

  method PrepareThrows(input: CompletePcmInput, ghost t: int) returns (r: Passage)
    requires Ready(input, t) && input.nextLba == input.toc.leadoutLba && Readings(input, t, [true, false])
    modifies input
    ensures r.Thrown? && Ready(input, t) && input.checks == old(input.checks) + 2 && input.nextLba == old(input.nextLba)
    ensures input.log == old(input.log) + [Finalize]
  {
    TwoReadings(input, t, false);
    r := input.Prepare(input.identity);
  }

  method PreparePasses(input: CompletePcmInput, ghost t: int) returns (r: Passage)
    requires Ready(input, t) && input.nextLba == input.toc.leadoutLba && Readings(input, t, [true, true])
    requires UsableManifest(input.world.callback(input.callbacks).result, input.identity.profile.maximumResultBytes)
    modifies input
    ensures r.Passed? && input.Valid() && input.state == Prepared && input.log == old(input.log) + [Finalize]
  {
    TwoReadings(input, t, true);
    r := input.Prepare(input.identity);
  }

  // ---------------------------------------------------------------- such inputs exist

  const PROFILE := Profile(CANONICAL, "a", "v", 0, 1)
  const READ := ReadResult(0, 1, 1, ReadOk, 0, 0, NO_EVENTS, NO_VERIFICATION, CachePossible, C2NotChecked,
                           Some(OffsetEvidence(0, None)))

  predicate OneFrame(plan: Plan) {
    && |plan.toc.tracks| == 1 && FirstLba(plan.toc) == 0 && plan.toc.leadoutLba == 1
    && plan.policy.mode == Single && plan.identity.profile.maximumResultBytes == 1 && 0 < plan.duration
  }

  /** A plan for a disc of one frame. */
  method OneFramePlan() returns (plan: Plan)
    ensures Eligible(plan, plan.identity.profile, 0) && OneFrame(plan)
  {
    plan := Plan(DiscToc([Track(1, 0, 1)], 1), Identity("s", 1, 1, 1, 0, Some(0), PROFILE, 0),
                 ReadPolicy(Single, 15, 2, 2, 1), 1);
    MemoryLimitNeverBinds(plan.policy, PROFILE);
  }

  /** A calm consumer, and a clock that throws at one call only. */
  function ThrowsAt(profile: Profile, bad: nat): World {
    World(k => if k == bad then ClockThrew else Now(0), _ => profile, _ => Callback([], false, [0]))
  }

  method MakeFaulty(bad: nat) returns (input: CompletePcmInput)
    ensures fresh(input) && fresh(input.scratch) && Ready(input, 0) && |input.toc.tracks| == 1
    ensures input.world == ThrowsAt(input.identity.profile, bad) && input.identity.profile.maximumResultBytes == 1
    ensures input.toc.leadoutLba == 1 && input.nextLba == 0 && input.checks == 0
    ensures input.Fits(READ, 1176) && input.accepted == input.fed == []
  {
    var plan := OneFramePlan();
    input := new CompletePcmInput(plan, plan.identity.profile, ThrowsAt(plan.identity.profile, bad), 0);
  }

  /** A capture of a disc of one frame, appended twice. */
  method FedTwice() returns (input: CompletePcmInput, first: Passage, second: Passage)
    ensures first.Thrown? && second.Passed? && input.Valid() && input.state == Collecting
    ensures |input.accepted| == 1176 && |input.fed| == 2 * 1176 && !HandsOver(input.toc, input.log, input.accepted)
  {
    input := MakeFaulty(1);
    first, second := RetryRepeats(input, READ, seq(1176, _ => 0), 0);
  }

  /** The same capture with a good clock up to its first finalization, finalized twice. */
  method FinalizedTwice() returns (input: CompletePcmInput, first: Passage, second: Passage)
    ensures first.Thrown? && second.Passed? && input.Valid() && input.state == Prepared
    ensures exists k :: 0 <= k < |input.log| - 1 && input.log[k] == input.log[k + 1] == Finalize
  {
    input := MakeFaulty(3);
    var taken := AppendPasses(input, READ, seq(1176, _ => 0), 0);
    first, second := PrepareTwice(input, 0);
    assert input.log[|input.log| - 2] == input.log[|input.log| - 2 + 1] == Finalize;
  }
}
