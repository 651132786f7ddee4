/**
  The input model of a complete-PCM capture (src/complete_pcm_input.cpp): it
  checks every block's evidence, cuts the PCM at track boundaries and feeds a
  consumer whose callbacks may call back into it or throw, while the clock it
  reads between the chunks may throw as well.
*/
module PcmInputs {
  import opened Basics
  import opened DiscTocs
  import opened CompletePcm
  import opened CddaReaders
  import opened PcmFeeds

  datatype Failure =
    | NoFailure | Cancelled | ContextChanged | ClockRegressed | Deadline | ReadFailed | InvalidBlock
    | VerificationFailed | ConsumerFailed | ResultLimit | Unfinished | TocChanged | ReentrantCall

  /** What a consumer callback may do to the input that called it: every other public call begins with `check`. */
  datatype Reentry = ReCancel | ReInvalidate | ReCheck(current: Identity)

  const CANONICAL := "s16le-44100-stereo-v1"
  const MEMORY_LIMIT: int := 8 * 1024 * 1024
  const CONSUMER_LIMIT: int := 1024 * 1024
  const NS_PER_MS: int := 1_000_000
  const DEADLINE_LIMIT_MS: int := 3 * 3600 * 1000
  const CHUNK_SAMPLES: nat := 8192
  const BUFFER_FRAMES: nat := 75

  // ---------------------------------------------------------------- what a plan must satisfy

  predicate ValidName(s: string) { 0 < |s| <= 128 }

  function Repeated(policy: ReadPolicy): RepeatPolicy {
    RepeatPolicy(policy.requiredMatches, policy.maximumAttempts, policy.timeBudgetMs, DEFAULT_OVERLAP_FRAMES)
  }

  predicate ValidReadPolicy(policy: ReadPolicy, bufferFrames: nat) {
    && 15 <= policy.regionFrames <= bufferFrames && policy.regionFrames % 15 == 0
    && ValidRepeatPolicy(Repeated(policy))
  }

  /** Bytes reserved for a capture, or nothing when the budget does not allow it. */
  function Reservation(policy: ReadPolicy, profile: Profile): Option<nat> {
    if CONSUMER_LIMIT < profile.stateBytes || profile.maximumResultBytes == 0
       || RESULT_LIMIT < profile.maximumResultBytes then None
    else if !ValidReadPolicy(policy, BUFFER_FRAMES) then None
    else
      var bytes := (policy.maximumAttempts + 2) * (policy.regionFrames + BUFFER_FRAMES + 1) * 2352
                   + CHUNK_BYTES + profile.stateBytes + 2 * RESULT_LIMIT;
      if MEMORY_LIMIT < bytes then None else Some(bytes)
  }

  /** The 8 MiB limit never refuses a plan: the other limits already keep every reservation below it. */
  lemma MemoryLimitNeverBinds(policy: ReadPolicy, profile: Profile)
    ensures Reservation(policy, profile).Some? <==>
              && profile.stateBytes <= CONSUMER_LIMIT && 0 < profile.maximumResultBytes <= RESULT_LIMIT
              && ValidReadPolicy(policy, BUFFER_FRAMES)
  {
    if ValidReadPolicy(policy, BUFFER_FRAMES) {
      var a, f := policy.maximumAttempts + 2, policy.regionFrames + BUFFER_FRAMES + 1;
      assert a * f <= 10 * 151 by {
        assert a * f <= 10 * f;
      }
    }
  }

  predicate EligibleIdentity(id: Identity, consumer: Profile) {
    && ValidName(id.sessionId) && id.jobId != 0 && id.discGeneration != 0 && id.readerIncarnation != 0
    && id.offsetSamples == Some(0)
    && id.profile.canonical == CANONICAL && ValidName(id.profile.algorithm) && ValidName(id.profile.version)
    && id.profile == consumer
  }

  predicate Eligible(plan: Plan, consumer: Profile, now: int) {
    && EligibleIdentity(plan.identity, consumer)
    && 0 < plan.duration <= DEADLINE_LIMIT_MS
    && WellFormed(plan.toc)
    && Reservation(plan.policy, plan.identity.profile).Some?
    && now <= MAX_I64 - plan.duration * NS_PER_MS
  }

  // ---------------------------------------------------------------- the evidence of one block

  /** The shape of a block (src/complete_pcm_input.cpp:119-127). */
  predicate BlockFits(policy: ReadPolicy, nextLba: int, leadout: int, read: ReadResult, samples: nat) {
    && 0 < read.framesRequested <= BlockFrames(policy) && read.framesRead == read.framesRequested
    && read.startLba == nextLba && read.framesRead <= leadout - nextLba
    && samples == read.framesRead * 1176
    && read.offset.Some? && read.offset.value.samples == 0
  }

  function RequestedOverlap(policy: ReadPolicy): nat {
    if policy.mode == Repeat then DEFAULT_OVERLAP_FRAMES else 0
  }

  function ComparedOverlap(policy: ReadPolicy, preceding: nat): nat {
    if RequestedOverlap(policy) < preceding then RequestedOverlap(policy) else preceding
  }

  function ExpectedOverlap(policy: ReadPolicy, preceding: nat): Overlap {
    if RequestedOverlap(policy) == 0 then NotRequested
    else if 0 < ComparedOverlap(policy, preceding) then Matched else StreamBoundary
  }

  /** The verification evidence of a block (src/complete_pcm_input.cpp:128-146). */
  predicate Verified(policy: ReadPolicy, preceding: nat, v: Verification) {
    && !v.timeBudgetExhausted
    && v.overlap == ExpectedOverlap(policy, preceding)
    && v.overlapRequested == RequestedOverlap(policy)
    && v.overlapCompared == ComparedOverlap(policy, preceding)
    && (policy.mode == Single ==> v.attempts == 0)
    && (policy.mode == Repeat ==>
          && v.attempts <= policy.maximumAttempts && |v.details| == v.attempts
          && policy.requiredMatches <= v.matchingReads <= v.completeReads <= v.attempts
          && v.acceptedAttempt.Some? && v.acceptedCandidate.Some?
          && 1 <= v.acceptedAttempt.value <= v.attempts
          && 1 <= v.acceptedCandidate.value <= v.completeReads)
  }

  /** Why a block is refused, if it is; the checks are made in this order. */
  function Refusal(sealed: bool, policy: ReadPolicy, nextLba: int, leadout: int, preceding: nat, read: ReadResult,
                   samples: nat): (r: Failure)
    ensures r == NoFailure <==> !sealed && Admissible(policy, nextLba, leadout, preceding, read, samples)
  {
    if sealed then InvalidBlock
    else if read.status != ReadOk then ReadFailed
    else if !BlockFits(policy, nextLba, leadout, read, samples) then InvalidBlock
    else if !Verified(policy, preceding, read.verification) then VerificationFailed
    else NoFailure
  }

  /** All that `append` demands of a block in front of `nextLba`. */
  predicate Admissible(policy: ReadPolicy, nextLba: int, leadout: int, preceding: nat, read: ReadResult, samples: nat) {
    && read.status == ReadOk
    && BlockFits(policy, nextLba, leadout, read, samples)
    && Verified(policy, preceding, read.verification)
  }

  /** The failures a block itself can cause, as against the caller, the clock or the consumer. */
  predicate OfBlock(f: Failure) { f == ReadFailed || f == InvalidBlock || f == VerificationFailed }

  /** States only move forward: collecting, prepared, complete; or down to incomplete, then invalid. */
  predicate Later(a: InputState, b: InputState) {
    match a
    case Collecting => true
    case Prepared => b != Collecting
    case Complete => b == Complete || b == Invalid
    case Incomplete => b == Incomplete || b == Invalid
    case Invalid => b == Invalid
  }

  /** The arithmetic of a cut. */
  lemma CutFits(toc: DiscToc, i: nat, nextLba: int, offset: nat, total: nat)
    requires i < |toc.tracks| && offset < total && offset % 2 == 0 && total % 2 == 0
    requires var position := nextLba * STEREO_PER_FRAME + offset / 2;
             toc.tracks[i].startLba * STEREO_PER_FRAME <= position < toc.tracks[i].EndLba() * STEREO_PER_FRAME
    ensures var toEnd := (toc.tracks[i].EndLba() * STEREO_PER_FRAME - (nextLba * STEREO_PER_FRAME + offset / 2)) * 2;
            var count := Min(total - offset, Min(toEnd, CHUNK_SAMPLES));
            && toEnd == toc.tracks[i].EndLba() * SAMPLES_PER_FRAME - (nextLba * SAMPLES_PER_FRAME + offset)
            && 0 < count <= total - offset && CutAt(toc, i, nextLba * SAMPLES_PER_FRAME + offset, count)
            && (offset + count) % 2 == 0
  {
  }

  /** A block of whole frames in front of the lead-out. */
  lemma BlockIsWhole(nextLba: int, leadout: int, frames: nat, samples: nat)
    requires samples == frames * 1176 && frames <= leadout - nextLba
    ensures samples % 2 == 0 && nextLba * SAMPLES_PER_FRAME + samples <= leadout * SAMPLES_PER_FRAME
  {
    assert samples == 2 * (588 * frames);
  }

  /** `before`, and the first `n` samples of a block. */
  function Upto(before: seq<Sample>, pcm: seq<Sample>, n: nat): (all: seq<Sample>)
    requires n <= |pcm|
    ensures |all| == |before| + n
  {
    if n == 0 then before else Upto(before, pcm, n - 1) + [pcm[n - 1]]
  }

  lemma {:induction false} UptoIsPrefix(before: seq<Sample>, pcm: seq<Sample>, n: nat)
    requires n <= |pcm|
    ensures Upto(before, pcm, n) == before + pcm[..n]
  {
    if n == 0 {
      assert before + pcm[..n] == before;
    } else {
      UptoIsPrefix(before, pcm, n - 1);
      assert pcm[..n] == pcm[..n - 1] + [pcm[n - 1]];
    }
  }

  /** A whole block. */
  lemma UptoEnd(before: seq<Sample>, pcm: seq<Sample>)
    ensures Upto(before, pcm, |pcm|) == before + pcm
  {
    UptoIsPrefix(before, pcm, |pcm|);
    assert pcm[..|pcm|] == pcm;
  }

  lemma UptoGrows(before: seq<Sample>, pcm: seq<Sample>, offset: nat, next: nat)
    requires offset <= next <= |pcm|
    ensures Upto(before, pcm, offset) + pcm[offset..next] == Upto(before, pcm, next)
  {
    UptoIsPrefix(before, pcm, offset);
    UptoIsPrefix(before, pcm, next);
    assert pcm[..offset] + pcm[offset..next] == pcm[..next];
  }

  /** How a call that begins with `check` ends: it goes on, it is refused, or the clock's exception leaves it. */
  datatype Passage = Passed | Refused | Thrown

  /** What one reading of the clock means; the deadline no longer binds once complete. */
  function Reading(c: ClockRead, lastNow: int, deadline: int, complete: bool): Passage {
    match c
    case ClockThrew => Thrown
    case Now(t) => if t < lastNow || (!complete && deadline <= t) then Refused else Passed
  }

  /** A reading that ends the work on a block. */
  predicate BadReading(c: ClockRead, lastNow: int, deadline: int) {
    c.ClockThrew? || c.t < lastNow || deadline <= c.t
  }

  /** What the consumer does when called: calls back, and then returns a result or throws. */
  datatype Callback = Callback(script: seq<Reentry>, threw: bool, result: seq<Byte>)

  /** Everything around an input: what its clock and its consumer answer, by the number of the call. */
  datatype World = World(clock: nat -> ClockRead, profile: nat -> Profile, callback: nat -> Callback)

  /** An input's books before an append. */
  datatype Ledger = Ledger(fits: bool, nextLba: int, precedingFrames: nat, accepted: seq<Sample>, fed: seq<Sample>,
                           stray: nat)

  class CompletePcmInput {
    const toc: DiscToc
    const identity: Identity
    const policy: ReadPolicy
    const deadline: int
    const reservedBytes: nat
    const scratch: array<Byte>
    const world: World
    var lastNow: int
    var state: InputState
    var failure: Failure
    var nextLba: int
    var precedingFrames: nat
    var inCallback: bool
    var discarded: bool
    var result: seq<Byte>
    /** Calls made so far to the clock and to the consumer. */
    var checks: nat
    var callbacks: nat
    /**
      Every call the consumer received, those before any discard, the pieces handed over by them and their samples, and
      the samples of the blocks taken.
    */
    ghost var log: seq<Call>
    ghost var body: seq<Call>
    ghost var feed: seq<Piece>
    ghost var fed: seq<Sample>
    ghost var accepted: seq<Sample>
    /** Samples fed of the block being appended, and of all blocks whose append an exception of the clock left. */
    ghost var ahead: nat
    ghost var stray: nat
    /** Finalizations so far, and those whose prepare an exception of the clock left. */
    ghost var finals: nat
    ghost var unkept: nat

    /** Nothing follows a discard. */
    ghost predicate LogOk()
      reads this`log, this`body, this`discarded
    {
      log == body + if discarded then [Discard] else []
    }

    /** The calls before it come in order; without strays they are a proper feed. */
    ghost predicate FedOk()
      reads this`body, this`feed, this`fed, this`accepted, this`ahead, this`stray, this`finals
    {
      && InTracks(toc, feed) && body == CallLog(toc, feed, finals, false)
      && fed == Joined(feed) && |fed| == |accepted| + stray + ahead
      && (stray == 0 ==> WellFed(toc, feed))
    }

    ghost predicate StateOk()
      reads this`nextLba, this`accepted, this`state, this`ahead, this`finals, this`unkept, this`result, this`failure
    {
      && scratch.Length == CHUNK_BYTES
      && FirstLba(toc) <= nextLba <= toc.leadoutLba
      && |accepted| == (nextLba - FirstLba(toc)) * 1176
      && (state == Prepared || state == Complete ==>
            && nextLba == toc.leadoutLba && ahead == 0 && finals == unkept + 1
            && 0 < |result| <= identity.profile.maximumResultBytes)
      && (state != Prepared && state != Complete ==> result == [])
      && (state == Collecting && finals != 0 ==> nextLba == toc.leadoutLba)
      && (!Terminal(state) ==> failure == NoFailure)
    }

    /** Between callbacks: discarded exactly when terminal, `ahead` samples into the next block. */
    ghost predicate Outside()
      reads this
    {
      LogOk() && StateOk() && !inCallback && (discarded <==> Terminal(state))
    }

    /** While the consumer runs: nothing is discarded yet. */
    ghost predicate Inside()
      reads this
    {
      LogOk() && StateOk() && inCallback && !discarded && state != Prepared && state != Complete
    }

    ghost predicate Valid()
      reads this
    {
      && WellFormed(toc) && Outside() && FedOk() && (state == Collecting ==> finals == unkept)
      && (!Terminal(state) ==> ahead == 0 && (stray == 0 ==> accepted == fed))
    }

    /** The consumer neither calls back nor throws nor changes its profile. */
    ghost predicate Calm() {
      && (forall k :: world.callback(k).script == [] && !world.callback(k).threw)
      && (forall k :: world.profile(k) == identity.profile)
    }

    /** What `check` makes of a call. */
    ghost function Verdict(current: Identity): Passage
      reads this
    {
      if inCallback || Terminal(state) || current != identity || world.profile(checks) != identity.profile then Refused
      else Reading(world.clock(checks), lastNow, deadline, state == Complete)
    }

    /**
      Until a capture fails, each track's bytes in the log are exactly its accepted frames, unless an exception of the
      clock left an append that had fed some of its block.
    */
    lemma ExactIff()
      requires Valid() && !Terminal(state)
      ensures HandsOver(toc, log, accepted) <==> stray == 0
    {
      assert log == body;
      forall i: nat | i < |toc.tracks|
        ensures BytesOf(log, toc.tracks[i].number) == BytesOf(Calls(toc, feed), toc.tracks[i].number)
      {
        LogBytes(toc, feed, finals, false, toc.tracks[i].number);
      }
      if HandsOver(toc, log, accepted) {
        HandedLength(toc, feed, accepted);
      }
      if stray == 0 {
        forall i: nat | i < |toc.tracks|
          ensures BytesOf(Calls(toc, feed), toc.tracks[i].number) == Encode(TrackPcm(toc, i, accepted))
        {
          FeedPerTrack(toc, feed, i);
        }
      }
    }

    /** In bytes: 2352 for each of the track's accepted frames, and all of them once complete. */
    lemma TrackIsExact(i: nat)
      requires Valid() && !Terminal(state) && stray == 0 && i < |toc.tracks|
      ensures accepted == fed && BytesOf(log, toc.tracks[i].number) == Encode(TrackPcm(toc, i, accepted))
      ensures |BytesOf(log, toc.tracks[i].number)| == 2352 * TrackFrames(toc, i, nextLba)
      ensures state == Complete ==> TrackFrames(toc, i, nextLba) == toc.tracks[i].lengthFrames
    {
      assert log == body;
      FeedPerTrack(toc, feed, i);
      TrackBytes(toc, feed, i, nextLba);
      LogBytes(toc, feed, finals, false, toc.tracks[i].number);
      StartsIncrease(toc, 0, i);
    }

    /** A capture was finalized once exactly if no exception of the clock left a prepare that had finalized. */
    lemma FinalizedOnceIff()
      requires Valid() && (state == Prepared || state == Complete)
      ensures (forall j, k :: 0 <= j < |log| && 0 <= k < |log| && log[j] == log[k] == Finalize ==> j == k) <==>
                unkept == 0
    {
      EndsAt(toc, feed, finals, false);
      if unkept != 0 { assert log[|feed|] == log[|feed| + 1] == Finalize; }
    }

    constructor (plan: Plan, consumer: Profile, w: World, now: int)
      requires Eligible(plan, consumer, now)
      ensures Valid() && fresh(scratch) && state == Collecting && feed == [] && log == [] && accepted == []
      ensures toc == plan.toc && identity == plan.identity && policy == plan.policy && nextLba == FirstLba(toc)
      ensures precedingFrames == 0 && stray == unkept == 0 && world == w && checks == 0
      ensures lastNow == now && deadline == now + plan.duration * NS_PER_MS
    {
      toc, identity, policy, world := plan.toc, plan.identity, plan.policy, w;
      deadline := now + plan.duration * NS_PER_MS;
      reservedBytes := Reservation(plan.policy, plan.identity.profile).value;
      scratch := new Byte[CHUNK_BYTES](_ => 0);
      lastNow, state, failure, nextLba := now, Collecting, NoFailure, plan.toc.tracks[0].startLba;
      precedingFrames, inCallback, discarded, result := 0, false, false, [];
      checks, callbacks := 0, 0;
      log, body, feed, fed, accepted := [], [], [], [], [];
      ahead, stray, finals, unkept := 0, 0, 0, 0;
      StartsIncrease(plan.toc, 0, 0);
      EmptyLog(plan.toc);
    }

    // -------------------------------------------------------------- failing and discarding

    method DiscardIfTerminal()
      requires LogOk()
      modifies this`discarded, this`log
      ensures LogOk() && old(log) <= log
      ensures discarded == (old(discarded) || (!inCallback && Terminal(state)))
      ensures discarded == old(discarded) ==> log == old(log)
    {
      if !inCallback && !discarded && Terminal(state) {
        discarded := true;
        log := log + [Discard];
      }
    }

    method Fail(to: InputState, reason: Failure)
      requires LogOk() && StateOk() && Terminal(to)
      modifies this`state, this`failure, this`result, this`discarded, this`log
      ensures LogOk() && StateOk() && old(log) <= log
      ensures state == to && failure == reason && discarded == (old(discarded) || !inCallback)
    {
      state, failure, result := to, reason, [];
      DiscardIfTerminal();
    }

    method Cancel()
      requires Outside() || Inside()
      modifies this`state, this`failure, this`result, this`discarded, this`log
      ensures if inCallback then Inside() else Outside()
      ensures Later(old(state), state) && state != Collecting && state != Prepared && old(log) <= log
      ensures failure == if old(state) == Collecting || old(state) == Prepared then Cancelled else old(failure)
    {
      if state == Collecting || state == Prepared {
        Fail(Incomplete, Cancelled);
      }
    }

    method Invalidate()
      requires Outside() || Inside()
      modifies this`state, this`failure, this`result, this`discarded, this`log
      ensures if inCallback then Inside() else Outside()
      ensures state == Invalid && failure == ContextChanged && old(log) <= log
    {
      Fail(Invalid, ContextChanged);
    }

    /** The state a refusal leaves, and its reason. */
    ghost predicate Ended(reason: Failure)
      reads this`state, this`failure
    {
      failure == reason && state == if reason == Deadline then Incomplete else Invalid
    }

    /** Why `check` refuses a call that is not terminal already; the reasons are tried in this order. */
    ghost function Objection(current: Identity): Failure
      reads this
    {
      if inCallback then ReentrantCall
      else if current != identity || world.profile(checks) != identity.profile then ContextChanged
      else if world.clock(checks).Now? && world.clock(checks).t < lastNow then ClockRegressed
      else Deadline
    }

    /** The clock's part of the prologue. */
    method CheckClock() returns (r: Passage)
      requires Outside() && !Terminal(state)
      modifies this`state, this`failure, this`result, this`discarded, this`log, this`lastNow, this`checks
      ensures Outside() && Later(old(state), state) && old(log) <= log && checks == old(checks) + 1
      ensures r == Reading(world.clock(old(checks)), old(lastNow), deadline, old(state) == Complete)
      ensures r.Refused? ==> Ended(if world.clock(old(checks)).t < old(lastNow) then ClockRegressed else Deadline)
      ensures r.Refused? ==> BadReading(world.clock(old(checks)), lastNow, deadline)
      ensures !r.Refused? ==> state == old(state) && result == old(result) && log == old(log) && failure == old(failure)
      ensures r.Passed? ==> world.clock(old(checks)) == Now(lastNow)
      ensures r.Thrown? ==> lastNow == old(lastNow)
    {
      var c := world.clock(checks);
      checks := checks + 1;
      if c.ClockThrew? { return Thrown; }
      if c.t < lastNow { Fail(Invalid, ClockRegressed); return Refused; }
      lastNow := c.t;
      if state != Complete && deadline <= c.t { Fail(Incomplete, Deadline); return Refused; }
      r := Passed;
    }

    /** The prologue outside callbacks. Only the clock can throw, and then nothing changes. */
    method CheckOutside(current: Identity) returns (r: Passage)
      requires Outside()
      modifies this`state, this`failure, this`result, this`discarded, this`log, this`lastNow, this`checks
      ensures Outside() && r == old(Verdict(current)) && Later(old(state), state) && old(log) <= log
      ensures if r.Refused? then Terminal(state) else state == old(state) && current == identity
      ensures !r.Refused? ==> !Terminal(state) && failure == old(failure) && log == old(log) && result == old(result)
      ensures r.Refused? ==> if Terminal(old(state)) then state == old(state) else Ended(old(Objection(current)))
      ensures old(checks) <= checks && (!r.Refused? ==> checks == old(checks) + 1)
      ensures (r.Passed? ==> world.clock(old(checks)) == Now(lastNow)) && (r.Thrown? ==> lastNow == old(lastNow))
      ensures Calm() && current == identity && !Terminal(old(state)) ==>
                checks == old(checks) + 1 && (r != Passed ==> BadReading(world.clock(old(checks)), lastNow, deadline))
      ensures OfBlock(failure) ==> failure == old(failure)
    {
      if Terminal(state) { return Refused; }
      if current != identity || world.profile(checks) != identity.profile { Invalidate(); return Refused; }
      r := CheckClock();
    }

    /** The prologue of every other call: identity, clock and deadline; a callback may not come back. */
    method Check(current: Identity) returns (r: Passage)
      requires Outside() || Inside()
      modifies this`state, this`failure, this`result, this`discarded, this`log, this`lastNow, this`checks
      ensures if inCallback then Inside() else Outside()
      ensures r == old(Verdict(current)) && (r.Refused? ==> Terminal(state)) && (!r.Refused? ==> state == old(state))
      ensures r.Refused? && (old(inCallback) || !Terminal(old(state))) ==> Ended(old(Objection(current)))
      ensures r.Refused? && !old(inCallback) && Terminal(old(state)) ==> state == old(state)
      ensures old(inCallback) ==> checks == old(checks) && lastNow == old(lastNow)
      ensures Later(old(state), state) && old(log) <= log
      ensures OfBlock(failure) ==> failure == old(failure)
    {
      if inCallback { Fail(Invalid, ReentrantCall); return Refused; }
      r := CheckOutside(current);
    }

    /** The prologue of a call from outside. */
    method Enter(current: Identity) returns (r: Passage)
      requires Valid()
      modifies this`state, this`failure, this`result, this`discarded, this`log, this`lastNow, this`checks
      ensures Valid() && r == old(Verdict(current)) && Later(old(state), state) && old(log) <= log
      ensures if r.Refused? then Terminal(state) else state == old(state) && current == identity
      ensures !r.Refused? ==> !Terminal(state) && failure == old(failure) && log == old(log) && result == old(result)
      ensures !r.Refused? ==> checks == old(checks) + 1
      ensures r.Passed? ==> world.clock(old(checks)) == Now(lastNow)
      ensures Calm() && current == identity && !Terminal(old(state)) && r != Passed ==> EndedByClock(old(checks))
      ensures OfBlock(failure) ==> failure == old(failure)
    {
      r := CheckOutside(current);
    }

    /** The time a device call may take, or nothing if the clock threw. */
    method CallBudget(current: Identity) returns (ms: Option<int>)
      requires Valid()
      modifies this`state, this`failure, this`result, this`discarded, this`log, this`lastNow, this`checks
      ensures Valid() && Later(old(state), state)
      ensures ms.None? <==> old(Verdict(current)) == Thrown
      ensures ms.Some? ==> 0 <= ms.value <= policy.timeBudgetMs
      ensures ms.Some? && 0 < ms.value ==> state == Collecting && lastNow + ms.value * NS_PER_MS <= deadline
      ensures old(Verdict(current)).Passed? && state == Collecting ==>
                ms.value == policy.timeBudgetMs || deadline < lastNow + (ms.value + 1) * NS_PER_MS
    {
      var r := Enter(current);
      if r.Thrown? { return None; }
      if r.Refused? || state != Collecting { return Some(0); }
      ms := Some(Min(policy.timeBudgetMs, (deadline - lastNow) / NS_PER_MS));
    }

    // -------------------------------------------------------------- the consumer's callbacks

    /** Whatever a callback does to this object before it returns or throws. */
    method Reenter() returns (c: Callback)
      requires Inside()
      modifies this`state, this`failure, this`result, this`discarded, this`log, this`lastNow, this`checks,
               this`callbacks
      ensures Inside() && Later(old(state), state) && old(log) <= log && c == world.callback(old(callbacks))
      ensures (state == Collecting ==> old(state) == Collecting) && (!Terminal(state) ==> log == old(log))
      ensures checks == old(checks) && lastNow == old(lastNow) && callbacks == old(callbacks) + 1
      ensures c.script == [] ==> state == old(state)
      ensures OfBlock(failure) ==> failure == old(failure)
    {
      c := world.callback(callbacks);
      callbacks := callbacks + 1;
      for i := 0 to |c.script|
        invariant Inside() && Later(old(state), state) && old(log) <= log
        invariant OfBlock(failure) ==> failure == old(failure)
        invariant (state == Collecting ==> old(state) == Collecting) && (!Terminal(state) ==> log == old(log))
        invariant checks == old(checks) && lastNow == old(lastNow) && callbacks == old(callbacks) + 1
        invariant c.script == [] ==> state == old(state)
      {
        match c.script[i]
        case ReCancel => Cancel();
        case ReInvalidate => Invalidate();
        case ReCheck(current) => var _ := Check(current);
      }
    }

    /** The end of a callback: back outside, and discard what failed meanwhile. */
    method LeaveCallback(threw: bool)
      requires Inside()
      modifies this`inCallback, this`state, this`failure, this`result, this`discarded, this`log
      ensures Outside() && Later(old(state), state) && old(log) <= log
      ensures threw && old(state) == Collecting ==> Terminal(state)
      ensures !threw ==> state == old(state)
      ensures state == Collecting ==> log == old(log)
      ensures OfBlock(failure) ==> failure == old(failure)
    {
      inCallback := false;
      if threw && state == Collecting {
        Fail(Incomplete, ConsumerFailed);
      } else {
        DiscardIfTerminal();
      }
    }

    /** A callback from its call to its end. */
    method RunCallback() returns (c: Callback)
      requires LogOk() && StateOk() && !discarded && state == Collecting
      modifies this`inCallback, this`state, this`failure, this`result, this`discarded, this`log, this`lastNow,
               this`checks, this`callbacks
      ensures Outside() && c == world.callback(old(callbacks)) && old(log) <= log
      ensures if state == Collecting then !c.threw && log == old(log) else Terminal(state)
      ensures checks == old(checks) && lastNow == old(lastNow) && callbacks == old(callbacks) + 1
      ensures Calm() ==> state == Collecting
      ensures OfBlock(failure) ==> failure == old(failure)
    {
      inCallback := true;
      c := Reenter();
      LeaveCallback(c.threw);
    }

    /** One piece to the consumer. */
    method Consume(track: int, bytes: seq<Byte>, ghost p: Piece)
      requires Outside() && FedOk() && state == Collecting && finals == 0
      requires PieceAt(toc, p, nextLba * SAMPLES_PER_FRAME + ahead) && Chunk(track, bytes) == ChunkOf(toc, p)
      modifies this`inCallback, this`state, this`failure, this`result, this`discarded, this`log, this`lastNow,
               this`checks, this`callbacks, this`body, this`feed, this`fed, this`ahead
      ensures Outside() && FedOk() && finals == 0 && checks == old(checks) && lastNow == old(lastNow)
      ensures fed == old(fed) + p.pcm && ahead == old(ahead) + |p.pcm|
      ensures Calm() ==> state == Collecting
      ensures OfBlock(failure) ==> failure == old(failure)
    {
      RecordPiece(Chunk(track, bytes), p);
      var c := RunCallback();
    }

    ghost method RecordPiece(c: Chunk, p: Piece)
      requires LogOk() && FedOk() && StateOk() && finals == 0 && !discarded
      requires PieceAt(toc, p, nextLba * SAMPLES_PER_FRAME + ahead) && c == ChunkOf(toc, p)
      modifies this`log, this`body, this`feed, this`fed, this`ahead
      ensures LogOk() && FedOk() && body == old(body) + [PcmFeeds.Consume(c)]
      ensures feed == old(feed) + [p] && ahead == old(ahead) + |p.pcm|
      ensures fed == old(fed) + p.pcm
    {
      FeedOne(toc, feed, p);
      feed, body := feed + [p], body + [PcmFeeds.Consume(c)];
      log, fed, ahead := body, fed + p.pcm, ahead + |p.pcm|;
    }

    // -------------------------------------------------------------- appending a block

    /** The track of a position, looked for from an earlier one. */
    method TrackOf(position: int, from: nat) returns (i: nat)
      requires WellFormed(toc) && from < |toc.tracks|
      requires toc.tracks[from].startLba * STEREO_PER_FRAME <= position < toc.leadoutLba * STEREO_PER_FRAME
      ensures from <= i < |toc.tracks|
      ensures toc.tracks[i].startLba * STEREO_PER_FRAME <= position < toc.tracks[i].EndLba() * STEREO_PER_FRAME
    {
      i := from;
      while toc.tracks[i].EndLba() * STEREO_PER_FRAME <= position
        invariant from <= i < |toc.tracks| && toc.tracks[i].startLba * STEREO_PER_FRAME <= position
        decreases |toc.tracks| - i
      {
        i := i + 1;
      }
    }

    /** Little-endian bytes of one run of samples, in the scratch buffer. */
    method FillScratch(part: seq<Sample>)
      requires scratch.Length == CHUNK_BYTES && 2 * |part| <= CHUNK_BYTES
      modifies scratch
      ensures scratch[..2 * |part|] == Encode(part)
    {
      EncodeLength([]);
      for i := 0 to |part|
        invariant scratch[..2 * i] == Encode(part[..i])
      {
        var word := Word(part[i]);
        scratch[2 * i] := word % 256;
        scratch[2 * i + 1] := word / 256;
        assert part[..i + 1][..i] == part[..i];
        assert scratch[..2 * (i + 1)] == scratch[..2 * i] + [word % 256, word / 256];
      }
      assert part[..|part|] == part;
    }

    /** Hands over one run of samples and takes stock. */
    method FeedPart(current: Identity, i: nat, part: seq<Sample>) returns (r: Passage)
      requires Outside() && FedOk() && state == Collecting && finals == 0
      requires PieceAt(toc, Piece(i, part), nextLba * SAMPLES_PER_FRAME + ahead)
      modifies this`inCallback, this`state, this`failure, this`result, this`discarded, this`log, this`lastNow,
               this`checks, this`callbacks, this`body, this`feed, this`fed, this`ahead, scratch
      ensures Outside() && FedOk() && finals == 0
      ensures fed == old(fed) + part && ahead == old(ahead) + |part|
      ensures if r.Refused? then Terminal(state) else state == Collecting
      ensures Calm() && current == identity ==> CalmTurn(r, old(checks), old(lastNow))
      ensures OfBlock(failure) ==> failure == old(failure)
      ensures old(checks) <= checks
    {
      FillScratch(part);
      Consume(toc.tracks[i].number, scratch[..2 * |part|], Piece(i, part));
      r := CheckOutside(current);
    }

    /** A chunk's turn with a calm consumer: one more reading of the clock decides it. */
    ghost predicate CalmTurn(r: Passage, before: nat, lastBefore: int)
      reads this`checks, this`lastNow
    {
      && checks == before + 1 && r == Reading(world.clock(before), lastBefore, deadline, false)
      && (r != Passed ==> BadReading(world.clock(before), lastNow, deadline))
      && (r.Passed? ==> world.clock(before) == Now(lastNow)) && (r.Thrown? ==> lastNow == lastBefore)
    }

    /** The next cut of a block of `total` samples: as far as the block, the track and the chunk size allow. */
    method NextCut(offset: nat, total: nat, from: nat) returns (i: nat, count: nat)
      requires WellFormed(toc) && from < |toc.tracks| && offset < total && offset % 2 == 0 && total % 2 == 0
      requires toc.tracks[from].startLba * SAMPLES_PER_FRAME <= nextLba * SAMPLES_PER_FRAME + offset
      requires nextLba * SAMPLES_PER_FRAME + total <= toc.leadoutLba * SAMPLES_PER_FRAME
      ensures 0 < count <= total - offset && CutAt(toc, i, nextLba * SAMPLES_PER_FRAME + offset, count)
      ensures (offset + count) % 2 == 0 && i < |toc.tracks|
      ensures toc.tracks[i].startLba * SAMPLES_PER_FRAME <= nextLba * SAMPLES_PER_FRAME + offset + count
      ensures |toc.tracks| == 1 && total - offset <= CHUNK_SAMPLES ==> count == total - offset
    {
      var position := nextLba * STEREO_PER_FRAME + offset / 2;
      i := TrackOf(position, from);
      CutFits(toc, i, nextLba, offset, total);
      var toEnd := (toc.tracks[i].EndLba() * STEREO_PER_FRAME - position) * 2;
      count := Min(total - offset, Min(toEnd, CHUNK_SAMPLES));
    }

    /** The first `n` samples of a block have been fed. */
    ghost predicate FedBy(before: seq<Sample>, pcm: seq<Sample>, n: nat)
      reads this`fed
    {
      n <= |pcm| && fed == Upto(before, pcm, n)
    }

    /** Feeds a slice of a block. */
    method FeedSlice(current: Identity, i: nat, pcm: seq<Sample>, offset: nat, next: nat, ghost before: seq<Sample>)
        returns (r: Passage)
      requires Outside() && FedOk() && state == Collecting && finals == 0 && ahead == offset
      requires offset < next <= |pcm| && FedBy(before, pcm, offset)
      requires CutAt(toc, i, nextLba * SAMPLES_PER_FRAME + offset, next - offset)
      modifies this`inCallback, this`state, this`failure, this`result, this`discarded, this`log, this`lastNow,
               this`checks, this`callbacks, this`body, this`feed, this`fed, this`ahead, scratch
      ensures Outside() && FedOk() && finals == 0 && ahead == next && FedBy(before, pcm, next)
      ensures if r.Refused? then Terminal(state) else state == Collecting
      ensures Calm() && current == identity ==> CalmTurn(r, old(checks), old(lastNow))
      ensures OfBlock(failure) ==> failure == old(failure)
      ensures old(checks) <= checks
    {
      UptoGrows(before, pcm, offset, next);
      r := FeedPart(current, i, pcm[offset..next]);
    }

    /** Feeds the next piece of a block of which `offset` samples are in. */
    method FeedNext(current: Identity, pcm: seq<Sample>, offset: nat, from: nat, ghost before: seq<Sample>)
        returns (r: Passage, next: nat, i: nat)
      requires WellFormed(toc) && Outside() && FedOk() && state == Collecting && finals == 0 && ahead == offset
      requires offset < |pcm| && FedBy(before, pcm, offset)
      requires offset % 2 == 0 && |pcm| % 2 == 0 && from < |toc.tracks|
      requires toc.tracks[from].startLba * SAMPLES_PER_FRAME <= nextLba * SAMPLES_PER_FRAME + offset
      requires nextLba * SAMPLES_PER_FRAME + |pcm| <= toc.leadoutLba * SAMPLES_PER_FRAME
      modifies this`inCallback, this`state, this`failure, this`result, this`discarded, this`log, this`lastNow,
               this`checks, this`callbacks, this`body, this`feed, this`fed, this`ahead, scratch
      ensures Outside() && FedOk() && finals == 0
      ensures offset < next <= |pcm| && next % 2 == 0 && ahead == next && i < |toc.tracks|
      ensures toc.tracks[i].startLba * SAMPLES_PER_FRAME <= nextLba * SAMPLES_PER_FRAME + next
      ensures FedBy(before, pcm, next)
      ensures if r.Refused? then Terminal(state) else state == Collecting
      ensures Calm() && current == identity ==> CalmTurn(r, old(checks), old(lastNow))
      ensures Calm() && current == identity && r != Passed ==> EndedByClock(old(checks))
      ensures |toc.tracks| == 1 && |pcm| - offset <= CHUNK_SAMPLES ==> next == |pcm|
      ensures OfBlock(failure) ==> failure == old(failure)
      ensures old(checks) <= checks
    {
      var count;
      i, count := NextCut(offset, |pcm|, from);
      next := offset + count;
      r := FeedSlice(current, i, pcm, offset, next, before);
    }

    /**
      Cuts an admitted block at track boundaries and at the chunk size, and feeds it piece by piece; an exception of the
      clock leaves a part of it fed.
    */
    method FeedBlock(current: Identity, pcm: seq<Sample>) returns (r: Passage)
      requires Valid() && state == Collecting && |pcm| % 2 == 0 && (pcm != [] ==> finals == 0)
      requires nextLba * SAMPLES_PER_FRAME + |pcm| <= toc.leadoutLba * SAMPLES_PER_FRAME
      modifies this`inCallback, this`state, this`failure, this`result, this`discarded, this`log, this`lastNow,
               this`checks, this`callbacks, this`body, this`feed, this`fed, this`ahead, scratch
      ensures Outside() && FedOk() && FedBy(old(fed), pcm, ahead)
      ensures if r.Refused? then Terminal(state) else state == Collecting
      ensures r.Passed? ==> ahead == |pcm|
      ensures r.Thrown? ==> 0 < ahead
      ensures Calm() && current == identity && r != Passed ==> EndedByClock(old(checks))
      ensures Calm() && current == identity && |toc.tracks| == 1 && 0 < |pcm| <= CHUNK_SAMPLES ==>
                CalmTurn(r, old(checks), old(lastNow)) && (r.Thrown? ==> ahead == |pcm|)
      ensures OfBlock(failure) ==> failure == old(failure)
    {
      var offset, track := 0, 0;
      ghost var before := fed;
      r := Passed;
      while offset < |pcm|
        invariant Outside() && FedOk() && state == Collecting && (pcm != [] ==> finals == 0)
        invariant 0 <= offset <= |pcm| && offset % 2 == 0 && ahead == offset
        invariant FedBy(before, pcm, offset)
        invariant r == Passed && failure == NoFailure && old(checks) <= checks
        invariant 0 <= track < |toc.tracks|
        invariant toc.tracks[track].startLba * SAMPLES_PER_FRAME <= nextLba * SAMPLES_PER_FRAME + offset
        invariant offset == 0 ==> checks == old(checks) && lastNow == old(lastNow)
        invariant Calm() && current == identity && |toc.tracks| == 1 && 0 < |pcm| <= CHUNK_SAMPLES && 0 < offset ==>
                    offset == |pcm| && CalmTurn(Passed, old(checks), old(lastNow))
      {
        r, offset, track := FeedNext(current, pcm, offset, track, before);
        if r != Passed { break; }
      }
    }

    /**
      An admitted block: all of it is fed before the cursor moves. What an exception left of it stays with the consumer.
    */
    method Take(current: Identity, frames: nat, pcm: seq<Sample>) returns (r: Passage)
      requires Valid() && state == Collecting && |pcm| == frames * 1176 && 0 < frames <= toc.leadoutLba - nextLba
      modifies this`inCallback, this`state, this`failure, this`result, this`discarded, this`log, this`lastNow,
               this`checks, this`callbacks, this`body, this`feed, this`fed, this`ahead, this`nextLba,
               this`precedingFrames, this`accepted, this`stray, scratch
      ensures Valid() && Settled(r, pcm, frames, old(Before(true)))
      ensures if r.Refused? then Terminal(state) else state == Collecting
      ensures Calm() && current == identity && r != Passed ==> EndedByClock(old(checks))
      ensures Calm() && current == identity && |toc.tracks| == 1 && |pcm| <= CHUNK_SAMPLES ==>
                CalmTurn(r, old(checks), old(lastNow)) && (r.Thrown? ==> stray == old(stray) + |pcm|)
      ensures OfBlock(failure) ==> failure == old(failure)
    {
      ghost var b := Before(true);
      BlockIsWhole(nextLba, toc.leadoutLba, frames, |pcm|);
      assert finals == 0;
      r := FeedBlock(current, pcm);
      Settle(r, frames, pcm, b);
    }

    /**
      What an append found: the cursor, the samples accepted, fed and left behind, and whether the block could be taken.
    */
    ghost function Before(fits: bool): Ledger
      reads this`nextLba, this`precedingFrames, this`accepted, this`fed, this`stray
    {
      Ledger(fits, nextLba, precedingFrames, accepted, fed, stray)
    }

    /** What becomes of a block: taken whole, or not at all, unless an exception leaves it with a part of it fed. */
    ghost predicate Settled(r: Passage, pcm: seq<Sample>, frames: nat, b: Ledger)
      reads this`nextLba, this`precedingFrames, this`accepted, this`fed, this`stray
    {
      match r
      case Passed =>
        && b.fits && nextLba == b.nextLba + frames && precedingFrames == frames
        && accepted == b.accepted + pcm && fed == b.fed + pcm && stray == b.stray
      case Refused => Unmoved(b) && stray == b.stray && (b.fits || fed == b.fed)
      case Thrown =>
        && Unmoved(b) && b.stray <= stray <= b.stray + |pcm|
        && if stray == b.stray then fed == b.fed else b.fits && FedBy(b.fed, pcm, stray - b.stray)
    }

    ghost predicate Unmoved(b: Ledger)
      reads this`nextLba, this`precedingFrames, this`accepted
    {
      nextLba == b.nextLba && precedingFrames == b.precedingFrames && accepted == b.accepted
    }

    /** The last reading of the clock was a bad one. */
    ghost predicate EndedByClock(before: nat)
      reads this`checks, this`lastNow
    {
      before < checks && BadReading(world.clock(checks - 1), lastNow, deadline)
    }

    /** The cursor moves over a block that is all fed; what an exception left of one is a stray. */
    method Settle(r: Passage, frames: nat, ghost pcm: seq<Sample>, ghost b: Ledger)
      requires WellFormed(toc) && Outside() && FedOk() && (stray == 0 ==> accepted == b.fed)
      requires b.fits && Unmoved(b) && stray == b.stray
      requires if r.Refused? then Terminal(state) else state == Collecting && finals == unkept == 0
      requires FedBy(b.fed, pcm, ahead) && (r.Passed? ==> ahead == |pcm|) && (r.Thrown? ==> 0 < ahead)
      requires |pcm| == frames * 1176 && frames <= toc.leadoutLba - nextLba
      modifies this`nextLba, this`precedingFrames, this`ahead, this`accepted, this`stray
      ensures Valid() && Settled(r, pcm, frames, b)
      ensures r.Thrown? ==> stray == b.stray + old(ahead)
    {
      if r.Passed? {
        MoveOn(frames, pcm, b);
      } else if r.Thrown? {
        stray, ahead := stray + ahead, 0;
      }
    }

    method MoveOn(frames: nat, ghost pcm: seq<Sample>, ghost b: Ledger)
      requires WellFormed(toc) && Outside() && FedOk() && (stray == 0 ==> accepted == b.fed)
      requires b.fits && Unmoved(b) && stray == b.stray && state == Collecting && finals == unkept == 0
      requires FedBy(b.fed, pcm, ahead) && ahead == |pcm| == frames * 1176 && frames <= toc.leadoutLba - nextLba
      modifies this`nextLba, this`precedingFrames, this`ahead, this`accepted
      ensures Valid() && Settled(Passed, pcm, frames, b)
    {
      UptoEnd(b.fed, pcm);
      nextLba, precedingFrames := nextLba + frames, frames;
      accepted, ahead := accepted + pcm, 0;
    }

    /** All that `append` demands of a block here and now. */
    ghost predicate Fits(read: ReadResult, samples: nat)
      reads this
    {
      state == Collecting && Admissible(policy, nextLba, toc.leadoutLba, precedingFrames, read, samples)
    }

    /**
      Checks a block's evidence and feeds it; only a fully accepted block moves the cursor. An exception of the clock
      leaves the state as it was, with whatever had been fed of the block still with the consumer.
    */
    method Append(current: Identity, read: ReadResult, pcm: seq<Sample>) returns (r: Passage)
      requires Valid()
      modifies this`inCallback, this`state, this`failure, this`result, this`discarded, this`log, this`lastNow,
               this`checks, this`callbacks, this`body, this`feed, this`fed, this`ahead, this`nextLba,
               this`precedingFrames, this`accepted, this`stray, scratch
      ensures Valid() && Later(old(state), state)
      ensures Settled(r, pcm, read.framesRead, old(Before(Fits(read, |pcm|))))
      ensures match r
              case Passed => state == Collecting && current == identity
              case Refused => state != Collecting && state != Prepared
              case Thrown => state == old(state)
      ensures old(state) == Collecting && OfBlock(failure) ==>
                failure == Refusal(false, policy, old(nextLba), toc.leadoutLba, old(precedingFrames), read, |pcm|)
      ensures Calm() && current == identity && old(Fits(read, |pcm|)) && r != Passed ==> EndedByClock(old(checks))
      ensures Calm() && current == identity && old(Fits(read, |pcm|)) && |toc.tracks| == 1 && |pcm| <= CHUNK_SAMPLES
              && old(Verdict(current)).Passed? ==>
                && CalmTurn(r, old(checks) + 1, world.clock(old(checks)).t)
                && (r.Thrown? ==> stray == old(stray) + |pcm|)
    {
      r := Enter(current);
      if r.Passed? { r := AppendChecked(current, read, pcm); }
    }

    /** Behind the prologue. */
    method AppendChecked(current: Identity, read: ReadResult, pcm: seq<Sample>) returns (r: Passage)
      requires Valid() && !Terminal(state)
      modifies this`inCallback, this`state, this`failure, this`result, this`discarded, this`log, this`lastNow,
               this`checks, this`callbacks, this`body, this`feed, this`fed, this`ahead, this`nextLba,
               this`precedingFrames, this`accepted, this`stray, scratch
      ensures Valid() && (old(state) == Complete ==> state == Complete)
      ensures Settled(r, pcm, read.framesRead, old(Before(Fits(read, |pcm|))))
      ensures if r.Refused? then state != Collecting && state != Prepared else old(state) == state == Collecting
      ensures old(state) == Collecting && OfBlock(failure) ==>
                failure == Refusal(false, policy, old(nextLba), toc.leadoutLba, old(precedingFrames), read, |pcm|)
      ensures Calm() && current == identity && old(Fits(read, |pcm|)) && r != Passed ==> EndedByClock(old(checks))
      ensures Calm() && current == identity && old(Fits(read, |pcm|)) && |toc.tracks| == 1 && |pcm| <= CHUNK_SAMPLES ==>
                CalmTurn(r, old(checks), old(lastNow)) && (r.Thrown? ==> stray == old(stray) + |pcm|)
    {
      if state == Complete { return Refused; }
      var refusal := Refusal(state == Prepared, policy, nextLba, toc.leadoutLba, precedingFrames, read, |pcm|);
      if refusal != NoFailure { Fail(Incomplete, refusal); return Refused; }
      r := Take(current, read.framesRead, pcm);
    }

    // -------------------------------------------------------------- sealing and publishing

    /** The finalizing callback. */
    method Seal() returns (c: Callback)
      requires Valid() && state == Collecting && nextLba == toc.leadoutLba
      modifies this`inCallback, this`state, this`failure, this`result, this`discarded, this`log, this`lastNow,
               this`checks, this`callbacks, this`body, this`finals
      ensures Outside() && FedOk() && finals == old(finals) + 1
      ensures old(log) <= log && c == world.callback(old(callbacks))
      ensures if state == Collecting then !c.threw && log == old(log) + [Finalize] else Terminal(state)
      ensures checks == old(checks) && lastNow == old(lastNow) && callbacks == old(callbacks) + 1
      ensures Calm() ==> state == Collecting
    {
      RecordFinal();
      c := RunCallback();
    }

    ghost method RecordFinal()
      requires LogOk() && FedOk() && !discarded
      modifies this`log, this`body, this`finals
      ensures LogOk() && FedOk() && body == old(body) + [Finalize] && log == old(log) + [Finalize]
      ensures finals == old(finals) + 1
    {
      FinalizeOne(toc, feed, finals);
      finals, body := finals + 1, body + [Finalize];
      log := body;
    }

    /**
      Seals the capture once every frame up to the lead-out is in. An exception of the clock behind the finalization
      leaves a collecting input that has finalized.
    */
    method Prepare(current: Identity) returns (r: Passage)
      requires Valid()
      modifies this`inCallback, this`state, this`failure, this`result, this`discarded, this`log, this`lastNow,
               this`checks, this`callbacks, this`body, this`finals, this`unkept
      ensures Valid() && Later(old(state), state) && old(log) <= log
      ensures r.Passed? ==> old(state) == Collecting && state == Prepared && current == identity
      ensures r.Passed? ==> nextLba == toc.leadoutLba && log == old(log) + [Finalize] && unkept == old(unkept)
      ensures r.Passed? ==> result == world.callback(old(callbacks)).result
      ensures r.Refused? && old(state) == Collecting ==> Terminal(state) && unkept == old(unkept)
      ensures r.Thrown? ==> state == old(state) && (unkept == old(unkept) || unkept == old(unkept) + 1)
      ensures r.Thrown? ==> log == if unkept == old(unkept) then old(log) else old(log) + [Finalize]
      ensures Calm() && current == identity && old(state) == Collecting && nextLba == toc.leadoutLba
              && old(Verdict(current)).Passed? ==>
                && CalmSeal(r, old(checks) + 1, world.clock(old(checks)).t, world.callback(old(callbacks)).result)
                && (r.Thrown? ==> unkept == old(unkept) + 1)
    {
      r := Enter(current);
      if r != Passed { return; }
      if state != Collecting { return Refused; }
      if nextLba != toc.leadoutLba { Fail(Incomplete, Unfinished); return Refused; }
      r := SealAndCheck(current);
    }

    /** The finalization, and the check behind it. */
    method SealAndCheck(current: Identity) returns (r: Passage)
      requires Valid() && state == Collecting && nextLba == toc.leadoutLba
      modifies this`inCallback, this`state, this`failure, this`result, this`discarded, this`log, this`lastNow,
               this`checks, this`callbacks, this`body, this`finals, this`unkept
      ensures Valid() && old(log) <= log && Sealed(r, current, old(log), old(unkept))
      ensures r.Passed? ==> result == world.callback(old(callbacks)).result
      ensures Calm() && current == identity ==>
                CalmSeal(r, old(checks), old(lastNow), world.callback(old(callbacks)).result)
    {
      var c := Seal();
      if c.threw { return Refused; }
      r := CheckSealed(current, c.result, log, unkept);
    }

    /** How a prepare that finalized ends. */
    ghost predicate Sealed(r: Passage, current: Identity, before: seq<Call>, unkeptBefore: nat)
      reads this`state, this`log, this`unkept
    {
      match r
      case Passed => state == Prepared && current == identity && log == before + [Finalize] && unkept == unkeptBefore
      case Refused => Terminal(state) && unkept == unkeptBefore
      case Thrown => state == Collecting && unkept == unkeptBefore + 1 && log == before + [Finalize]
    }

    /** The reading of the clock behind a calm finalization. */
    ghost predicate CalmSeal(r: Passage, before: nat, lastBefore: int, manifest: seq<Byte>)
      reads this`checks, this`lastNow
    {
      var reading := Reading(world.clock(before), lastBefore, deadline, false);
      && checks == before + 1 && (reading.Thrown? ==> r.Thrown? && lastNow == lastBefore)
      && (reading.Passed? && 0 < |manifest| <= identity.profile.maximumResultBytes ==> r.Passed?)
    }

    /** The check behind a finalization that returned. */
    method CheckSealed(current: Identity, manifest: seq<Byte>, ghost sealed: seq<Call>, ghost unkeptBefore: nat)
        returns (r: Passage)
      requires WellFormed(toc) && Outside() && FedOk() && nextLba == toc.leadoutLba && finals == unkept + 1
      requires Terminal(state) || (state == Collecting && ahead == 0 && (stray == 0 ==> accepted == fed))
      requires log == sealed && unkept == unkeptBefore
      modifies this`state, this`failure, this`result, this`discarded, this`log, this`lastNow, this`checks, this`unkept
      ensures Valid() && old(log) <= log
      ensures match r
              case Passed => state == Prepared && current == identity && log == sealed && unkept == unkeptBefore
              case Refused => Terminal(state) && unkept == unkeptBefore
              case Thrown => state == Collecting && unkept == unkeptBefore + 1 && log == sealed
      ensures r.Passed? ==> result == manifest
      ensures Calm() && current == identity && old(state) == Collecting ==>
                CalmSeal(r, old(checks), old(lastNow), manifest)
    {
      r := CheckOutside(current);
      if r.Passed? {
        r := KeepManifest(manifest);
      } else if r.Thrown? {
        unkept := unkept + 1;
      }
    }

    /** Takes the manifest the consumer returned, if its size is as declared. */
    method KeepManifest(manifest: seq<Byte>) returns (r: Passage)
      requires WellFormed(toc) && Outside() && FedOk() && state == Collecting && nextLba == toc.leadoutLba
      requires finals == unkept + 1 && ahead == 0 && (stray == 0 ==> accepted == fed)
      modifies this`state, this`failure, this`result, this`discarded, this`log
      ensures Valid() && old(log) <= log && !r.Thrown?
      ensures if r.Passed? then state == Prepared && log == old(log) else Terminal(state)
      ensures r.Passed? <==> 0 < |manifest| <= identity.profile.maximumResultBytes
      ensures r.Passed? ==> result == manifest
    {
      if manifest == [] || identity.profile.maximumResultBytes < |manifest| {
        Fail(Incomplete, ResultLimit);
        return Refused;
      }
      result, state := manifest, Prepared;
      r := Passed;
    }

    /** Publishes a prepared result once the final table of contents agrees and the reader is gone. */
    method Confirm(current: Identity, finalToc: DiscToc, readerReleased: bool) returns (r: Passage)
      requires Valid()
      modifies this`state, this`failure, this`result, this`discarded, this`log, this`lastNow, this`checks
      ensures Valid() && Later(old(state), state) && old(log) <= log
      ensures r.Passed? ==> (old(state) == Prepared || old(state) == Complete) && state == Complete
      ensures r.Passed? ==>
                current == identity && finalToc == toc && readerReleased && result == old(result) && log == old(log)
      ensures r.Thrown? ==> state == old(state) && log == old(log) && result == old(result)
      ensures state == Complete && old(state) != Complete ==> r.Passed?
      ensures r.Thrown? <==> old(Verdict(current)) == Thrown
      ensures old(Verdict(current)).Passed? ==> Confirmed(r, finalToc, readerReleased, old(state))
    {
      r := Enter(current);
      if r.Passed? { r := ConfirmChecked(finalToc, readerReleased); }
    }

    /** What becomes of a confirmation that passed its prologue: another table ends the capture, all else may wait. */
    ghost predicate Confirmed(r: Passage, finalToc: DiscToc, readerReleased: bool, before: InputState)
      reads this`state, this`failure
    {
      if before != Prepared && before != Complete then r.Refused? && state == before
      else if finalToc != toc then r.Refused? && state == Invalid && failure == TocChanged
      else if !readerReleased then r.Refused? && state == before
      else r.Passed?
    }

    /** Behind the prologue. */
    method ConfirmChecked(finalToc: DiscToc, readerReleased: bool) returns (r: Passage)
      requires Valid() && !Terminal(state)
      modifies this`state, this`failure, this`result, this`discarded, this`log
      ensures Valid() && Later(old(state), state) && old(log) <= log && !r.Thrown?
      ensures r.Passed? ==> (old(state) == Prepared || old(state) == Complete) && state == Complete
      ensures r.Passed? ==> finalToc == toc && readerReleased && result == old(result) && log == old(log)
      ensures state == Complete && old(state) != Complete ==> r.Passed?
      ensures Confirmed(r, finalToc, readerReleased, old(state))
    {
      if state != Prepared && state != Complete { return Refused; }
      if toc != finalToc { Fail(Invalid, TocChanged); return Refused; }
      if !readerReleased { return Refused; }
      state := Complete;
      r := Passed;
    }

    /** The bytes a caller sees: none before completion. */
    method Result() returns (r: seq<Byte>)
      requires Valid()
      ensures r != [] <==> state == Complete
      ensures r != [] ==> r == result
    {
      r := if state == Complete then result else [];
    }

    /** Destruction discards what nothing discarded before: whatever happened, one discard, and it is the last call. */
    method Destroy()
      requires Valid()
      modifies this`log, this`discarded
      ensures log == CallLog(toc, feed, finals, true)
    {
      if !discarded {
        discarded := true;
        log := log + [Discard];
      }
    }
  }

  /**
    The factory: a plan whose table does not rebuild from its own starts is refused, as are all other ineligible ones;
    and there is no input without a reading of the clock.
  */
  method MakeInput(plan: Plan, consumer: Profile, w: World, now: ClockRead) returns (r: Option<CompletePcmInput>)
    requires plan.toc.leadoutLba <= MAX_I32
    ensures r.Some? <==> now.Now? && Eligible(plan, consumer, now.t)
    ensures r.Some? ==> fresh(r.value) && fresh(r.value.scratch) && r.value.Valid() && r.value.state == Collecting
    ensures r.Some? ==> r.value.feed == [] && r.value.nextLba == FirstLba(plan.toc) && r.value.precedingFrames == 0
    ensures r.Some? ==> r.value.toc == plan.toc && r.value.policy == plan.policy && r.value.identity == plan.identity
    ensures r.Some? ==> r.value.world == w && r.value.checks == 0
    ensures r.Some? ==> r.value.accepted == [] && r.value.stray == r.value.unkept == 0
    ensures r.Some? ==> r.value.lastNow == now.t && r.value.deadline == now.t + plan.duration * NS_PER_MS
  {
    if !EligibleIdentity(plan.identity, consumer) || plan.duration <= 0 || DEADLINE_LIMIT_MS < plan.duration
       || plan.toc.tracks == [] || 99 < |plan.toc.tracks| {
      return None;
    }
    var starts := seq(|plan.toc.tracks|, i requires 0 <= i < |plan.toc.tracks| => plan.toc.tracks[i].startLba);
    var built := MakeAudioToc(plan.toc.tracks[0].number, starts, plan.toc.leadoutLba);
    WellFormedStarts(plan.toc, starts);
    if built.Failure? { return None; }
    SameStartsSameToc(plan.toc, built.value);
    if plan.toc != built.value { return None; }
    if Reservation(plan.policy, plan.identity.profile).None? || now.ClockThrew? { return None; }
    if MAX_I64 - plan.duration * NS_PER_MS < now.t { return None; }
    var input := new CompletePcmInput(plan, consumer, w, now.t);
    r := Some(input);
  }
}
