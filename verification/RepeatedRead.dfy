/**
  The repeated reader (src/repeated_read_verifier.cpp): reads a range over and
  over until enough complete reads agree, compares the overlap with what it
  delivered before, and hands out only PCM that won.
*/
module RepeatedReads {
  import opened Basics
  import opened CddaReaders
  import opened LowerReaders
  import opened Votings

  /** How the attempts of one call end; the reader underneath may throw, and so may the clock. */
  datatype Stop = InnerThrew | OutOfTime | OutOfAttempts | Chosen(candidate: nat)

  /** What a call accumulates over its attempts. */
  datatype Tally = Tally(v: Verification, retries: nat, paranoia: Paranoia, nativeError: int,
                         offset: Option<OffsetEvidence>)

  function Plus(a: Paranoia, b: Paranoia): Paranoia {
    Paranoia(a.blockReads + b.blockReads, a.verifies + b.verifies, a.fixups + b.fixups, a.skips + b.skips,
             a.readErrors + b.readErrors, a.cacheErrors + b.cacheErrors, a.other + b.other)
  }

  /** What is kept of one attempt; a physical read underneath takes precedence. */
  function Detail(w: Window, r: ReadResult, complete: bool, candidate: Option<nat>): Attempt {
    if r.offset.Some? && r.offset.value.physical.Some? then
      var raw := r.offset.value.physical.value;
      Attempt(raw.framesRead, complete, r.nativeError, r.retries, candidate, raw.startLba, raw.observedStartLba,
              raw.framesRequested, w.start, w.frames)
    else
      Attempt(r.framesRead, complete, r.nativeError, r.retries, candidate, w.start, r.startLba, w.frames,
              w.start, w.frames)
  }

  function SumRetries(seen: seq<Seen>): nat {
    if seen == [] then 0 else SumRetries(seen[..|seen| - 1]) + seen[|seen| - 1].result.retries
  }

  function SumEvents(seen: seq<Seen>): Paranoia {
    if seen == [] then NO_EVENTS else Plus(SumEvents(seen[..|seen| - 1]), seen[|seen| - 1].result.paranoia)
  }

  /** The offset reported is that of the last answer that had one; every answer's physical part stays in the details. */
  function LastOffset(seen: seq<Seen>): Option<OffsetEvidence> {
    if seen == [] then None
    else
      var r := seen[|seen| - 1].result;
      if r.offset.Some? then Some(OffsetEvidence(r.offset.value.samples, None)) else LastOffset(seen[..|seen| - 1])
  }

  /** The last error an attempt reported; an I/O error if none did. */
  function LastError(seen: seq<Seen>): int {
    if seen == [] then EIO
    else if seen[|seen| - 1].result.nativeError != 0 then seen[|seen| - 1].result.nativeError
    else LastError(seen[..|seen| - 1])
  }

  /** What is kept of the attempts: a complete one names, from 1, the candidate it voted for. */
  function Details(w: Window, seen: seq<Seen>): (r: seq<Attempt>)
    ensures |r| == |seen|
  {
    if seen == [] then []
    else
      var front, last := seen[..|seen| - 1], seen[|seen| - 1];
      Details(w, front) + [DetailOf(w, Votes(w, front), last)]
  }

  function DetailOf(w: Window, cands: seq<Candidate>, s: Seen): Attempt {
    Detail(w, s.result, Whole(w, s), if Whole(w, s) then Some(IndexOf(cands, s.pcm) + 1) else None)
  }

  /** The totals over the attempts so far. */
  predicate Summed(w: Window, seen: seq<Seen>, t: Tally) {
    && t.v.attempts == |seen| && t.v.details == Details(w, seen) && t.nativeError == LastError(seen)
    && t.retries == SumRetries(seen) && t.paranoia == SumEvents(seen) && t.offset == LastOffset(seen)
  }

  /** The votes so far. */
  predicate Counted(w: Window, seen: seq<Seen>, cands: seq<Candidate>, v: Verification) {
    && v.completeReads == CompleteReads(w, seen)
    && v.mismatches == (if |cands| == 0 then 0 else |cands| - 1)
    && v.matchingReads == Best(cands)
  }

  function Best(cands: seq<Candidate>): nat {
    if cands == [] then 0
    else if Best(cands[..|cands| - 1]) < cands[|cands| - 1].matches then cands[|cands| - 1].matches
    else Best(cands[..|cands| - 1])
  }

  /** Only the candidate just voted for can raise the best count. */
  lemma {:induction false} BestAfterVote(cands: seq<Candidate>, pcm: seq<Sample>, c2: C2Status)
    requires forall i :: 0 <= i < |cands| ==> 0 < cands[i].matches
    ensures var i := IndexOf(cands, pcm);
            var votes := Vote(cands, pcm, c2);
            Best(votes) == Max(Best(cands), votes[i].matches)
  {
    var i, votes := IndexOf(cands, pcm), Vote(cands, pcm, c2);
    if i == |cands| {
      assert votes[..|cands|] == cands;
    } else {
      var front := cands[..|cands| - 1];
      if i == |cands| - 1 {
        assert votes[..|cands| - 1] == front;
      } else {
        BestAfterVote(front, pcm, c2);
        assert votes[..|cands| - 1] == Vote(front, pcm, c2);
      }
    }
  }

  /** No shorter run of attempts had a winner. */
  ghost predicate NoWin(w: Window, seen: seq<Seen>, required: nat) {
    forall n :: 0 <= n <= |seen| ==> !Wins(w, seen[..n], required)
  }

  lemma StillNoWin(w: Window, seen: seq<Seen>, s: Seen, required: nat)
    requires NoWin(w, seen, required) && !Wins(w, seen + [s], required)
    ensures NoWin(w, seen + [s], required)
  {
    forall n | 0 <= n <= |seen| + 1 ensures !Wins(w, (seen + [s])[..n], required) {
      if n <= |seen| {
        assert (seen + [s])[..n] == seen[..n];
      } else {
        assert (seen + [s])[..n] == seen + [s];
      }
    }
  }

  /** The search for an equal candidate. */
  method FindCandidate(cands: seq<Candidate>, pcm: seq<Sample>) returns (i: nat)
    ensures i == IndexOf(cands, pcm)
  {
    i := 0;
    while i < |cands| && cands[i].pcm != pcm
      invariant 0 <= i <= |cands|
      invariant forall j :: 0 <= j < i ==> cands[j].pcm != pcm
    {
      i := i + 1;
    }
  }

  /** One answer's bookkeeping, whatever it was. */
  method NoteAnswer(ghost w: Window, t: Tally, r: ReadResult, detail: Attempt, ghost seen: seq<Seen>,
                    ghost pcm: seq<Sample>)
      returns (t': Tally)
    requires Summed(w, seen, t) && detail == DetailOf(w, Votes(w, seen), Seen(r, pcm))
    ensures Summed(w, seen + [Seen(r, pcm)], t')
    ensures t'.v == t.v.(attempts := t.v.attempts + 1, details := t.v.details + [detail])
  {
    assert (seen + [Seen(r, pcm)])[..|seen|] == seen;
    var offset := if r.offset.Some? then Some(OffsetEvidence(r.offset.value.samples, None)) else t.offset;
    var native := if r.nativeError != 0 then r.nativeError else t.nativeError;
    t' := Tally(t.v.(attempts := t.v.attempts + 1, details := t.v.details + [detail]), t.retries + r.retries,
                Plus(t.paranoia, r.paranoia), native, offset);
  }

  /** A complete answer votes. */
  method NoteVote(w: Window, v: Verification, cands: seq<Candidate>, s: Seen, ghost seen: seq<Seen>)
      returns (v': Verification, cands': seq<Candidate>, i: nat)
    requires cands == Votes(w, seen) && Counted(w, seen, cands, v) && Whole(w, s)
    ensures cands' == Votes(w, seen + [s]) && Counted(w, seen + [s], cands', v')
    ensures i == IndexOf(cands, s.pcm) < |cands'| && cands'[i].pcm == s.pcm
    ensures v' == v.(completeReads := v'.completeReads, mismatches := v'.mismatches, matchingReads := v'.matchingReads)
  {
    cands', i := CastVote(w, cands, s, seen);
    v' := v.(completeReads := v.completeReads + 1,
             mismatches := if |cands'| != |cands| && 0 < |cands| then v.mismatches + 1 else v.mismatches,
             matchingReads := Max(v.matchingReads, cands'[i].matches));
  }

  method CastVote(w: Window, cands: seq<Candidate>, s: Seen, ghost seen: seq<Seen>)
      returns (cands': seq<Candidate>, i: nat)
    requires cands == Votes(w, seen) && Whole(w, s)
    ensures cands' == Votes(w, seen + [s]) && CompleteReads(w, seen + [s]) == CompleteReads(w, seen) + 1
    ensures i == IndexOf(cands, s.pcm) < |cands'| && cands'[i].pcm == s.pcm
    ensures Best(cands') == Max(Best(cands), cands'[i].matches)
    ensures |cands'| == (if i == |cands| then |cands| + 1 else |cands|)
  {
    i := FindCandidate(cands, s.pcm);
    if i == |cands| {
      cands' := cands + [Candidate(s.pcm, 1, s.result.c2)];
    } else {
      cands' := cands[i := Candidate(cands[i].pcm, cands[i].matches + 1, Merge(cands[i].c2, s.result.c2))];
    }
    assert (seen + [s])[..|seen|] == seen;
    CandidatesVoted(w, seen);
    BestAfterVote(cands, s.pcm, s.result.c2);
  }

  lemma CandidatesVoted(w: Window, seen: seq<Seen>)
    ensures forall i :: 0 <= i < |Votes(w, seen)| ==> 0 < Votes(w, seen)[i].matches
  {
    forall i | 0 <= i < |Votes(w, seen)| ensures 0 < Votes(w, seen)[i].matches {
      VoteIsCount(w, seen, i);
    }
  }

  /** The answers a run of attempts drew from the reader underneath. */
  function Replies(w: Window, seen: seq<Seen>): seq<Reply> {
    if seen == [] then []
    else Replies(w, seen[..|seen| - 1]) + [Reply(w.start, seen[|seen| - 1].result, seen[|seen| - 1].pcm)]
  }

  lemma OneMoreReply(before: seq<Reply>, w: Window, seen: seq<Seen>, s: Seen)
    ensures before + Replies(w, seen + [s]) == before + Replies(w, seen) + [Reply(w.start, s.result, s.pcm)]
  {
    assert (seen + [s])[..|seen|] == seen;
  }

  /** One seek and read of the range. */
  method ReadAt(inner: LowerReader, w: Window) returns (a: Answer)
    requires inner.Valid()
    modifies inner, inner.shift, inner.drive
    ensures inner.Valid() && (a.Threw? ==> inner.answers == old(inner.answers))
    ensures a.Threw? <==> inner.throws != old(inner.throws)
    ensures a.Returned? ==> |a.pcm| == w.frames * 1176 && inner.Explains(w, Seen(a.result, a.pcm))
    ensures a.Returned? ==> inner.answers == old(inner.answers) + [Reply(w.start, a.result, a.pcm)]
  {
    var threw := inner.Seek(w.start);
    if threw { return Threw; }
    a := inner.Read(w.frames * 1176);
  }

  /** One attempt, noted; `voted` names the candidate a complete answer voted for. */
  method AttemptOnce(inner: LowerReader, w: Window, t: Tally, cands: seq<Candidate>, ghost seen: seq<Seen>)
      returns (threw: bool, t': Tally, cands': seq<Candidate>, voted: Option<nat>, ghost s: Seen)
    requires inner.Valid() && cands == Votes(w, seen) && Counted(w, seen, cands, t.v) && Summed(w, seen, t)
    modifies inner, inner.shift, inner.drive
    ensures inner.Valid() && (!threw ==> inner.Explains(w, s)) && (threw <==> inner.throws != old(inner.throws))
    ensures inner.answers == old(inner.answers) + (if threw then [] else [Reply(w.start, s.result, s.pcm)])
    ensures !threw ==>
              cands' == Votes(w, seen + [s]) && Counted(w, seen + [s], cands', t'.v) && Summed(w, seen + [s], t')
    ensures !threw ==> |s.pcm| == w.frames * 1176 && (voted.Some? <==> Whole(w, s))
    ensures !threw && voted.Some? ==> voted.value < |cands'| && cands'[voted.value].pcm == s.pcm
    ensures t'.v.overlap == t.v.overlap && t'.v.overlapRequested == t.v.overlapRequested
    ensures t'.v.timeBudgetExhausted == t.v.timeBudgetExhausted
  {
    t', cands', voted, s := t, cands, None, Seen(EMPTY_RESULT, []);
    var a := ReadAt(inner, w);
    threw := a.Threw?;
    if threw { return; }
    s := Seen(a.result, a.pcm);
    assert (seen + [s])[..|seen|] == seen;
    if a.result.status == ReadOk && a.result.startLba == w.start && a.result.framesRead == w.frames {
      var v, at;
      v, cands', at := NoteVote(w, t.v, cands, Seen(a.result, a.pcm), seen);
      t' := NoteAnswer(w, t.(v := v), a.result, Detail(w, a.result, true, Some(at + 1)), seen, a.pcm);
      voted := Some(at);
    } else {
      t' := NoteAnswer(w, t, a.result, Detail(w, a.result, false, None), seen, a.pcm);
    }
  }

  /** The latest answer wins exactly when the candidate it voted for has the votes. */
  lemma VoteDecides(w: Window, seen: seq<Seen>, i: nat, required: nat)
    requires seen != [] && Whole(w, seen[|seen| - 1]) && i < |Votes(w, seen)|
    requires Votes(w, seen)[i].pcm == seen[|seen| - 1].pcm
    ensures Wins(w, seen, required) <==> required <= Votes(w, seen)[i].matches
  {
    VoteIsCount(w, seen, i);
  }

  ghost predicate Explained(inner: LowerReader, w: Window, seen: seq<Seen>) {
    forall s :: s in seen ==> inner.Explains(w, s)
  }

  /** One turn of the loop: an attempt, and the stop it leads to, if any. */
  method AttemptAndCount(inner: LowerReader, w: Window, required: nat, t: Tally, cands: seq<Candidate>,
                         ghost seen: seq<Seen>)
      returns (stop: Option<Stop>, t': Tally, cands': seq<Candidate>, ghost s: Seen)
    requires inner.Valid()
    requires cands == Votes(w, seen) && Counted(w, seen, cands, t.v) && Summed(w, seen, t) && NoWin(w, seen, required)
    modifies inner, inner.shift, inner.drive
    ensures inner.Valid() && (stop != Some(InnerThrew) ==> inner.Explains(w, s))
    ensures stop == Some(InnerThrew) <==> inner.throws != old(inner.throws)
    ensures stop == None || stop == Some(InnerThrew) || stop.value.Chosen?
    ensures inner.answers ==
              old(inner.answers) + (if stop == Some(InnerThrew) then [] else [Reply(w.start, s.result, s.pcm)])
    ensures stop != Some(InnerThrew) ==>
              && cands' == Votes(w, seen + [s]) && Counted(w, seen + [s], cands', t'.v) && Summed(w, seen + [s], t')
              && |s.pcm| == w.frames * 1176
    ensures stop.None? ==> NoWin(w, seen + [s], required)
    ensures stop.Some? && stop.value.Chosen? ==>
              && Wins(w, seen + [s], required)
              && stop.value.candidate < |cands'| && cands'[stop.value.candidate].pcm == s.pcm
    ensures t'.v.overlap == t.v.overlap && t'.v.overlapRequested == t.v.overlapRequested
    ensures t'.v.timeBudgetExhausted == t.v.timeBudgetExhausted
  {
    var threw, voted;
    threw, t', cands', voted, s := AttemptOnce(inner, w, t, cands, seen);
    if threw { return Some(InnerThrew), t', cands', s; }
    if voted.Some? {
      VoteDecides(w, seen + [s], voted.value, required);
      if required <= cands'[voted.value].matches { return Some(Chosen(voted.value)), t', cands', s; }
    }
    StillNoWin(w, seen, s, required);
    stop := None;
  }

  /** At this reading the budget has run out since the first one. */
  predicate Late(policy: RepeatPolicy, times: seq<ClockRead>, k: nat)
    requires k < |times|
  {
    times[0].Now? && times[k].Now? && policy.timeBudgetMs * 1_000_000 <= times[k].t - times[0].t
  }

  /** All these readings came about, and none but perhaps the first was late. */
  predicate InTime(policy: RepeatPolicy, times: seq<ClockRead>) {
    && times != [] && (forall c <- times :: c.Now?)
    && forall k :: 1 <= k < |times| ==> !Late(policy, times, k)
  }

  /**
    The clock is read once at the start of a call and once in front of every further attempt; time has run out exactly
    if the last reading is late, and no attempt follows it.
  */
  predicate Timed(policy: RepeatPolicy, attempts: nat, times: seq<ClockRead>, exhausted: bool) {
    if exhausted then
      && 0 < attempts == |times| - 1 && attempts < policy.maximumAttempts && times[attempts].Now?
      && InTime(policy, times[..attempts]) && Late(policy, times, attempts)
    else
      attempts == |times| && InTime(policy, times)
  }

  lemma OneMoreReading(policy: RepeatPolicy, times: seq<ClockRead>, now: ClockRead)
    requires InTime(policy, times) && now.Now? && !Late(policy, times + [now], |times|)
    ensures InTime(policy, times + [now])
  {
    forall k | 1 <= k < |times| + 1 ensures !Late(policy, times + [now], k) {
      if k < |times| { assert !Late(policy, times, k); }
    }
  }

  /** In front of an attempt: the clock, unless it is the first. */
  method BeforeAttempt(clock: Clock, policy: RepeatPolicy, started: int, attempt: nat, ghost times: seq<ClockRead>)
      returns (stop: Option<Stop>, ghost times': seq<ClockRead>)
    requires InTime(policy, times) && |times| == Max(1, attempt) && times[0] == Now(started)
    requires attempt < policy.maximumAttempts
    modifies clock
    ensures times <= times' && clock.readings == old(clock.readings) + times'[|times|..]
    ensures stop.None? ==> InTime(policy, times') && |times'| == attempt + 1
    ensures stop.Some? ==> stop.value == if ClockThrew in times' then InnerThrew else OutOfTime
    ensures stop == Some(OutOfTime) ==> Timed(policy, attempt, times', true)
  {
    times' := times;
    if attempt == 0 { return None, times'; }
    var now := clock.Read();
    times' := times + [now];
    assert times'[..attempt] == times;
    if now.ClockThrew? {
      assert times'[attempt] == ClockThrew;
      return Some(InnerThrew), times';
    }
    if policy.timeBudgetMs * 1_000_000 <= now.t - started { return Some(OutOfTime), times'; }
    OneMoreReading(policy, times, now);
    stop := None;
  }

  /** What is known after some attempts without a winner. */
  ghost predicate Undecided(policy: RepeatPolicy, w: Window, seen: seq<Seen>, t: Tally, cands: seq<Candidate>) {
    && cands == Votes(w, seen) && Counted(w, seen, cands, t.v) && Summed(w, seen, t)
    && (forall s :: s in seen ==> |s.pcm| == w.frames * 1176)
    && NoWin(w, seen, policy.requiredMatches)
  }

  /** What is known when the attempts have ended and nothing threw. */
  ghost predicate Over(policy: RepeatPolicy, w: Window, stop: Stop, seen: seq<Seen>, times: seq<ClockRead>, t: Tally,
                       cands: seq<Candidate>)
  {
    && Timed(policy, |seen|, times, stop == OutOfTime) && (stop == OutOfTime <==> t.v.timeBudgetExhausted)
    && if stop.Chosen? then Decided(policy, w, stop, seen, t, cands) else Undecided(policy, w, seen, t, cands)
  }

  /** The last attempt has won. */
  ghost predicate Decided(policy: RepeatPolicy, w: Window, stop: Stop, seen: seq<Seen>, t: Tally,
                          cands: seq<Candidate>)
  {
    && stop.Chosen? && cands == Votes(w, seen) && Counted(w, seen, cands, t.v) && Summed(w, seen, t)
    && (forall s :: s in seen ==> |s.pcm| == w.frames * 1176)
    && Wins(w, seen, policy.requiredMatches) && NoWin(w, seen[..|seen| - 1], policy.requiredMatches)
    && stop.candidate < |cands| && cands[stop.candidate].pcm == seen[|seen| - 1].pcm
  }

  /** The rest of the evidence is not touched by the attempts. */
  predicate SameOverlap(a: Verification, b: Verification) {
    a.overlap == b.overlap && a.overlapRequested == b.overlapRequested
  }

  /** One attempt with the reading of the clock in front of it. */
  method Turn(inner: LowerReader, clock: Clock, policy: RepeatPolicy, w: Window, started: int, attempt: nat, t: Tally,
              cands: seq<Candidate>, ghost seen: seq<Seen>, ghost times: seq<ClockRead>)
      returns (stop: Option<Stop>, t': Tally, cands': seq<Candidate>, ghost seen': seq<Seen>,
               ghost times': seq<ClockRead>)
    requires inner.Valid() && Explained(inner, w, seen) && Undecided(policy, w, seen, t, cands) && |seen| == attempt
    requires InTime(policy, times) && |times| == Max(1, attempt) && times[0] == Now(started)
    requires !t.v.timeBudgetExhausted && attempt < policy.maximumAttempts
    modifies inner, inner.shift, inner.drive, clock
    ensures inner.Valid() && Explained(inner, w, seen') && seen <= seen' && times <= times'
    ensures inner.answers == old(inner.answers) + Replies(w, seen'[|seen|..])
    ensures clock.readings == old(clock.readings) + times'[|times|..]
    ensures stop == Some(InnerThrew) <==> inner.throws != old(inner.throws) || ClockThrew in times'
    ensures stop.None? ==> Undecided(policy, w, seen', t', cands') && |seen'| == |times'| == attempt + 1
    ensures stop.None? ==> InTime(policy, times') && !t'.v.timeBudgetExhausted
    ensures stop.Some? && stop != Some(InnerThrew) ==> Over(policy, w, stop.value, seen', times', t', cands')
    ensures stop != Some(OutOfAttempts) && |seen'| <= attempt + 1 && SameOverlap(t.v, t'.v)
  {
    t', cands', seen' := t, cands, seen;
    stop, times' := BeforeAttempt(clock, policy, started, attempt, times);
    if stop.Some? {
      t' := t.(v := t.v.(timeBudgetExhausted := stop.value == OutOfTime));
      StoppedEarly(policy, w, seen, t, cands, stop.value == OutOfTime);
    } else {
      stop, t', cands', seen' := TryOnce(inner, policy, w, t, cands, seen);
    }
  }

  lemma StoppedEarly(policy: RepeatPolicy, w: Window, seen: seq<Seen>, t: Tally, cands: seq<Candidate>, late: bool)
    requires Undecided(policy, w, seen, t, cands)
    ensures Undecided(policy, w, seen, t.(v := t.v.(timeBudgetExhausted := late)), cands)
    ensures Replies(w, seen[|seen|..]) == []
  {
  }

  /** One attempt, where it leads. */
  method TryOnce(inner: LowerReader, policy: RepeatPolicy, w: Window, t: Tally, cands: seq<Candidate>,
                 ghost seen: seq<Seen>)
      returns (stop: Option<Stop>, t': Tally, cands': seq<Candidate>, ghost seen': seq<Seen>)
    requires inner.Valid() && Explained(inner, w, seen) && Undecided(policy, w, seen, t, cands)
    modifies inner, inner.shift, inner.drive
    ensures inner.Valid() && Explained(inner, w, seen') && seen <= seen'
    ensures inner.answers == old(inner.answers) + Replies(w, seen'[|seen|..])
    ensures stop == Some(InnerThrew) <==> inner.throws != old(inner.throws)
    ensures |seen'| == |seen| + if stop == Some(InnerThrew) then 0 else 1
    ensures stop.None? ==> Undecided(policy, w, seen', t', cands')
    ensures stop.Some? && stop != Some(InnerThrew) ==> Decided(policy, w, stop.value, seen', t', cands')
    ensures SameOverlap(t.v, t'.v) && t'.v.timeBudgetExhausted == t.v.timeBudgetExhausted
  {
    ghost var s;
    stop, t', cands', s := AttemptAndCount(inner, w, policy.requiredMatches, t, cands, seen);
    seen' := if stop == Some(InnerThrew) then seen else seen + [s];
    OneReply(w, s);
    assert stop != Some(InnerThrew) ==> seen'[|seen|..] == [s] && seen'[..|seen|] == seen;
  }

  lemma OneReply(w: Window, s: Seen)
    ensures Replies(w, [s]) == [Reply(w.start, s.result, s.pcm)]
  {
    assert [s][..0] == [];
  }

  /** The attempts of one call: until a value has its votes, the budget is spent, or something throws. */
  method Collect(inner: LowerReader, clock: Clock, policy: RepeatPolicy, w: Window, initial: Verification)
      returns (stop: Stop, t: Tally, cands: seq<Candidate>, ghost seen: seq<Seen>, ghost times: seq<ClockRead>)
    requires inner.Valid() && ValidRepeatPolicy(policy)
    requires initial.attempts == initial.completeReads == initial.matchingReads ==
               initial.mismatches == |initial.details| == 0
    requires !initial.timeBudgetExhausted
    modifies inner, inner.shift, inner.drive, clock
    ensures inner.Valid() && Explained(inner, w, seen)
    ensures inner.answers == old(inner.answers) + Replies(w, seen) && clock.readings == old(clock.readings) + times
    ensures stop == InnerThrew <==> inner.throws != old(inner.throws) || ClockThrew in times
    ensures |seen| <= policy.maximumAttempts && (stop == OutOfAttempts ==> |seen| == policy.maximumAttempts)
    ensures stop != InnerThrew ==> Over(policy, w, stop, seen, times, t, cands)
    ensures SameOverlap(initial, t.v)
  {
    seen, cands := [], [];
    t := Tally(initial, 0, NO_EVENTS, EIO, None);
    var first := clock.Read();
    times := [first];
    if first.ClockThrew? { return InnerThrew, t, cands, seen, times; }
    for attempt := 0 to policy.maximumAttempts
      invariant inner.Valid() && Explained(inner, w, seen) && inner.throws == old(inner.throws)
      invariant |seen| == attempt && inner.answers == old(inner.answers) + Replies(w, seen)
      invariant |times| == Max(1, attempt) && times[0] == first && InTime(policy, times)
      invariant clock.readings == old(clock.readings) + times
      invariant Undecided(policy, w, seen, t, cands) && !t.v.timeBudgetExhausted && SameOverlap(initial, t.v)
    {
      var ending;
      ghost var seen', times';
      ending, t, cands, seen', times' := Turn(inner, clock, policy, w, first.t, attempt, t, cands, seen, times);
      MoreReplies(old(inner.answers), w, seen, seen');
      MoreReadings(old(clock.readings), times, times');
      seen, times := seen', times';
      if ending.Some? { return ending.value, t, cands, seen, times; }
    }
    stop := OutOfAttempts;
  }

  lemma MoreReplies(before: seq<Reply>, w: Window, seen: seq<Seen>, seen': seq<Seen>)
    requires seen <= seen' && |seen'| <= |seen| + 1
    ensures before + Replies(w, seen') == before + Replies(w, seen) + Replies(w, seen'[|seen|..])
  {
    if |seen'| == |seen| {
      assert seen'[|seen|..] == [] && seen' == seen;
    } else {
      var s := seen'[|seen|];
      OneReply(w, s);
      OneMoreReply(before, w, seen, s);
      assert seen'[|seen|..] == [s] && seen' == seen + [s];
    }
  }

  lemma MoreReadings(before: seq<ClockRead>, times: seq<ClockRead>, times': seq<ClockRead>)
    requires times <= times'
    ensures before + times' == before + times + times'[|times|..]
  {
  }

  // ---------------------------------------------------------------- the verdict on one call

  function InitialOverlap(requested: nat, overlap: nat): Overlap {
    if requested == 0 then NotRequested else if overlap != 0 then NotChecked else StreamBoundary
  }

  /** The overlap verdict of a block that was accepted. */
  function AcceptedOverlap(requested: nat, overlap: nat): Overlap {
    if requested == 0 then NotRequested else if overlap != 0 then Matched else StreamBoundary
  }

  /** What a call sees of its object: the policy, the tail kept of the previous block, and what it was asked for. */
  datatype Request = Request(policy: RepeatPolicy, tail: seq<Sample>, position: int, frames: nat) {
    function Overlap(): nat { |tail| / 1176 }

    function Range(): Window { Window(position - Overlap(), frames + Overlap()) }
  }

  /** A winner emerged and begins with the tail of the previous block. */
  predicate Agrees(q: Request, seen: seq<Seen>) {
    Wins(q.Range(), seen, q.policy.requiredMatches) && q.tail <= seen[|seen| - 1].pcm
  }

  /** The evidence of a block that was handed out. */
  predicate Accepted(q: Request, seen: seq<Seen>, r: ReadResult)
    requires seen != []
  {
    var v, won := r.verification, seen[|seen| - 1].pcm;
    && r.framesRead == q.frames && r.nativeError == 0
    && v.overlap == AcceptedOverlap(q.policy.overlapFrames, q.Overlap()) && v.overlapCompared == q.Overlap()
    && !v.timeBudgetExhausted
    && v.acceptedAttempt == Some(|seen|)
    && v.acceptedCandidate == Some(IndexOf(Votes(q.Range(), seen), won) + 1)
    && Statuses(q.Range(), seen, won) != [] && r.c2 == MergeAll(Statuses(q.Range(), seen, won))
  }

  /** The relation between a request, the answers to its attempts and the result. */
  ghost predicate Verdict(q: Request, seen: seq<Seen>, r: ReadResult) {
    var w, v := q.Range(), r.verification;
    && |seen| <= q.policy.maximumAttempts
    && (seen != [] ==> NoWin(w, seen[..|seen| - 1], q.policy.requiredMatches))
    && (!Wins(w, seen, q.policy.requiredMatches) ==> v.timeBudgetExhausted || |seen| == q.policy.maximumAttempts)
    && r.startLba == q.position && r.framesRequested == q.frames
    && v.attempts == |seen| && v.details == Details(w, seen) && v.overlapRequested == q.policy.overlapFrames
    && Counted(w, seen, Votes(w, seen), v) && r.retries == SumRetries(seen) && r.paranoia == SumEvents(seen)
    && r.offset == LastOffset(seen)
    && (r.status == ReadOk <==> Agrees(q, seen))
    && (r.status == ReadOk ==> seen != [] && Accepted(q, seen, r))
    && (r.status != ReadOk ==> Refused(q, seen, r)) && r.independence == CachePossible
  }

  /** The evidence of a call that hands nothing out. */
  predicate Refused(q: Request, seen: seq<Seen>, r: ReadResult) {
    && r.framesRead == 0
    && (if Wins(q.Range(), seen, q.policy.requiredMatches) then
          r.verification.overlap == Mismatched && r.nativeError == EILSEQ
        else
          && r.verification.overlap == InitialOverlap(q.policy.overlapFrames, q.Overlap())
          && r.nativeError == LastError(seen))
  }

  function Combined(q: Request, t: Tally): ReadResult {
    ReadResult(q.position, q.frames, 0, ReadError, t.nativeError, t.retries, t.paranoia, t.v, CachePossible,
               C2NotChecked, t.offset)
  }

  /** The end of a call whose attempts all answered: the overlap comparison, and the result. */
  method Judge(q: Request, stop: Stop, t: Tally, cands: seq<Candidate>, ghost seen: seq<Seen>,
               ghost times: seq<ClockRead>)
      returns (r: ReadResult)
    requires q.policy.overlapFrames == 0 ==> q.tail == []
    requires |q.tail| % 1176 == 0 && q.policy.requiredMatches != 0
    requires stop != InnerThrew && Over(q.policy, q.Range(), stop, seen, times, t, cands)
    requires t.v.overlapRequested == q.policy.overlapFrames
    requires t.v.overlap == InitialOverlap(q.policy.overlapFrames, q.Overlap())
    requires |seen| <= q.policy.maximumAttempts && (stop == OutOfAttempts ==> |seen| == q.policy.maximumAttempts)
    requires forall s :: s in seen ==> |q.tail| <= |s.pcm|
    ensures Verdict(q, seen, r) && Timed(q.policy, |seen|, times, r.verification.timeBudgetExhausted)
  {
    r := Combined(q, t);
    if !stop.Chosen? {
      NoWinNow(q.Range(), seen, q.policy.requiredMatches);
      return;
    }
    r := JudgeChosen(q, stop, t, cands, seen, times);
  }

  /** The comparison of a winner with the tail of the block before. */
  method JudgeChosen(q: Request, stop: Stop, t: Tally, cands: seq<Candidate>, ghost seen: seq<Seen>,
                     ghost times: seq<ClockRead>)
      returns (r: ReadResult)
    requires q.policy.overlapFrames == 0 ==> q.tail == []
    requires |q.tail| % 1176 == 0 && q.policy.requiredMatches != 0
    requires stop.Chosen? && Over(q.policy, q.Range(), stop, seen, times, t, cands)
    requires t.v.overlapRequested == q.policy.overlapFrames
    requires t.v.overlap == InitialOverlap(q.policy.overlapFrames, q.Overlap())
    requires |seen| <= q.policy.maximumAttempts
    requires forall s :: s in seen ==> |q.tail| <= |s.pcm|
    ensures Verdict(q, seen, r) && Timed(q.policy, |seen|, times, r.verification.timeBudgetExhausted)
  {
    r := Combined(q, t);
    var found := cands[stop.candidate];
    r := r.(verification := t.v.(overlapCompared := q.Overlap()));
    if q.Overlap() != 0 && found.pcm[..|q.tail|] != q.tail {
      return r.(verification := r.verification.(overlap := Mismatched), nativeError := EILSEQ);
    }
    var v := r.verification.(overlap := if q.Overlap() != 0 then Matched else r.verification.overlap,
                             acceptedCandidate := Some(stop.candidate + 1), acceptedAttempt := Some(t.v.attempts));
    r := r.(verification := v, framesRead := q.frames, status := ReadOk, nativeError := 0, c2 := found.c2);
    FoundFirst(q.Range(), seen, stop.candidate);
  }

  lemma NoWinNow(w: Window, seen: seq<Seen>, required: nat)
    requires NoWin(w, seen, required)
    ensures !Wins(w, seen, required)
    ensures seen != [] ==> NoWin(w, seen[..|seen| - 1], required)
  {
    assert seen[..|seen|] == seen;
    if seen != [] {
      var front := seen[..|seen| - 1];
      forall n | 0 <= n <= |front| ensures !Wins(w, front[..n], required) {
        assert front[..n] == seen[..n];
      }
    }
  }

  lemma FoundFirst(w: Window, seen: seq<Seen>, i: nat)
    requires i < |Votes(w, seen)|
    ensures IndexOf(Votes(w, seen), Votes(w, seen)[i].pcm) == i
    ensures Faithful(w, seen, Votes(w, seen)[i])
  {
    VotesDistinct(w, seen);
    VoteIsCount(w, seen, i);
  }

  predicate ValidRequest(q: Request) {
    && ValidRepeatPolicy(q.policy)
    && |q.tail| % 1176 == 0 && |q.tail| <= q.policy.overlapFrames * 1176
  }

  /** One call: collect, then judge; nothing comes out if the reader underneath threw. */
  method Decide(inner: LowerReader, clock: Clock, q: Request)
      returns (r: Option<ReadResult>, won: seq<Sample>, ghost seen: seq<Seen>, ghost times: seq<ClockRead>)
    requires inner.Valid() && ValidRequest(q)
    modifies inner, inner.shift, inner.drive, clock
    ensures inner.Valid() && Explained(inner, q.Range(), seen)
    ensures inner.answers == old(inner.answers) + Replies(q.Range(), seen)
    ensures clock.readings == old(clock.readings) + times
    ensures r.None? <==> inner.throws != old(inner.throws) || ClockThrew in times
    ensures r.Some? ==> Verdict(q, seen, r.value)
    ensures r.Some? ==> Timed(q.policy, |seen|, times, r.value.verification.timeBudgetExhausted)
    ensures r.Some? && r.value.status == ReadOk ==> won == seen[|seen| - 1].pcm
    ensures r.Some? && r.value.status == ReadOk ==> q.tail <= won && |won| == |q.tail| + q.frames * 1176
  {
    r, won := None, [];
    var initial := NO_VERIFICATION.(overlapRequested := q.policy.overlapFrames,
                                    overlap := InitialOverlap(q.policy.overlapFrames, q.Overlap()));
    var stop, t, cands;
    stop, t, cands, seen, times := Collect(inner, clock, q.policy, q.Range(), initial);
    if stop == InnerThrew { return; }
    var result := Judge(q, stop, t, cands, seen, times);
    if stop.Chosen? {
      won := cands[stop.candidate].pcm;
      assert seen[|seen| - 1] in seen;
    } else {
      NoWinNow(q.Range(), seen, q.policy.requiredMatches);
    }
    r := Some(result);
  }

  // ---------------------------------------------------------------- what a verdict means

  /** While nothing has won, no value has its votes. */
  lemma {:induction false} CountsBelow(w: Window, seen: seq<Seen>, required: nat, pcm: seq<Sample>)
    requires NoWin(w, seen, required) && 0 < required
    ensures Count(w, seen, pcm) < required
  {
    if seen != [] {
      NoWinNow(w, seen, required);
      CountsBelow(w, seen[..|seen| - 1], required, pcm);
    }
  }

  /**
    A call succeeds exactly when some value got its votes and starts with the previous block's tail; that value is the
    only one with enough votes.
  */
  lemma SucceedsIff(q: Request, seen: seq<Seen>, r: ReadResult, pcm: seq<Sample>)
    requires Verdict(q, seen, r) && ValidRequest(q)
    requires q.policy.requiredMatches <= Count(q.Range(), seen, pcm)
    ensures seen != [] && Wins(q.Range(), seen, q.policy.requiredMatches) && seen[|seen| - 1].pcm == pcm
    ensures r.status == ReadOk <==> q.tail <= pcm
  {
    CountsBelow(q.Range(), seen[..|seen| - 1], q.policy.requiredMatches, pcm);
  }

  lemma DeliveredHasVotes(q: Request, seen: seq<Seen>, r: ReadResult)
    requires Verdict(q, seen, r) && r.status == ReadOk
    ensures HasVotes(q, seen, seen[|seen| - 1].pcm)
  {
  }

  /** A value that may be handed out. */
  predicate HasVotes(q: Request, seen: seq<Seen>, pcm: seq<Sample>) {
    q.policy.requiredMatches <= Count(q.Range(), seen, pcm) && q.tail <= pcm
  }

  /**
    A call hands out a block exactly when some value has the required votes among its complete reads and begins with
    the tail of the block before.
  */
  lemma SucceedsExactly(q: Request, seen: seq<Seen>, r: ReadResult)
    requires Verdict(q, seen, r) && ValidRequest(q)
    ensures r.status == ReadOk <==> exists pcm :: HasVotes(q, seen, pcm)
  {
    if r.status == ReadOk {
      DeliveredHasVotes(q, seen, r);
    } else if pcm: seq<Sample> :| HasVotes(q, seen, pcm) {
      SucceedsIff(q, seen, r, pcm);
    }
  }

  /**
    Without enough votes for any value, every attempt the policy allows was made, or else the clock said, in front of
    the next one and not before, that the budget has run out since the call began.
  */
  lemma GivesUpLate(q: Request, seen: seq<Seen>, times: seq<ClockRead>, r: ReadResult)
    requires Verdict(q, seen, r) && ValidRequest(q)
    requires Timed(q.policy, |seen|, times, r.verification.timeBudgetExhausted)
    requires forall pcm :: Count(q.Range(), seen, pcm) < q.policy.requiredMatches
    ensures r.verification.timeBudgetExhausted <==> |seen| < q.policy.maximumAttempts
    ensures |seen| < q.policy.maximumAttempts ==> |times| == |seen| + 1 && Late(q.policy, times, |seen|)
    ensures forall k :: 1 <= k < Min(|seen|, |times|) ==> !Late(q.policy, times, k)
  {
    if seen != [] { assert Count(q.Range(), seen, seen[|seen| - 1].pcm) < q.policy.requiredMatches; }
    if r.verification.timeBudgetExhausted {
      forall k | 1 <= k < |seen| ensures !Late(q.policy, times, k) {
        assert !Late(q.policy, times[..|seen|], k);
      }
    }
  }

  /** All of these are complete and agree. */
  ghost predicate Agreeing(w: Window, seen: seq<Seen>, pcm: seq<Sample>) {
    forall s <- seen :: Whole(w, s) && s.pcm == pcm
  }

  lemma {:induction false} AgreeingCount(w: Window, seen: seq<Seen>, pcm: seq<Sample>)
    requires Agreeing(w, seen, pcm)
    ensures Count(w, seen, pcm) == |seen|
  {
    if seen != [] { AgreeingCount(w, seen[..|seen| - 1], pcm); }
  }

  /**
    If the first answers that come are complete and agree, as many as matches are required, no reading of the clock in
    front of them is late, and they begin with the previous block's tail, the block is handed out after exactly those.
  */
  lemma PromptAgreementDelivers(q: Request, seen: seq<Seen>, times: seq<ClockRead>, r: ReadResult, pcm: seq<Sample>)
    requires Verdict(q, seen, r) && ValidRequest(q)
    requires Timed(q.policy, |seen|, times, r.verification.timeBudgetExhausted)
    requires Agreeing(q.Range(), seen[..Min(|seen|, q.policy.requiredMatches)], pcm) && q.tail <= pcm
    requires forall k :: 1 <= k < Min(|times|, q.policy.requiredMatches) ==> !Late(q.policy, times, k)
    ensures r.status == ReadOk && |seen| == q.policy.requiredMatches
  {
    var w, required := q.Range(), q.policy.requiredMatches;
    if |seen| < required {
      assert seen[..|seen|] == seen;
      AgreeingCount(w, seen, pcm);
      AllBelow(w, seen, pcm, required);
    } else {
      AgreeingCount(w, seen[..required], pcm);
      WinsAtOnce(w, seen, pcm, required);
      assert seen[..|seen|] == seen;
    }
  }

  /** Fewer answers than matches required cannot win. */
  lemma AllBelow(w: Window, seen: seq<Seen>, pcm: seq<Sample>, required: nat)
    requires Agreeing(w, seen, pcm) && |seen| < required
    ensures !Wins(w, seen, required)
  {
    AgreeingCount(w, seen, pcm);
  }

  lemma WinsAtOnce(w: Window, seen: seq<Seen>, pcm: seq<Sample>, required: nat)
    requires 0 < required <= |seen| && Agreeing(w, seen[..required], pcm)
    requires NoWin(w, seen[..|seen| - 1], required)
    ensures |seen| == required && Wins(w, seen, required) && seen[|seen| - 1].pcm == pcm
  {
    var first := seen[..required];
    AgreeingCount(w, first, pcm);
    assert first[|first| - 1] in first;
    assert Wins(w, first, required);
    if required < |seen| { NotYet(w, seen, required, required); }
    assert first == seen;
  }

  lemma NotYet(w: Window, seen: seq<Seen>, required: nat, n: nat)
    requires n < |seen| && NoWin(w, seen[..|seen| - 1], required)
    ensures !Wins(w, seen[..n], required)
  {
    assert seen[..|seen| - 1][..n] == seen[..n];
  }

  /** Whatever the faults, fewer than `requiredMatches` corrupt reads cannot get a wrong block accepted. */
  lemma AcceptedIsTrue(q: Request, seen: seq<Seen>, r: ReadResult, truth: seq<Sample>)
    requires Verdict(q, seen, r) && r.status == ReadOk
    requires Others(q.Range(), seen, truth) < q.policy.requiredMatches
    ensures seen[|seen| - 1].pcm == truth
  {
    TruthWins(q.Range(), seen, q.policy.requiredMatches, truth);
  }

  lemma {:induction false} CandidatesBounded(cands: seq<Candidate>)
    requires forall i :: 0 <= i < |cands| ==> 0 < cands[i].matches
    ensures |cands| <= SumMatches(cands) && Best(cands) <= SumMatches(cands)
    ensures forall i :: 0 <= i < |cands| ==> cands[i].matches <= Best(cands)
  {
    if cands != [] { CandidatesBounded(cands[..|cands| - 1]); }
  }

  /** The counters a result carries fit together: the consumer's consistency checks hold of every accepted block. */
  lemma EvidenceConsistent(q: Request, seen: seq<Seen>, r: ReadResult)
    requires Verdict(q, seen, r)
    ensures r.verification.completeReads == SumMatches(Votes(q.Range(), seen))
    ensures r.verification.matchingReads <= r.verification.completeReads <= r.verification.attempts
    ensures r.verification.attempts <= q.policy.maximumAttempts
    ensures r.status == ReadOk ==>
              && q.policy.requiredMatches <= r.verification.matchingReads
              && 1 <= r.verification.acceptedAttempt.value <= r.verification.attempts
              && 1 <= r.verification.acceptedCandidate.value <= r.verification.completeReads
  {
    var w, cands := q.Range(), Votes(q.Range(), seen);
    VotesAddUp(w, seen);
    CountsSplit(w, seen, []);
    CandidatesVoted(w, seen);
    CandidatesBounded(cands);
    if r.status == ReadOk {
      var i := IndexOf(cands, seen[|seen| - 1].pcm);
      VotesCover(w, seen, seen[|seen| - 1].pcm);
      VoteIsCount(w, seen, i);
    }
  }

  class RepeatedReadVerifier {
    const policy: RepeatPolicy
    const inner: LowerReader
    const clock: Clock
    var position: int
    var positioned: bool
    var priorTail: seq<Sample>

    /** The tail is whole frames read just before the position. */
    ghost predicate Valid()
      reads this, inner, inner.shift
    {
      && inner.Valid() && ValidRepeatPolicy(policy)
      && |priorTail| % 1176 == 0 && |priorTail| <= policy.overlapFrames * 1176
      && (positioned ==> 0 <= position <= MAX_I32 && |priorTail| / 1176 <= position)
    }

    ghost function Asked(frames: nat): Request
      reads this
    {
      Request(policy, priorTail, position, frames)
    }

    constructor (p: RepeatPolicy, reader: LowerReader, c: Clock)
      requires ValidRepeatPolicy(p) && reader.Valid()
      ensures Valid() && !positioned && policy == p && inner == reader && clock == c
    {
      policy, inner, clock, position, positioned, priorTail := p, reader, c, 0, false, [];
    }

    /** The position moves even if the reader underneath then throws. */
    method Seek(lba: int) returns (threw: bool)
      requires Valid() && lba <= MAX_I32
      modifies this, inner, inner.shift, inner.drive
      ensures Valid() && inner.answers == old(inner.answers)
      ensures lba < 0 ==> threw && Asked(0) == old(Asked(0)) && positioned == old(positioned)
      ensures 0 <= lba ==> positioned && position == lba && priorTail == []
      ensures 0 <= lba ==> (threw <==> inner.throws != old(inner.throws)) && clock.readings == old(clock.readings)
    {
      if lba < 0 { return true; }
      position, positioned, priorTail := lba, true, [];
      threw := inner.Seek(lba);
    }

    /** What `read` accepts here and now. */
    predicate Readable(samples: nat)
      reads this
    {
      positioned && 0 < samples && samples % 1176 == 0 && samples / 1176 <= MAX_I32 - position
    }

    /**
      Nothing is returned exactly when the arguments are refused or the reader underneath or the clock throws; then
      nothing changes.
    */
    method Read(pcm: array<Sample>)
        returns (r: Option<ReadResult>, ghost seen: seq<Seen>, ghost times: seq<ClockRead>)
      requires Valid()
      modifies this, pcm, inner, inner.shift, inner.drive, clock
      ensures r.None? <==> !old(Readable(pcm.Length)) || inner.throws != old(inner.throws) || ClockThrew in times
      ensures clock.readings == old(clock.readings) + times
      ensures r.Some? ==> Timed(policy, |seen|, times, r.value.verification.timeBudgetExhausted)
      ensures Valid() && Explained(inner, old(Asked(pcm.Length / 1176)).Range(), seen)
      ensures inner.answers == old(inner.answers) + Replies(old(Asked(pcm.Length / 1176)).Range(), seen)
      ensures r.None? ==> Asked(0) == old(Asked(0)) && positioned == old(positioned)
      ensures r.Some? ==> Verdict(old(Asked(pcm.Length / 1176)), seen, r.value)
      ensures r.None? || r.value.status != ReadOk ==> pcm[..] == old(pcm[..]) && position == old(position)
      ensures r.Some? && r.value.status != ReadOk ==> !positioned
      ensures r.Some? && r.value.status == ReadOk ==>
                seen[|seen| - 1].pcm == old(priorTail) + pcm[..]
                && positioned && position == old(position) + pcm.Length / 1176
      ensures r.Some? && r.value.status == ReadOk ==>
                && |priorTail| == Min(policy.overlapFrames * 1176, pcm.Length)
                && priorTail == pcm[pcm.Length - |priorTail|..]
    {
      if !positioned || pcm.Length == 0 || pcm.Length % 1176 != 0 { return None, [], []; }
      if MAX_I32 - position < pcm.Length / 1176 { return None, [], []; }
      r, seen, times := ReadChecked(pcm);
    }

    /** Behind the checks of the arguments. */
    method ReadChecked(pcm: array<Sample>)
        returns (r: Option<ReadResult>, ghost seen: seq<Seen>, ghost times: seq<ClockRead>)
      requires Valid() && Readable(pcm.Length)
      modifies this, pcm, inner, inner.shift, inner.drive, clock
      ensures r.None? <==> inner.throws != old(inner.throws) || ClockThrew in times
      ensures clock.readings == old(clock.readings) + times
      ensures r.Some? ==> Timed(policy, |seen|, times, r.value.verification.timeBudgetExhausted)
      ensures Valid() && Explained(inner, old(Asked(pcm.Length / 1176)).Range(), seen)
      ensures inner.answers == old(inner.answers) + Replies(old(Asked(pcm.Length / 1176)).Range(), seen)
      ensures r.None? ==> Asked(0) == old(Asked(0)) && positioned == old(positioned)
      ensures r.Some? ==> Verdict(old(Asked(pcm.Length / 1176)), seen, r.value)
      ensures r.None? || r.value.status != ReadOk ==> pcm[..] == old(pcm[..]) && position == old(position)
      ensures r.Some? && r.value.status != ReadOk ==> !positioned
      ensures r.Some? && r.value.status == ReadOk ==>
                seen[|seen| - 1].pcm == old(priorTail) + pcm[..]
                && positioned && position == old(position) + pcm.Length / 1176
      ensures r.Some? && r.value.status == ReadOk ==>
                && |priorTail| == Min(policy.overlapFrames * 1176, pcm.Length)
                && priorTail == pcm[pcm.Length - |priorTail|..]
    {
      var frames, won := pcm.Length / 1176, [];
      r, won, seen, times := Decide(inner, clock, Request(policy, priorTail, position, frames));
      if r.Some? && r.value.status == ReadOk {
        Deliver(pcm, won);
      } else if r.Some? {
        positioned := false;
      }
    }

    /** Hands out the winner without its overlap and keeps its tail for the next call. */
    method Deliver(pcm: array<Sample>, won: seq<Sample>)
      requires Valid() && positioned && 0 < pcm.Length && pcm.Length % 1176 == 0
      requires pcm.Length / 1176 <= MAX_I32 - position
      requires |won| == |priorTail| + pcm.Length
      modifies this`priorTail, this`position, pcm
      ensures Valid() && position == old(position) + pcm.Length / 1176
      ensures pcm[..] == won[|old(priorTail)|..]
      ensures |priorTail| == Min(policy.overlapFrames * 1176, pcm.Length)
      ensures priorTail == pcm[pcm.Length - |priorTail|..]
    {
      for i := 0 to pcm.Length
        invariant forall j :: 0 <= j < i ==> pcm[j] == won[|priorTail| + j]
        modifies pcm
      {
        pcm[i] := won[|priorTail| + i];
      }
      var tail := Min(policy.overlapFrames, pcm.Length / 1176) * 1176;
      priorTail := pcm[pcm.Length - tail..];
      position := position + pcm.Length / 1176;
    }
  }
}
