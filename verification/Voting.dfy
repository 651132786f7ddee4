/**
  How the repeated reader chooses (src/repeated_read_verifier.cpp): complete
  reads vote for the PCM they returned. The list of candidates is what the
  source keeps; counting the votes of a value is what it means.
*/
module Votings {
  import opened Basics
  import opened CddaReaders

  /** What the inner reader answered to one attempt. */
  datatype Seen = Seen(result: ReadResult, pcm: seq<Sample>)

  /** The range every attempt of one call asks for. */
  datatype Window = Window(start: int, frames: nat)

  datatype Candidate = Candidate(pcm: seq<Sample>, matches: nat, c2: C2Status)

  predicate Whole(w: Window, s: Seen) {
    s.result.status == ReadOk && s.result.startLba == w.start && s.result.framesRead == w.frames
  }

  // ---------------------------------------------------------------- merging C2 observations

  function Merge(earlier: C2Status, later: C2Status): C2Status {
    if earlier == C2Reported || later == C2Reported then C2Reported
    else if earlier == later then earlier
    else C2Unknown
  }

  lemma MergeIsJoin(a: C2Status, b: C2Status, c: C2Status)
    ensures Merge(a, Merge(b, c)) == Merge(Merge(a, b), c)
    ensures Merge(a, b) == Merge(b, a)
    ensures Merge(a, a) == a
  {
  }

  function MergeAll(statuses: seq<C2Status>): C2Status
    requires statuses != []
  {
    if |statuses| == 1 then statuses[0]
    else Merge(MergeAll(statuses[..|statuses| - 1]), statuses[|statuses| - 1])
  }

  predicate AllAre(statuses: seq<C2Status>, c: C2Status) {
    forall k :: 0 <= k < |statuses| ==> statuses[k] == c
  }

  /** Closed form: a report stays a report, agreement stays, anything else is unknown. */
  lemma {:induction false} MergeAllMeans(statuses: seq<C2Status>, c: C2Status)
    requires statuses != []
    ensures MergeAll(statuses) == C2Reported <==> C2Reported in statuses
    ensures c != C2Reported && c != C2Unknown ==> (MergeAll(statuses) == c <==> AllAre(statuses, c))
  {
    if 1 < |statuses| {
      var front, last := statuses[..|statuses| - 1], statuses[|statuses| - 1];
      MergeAllMeans(front, c);
      assert statuses == front + [last];
      assert AllAre(statuses, c) ==> AllAre(front, c);
      assert AllAre(front, c) && last == c ==> AllAre(statuses, c);
    }
  }

  /** The merged status depends only on which statuses occur, not on their order or number. */
  lemma MergeDependsOnSet(a: seq<C2Status>, b: seq<C2Status>)
    requires a != [] && b != [] && (forall c :: c in a <==> c in b)
    ensures MergeAll(a) == MergeAll(b)
  {
    SameAgreement(a, b, MergeAll(a));
    SameAgreement(a, b, MergeAll(b));
  }

  lemma SameAgreement(a: seq<C2Status>, b: seq<C2Status>, c: C2Status)
    requires a != [] && b != [] && (forall x :: x in a <==> x in b)
    ensures MergeAll(a) == C2Reported <==> MergeAll(b) == C2Reported
    ensures c != C2Unknown ==> (MergeAll(a) == c <==> MergeAll(b) == c)
  {
    MergeAllMeans(a, c);
    MergeAllMeans(b, c);
    if AllAre(a, c) {
      forall k | 0 <= k < |b| ensures b[k] == c { assert b[k] in a; }
    }
    if AllAre(b, c) {
      forall k | 0 <= k < |a| ensures a[k] == c { assert a[k] in b; }
    }
  }

  // ---------------------------------------------------------------- the meaning: counting

  /** How many complete reads returned `pcm`. */
  function Count(w: Window, seen: seq<Seen>, pcm: seq<Sample>): nat {
    if seen == [] then 0
    else
      var last := seen[|seen| - 1];
      Count(w, seen[..|seen| - 1], pcm) + (if Whole(w, last) && last.pcm == pcm then 1 else 0)
  }

  function CompleteReads(w: Window, seen: seq<Seen>): nat {
    if seen == [] then 0
    else CompleteReads(w, seen[..|seen| - 1]) + (if Whole(w, seen[|seen| - 1]) then 1 else 0)
  }

  /** The C2 statuses of the reads that returned `pcm`. */
  function Statuses(w: Window, seen: seq<Seen>, pcm: seq<Sample>): (r: seq<C2Status>)
    ensures |r| == Count(w, seen, pcm)
  {
    if seen == [] then []
    else
      var last := seen[|seen| - 1];
      var front := Statuses(w, seen[..|seen| - 1], pcm);
      if Whole(w, last) && last.pcm == pcm then front + [last.result.c2] else front
  }

  /** Complete reads that returned something else than `pcm`. */
  function Others(w: Window, seen: seq<Seen>, pcm: seq<Sample>): nat {
    if seen == [] then 0
    else
      var last := seen[|seen| - 1];
      Others(w, seen[..|seen| - 1], pcm) + (if Whole(w, last) && last.pcm != pcm then 1 else 0)
  }

  lemma {:induction false} CountsSplit(w: Window, seen: seq<Seen>, pcm: seq<Sample>)
    ensures Count(w, seen, pcm) + Others(w, seen, pcm) == CompleteReads(w, seen) <= |seen|
  {
    if seen != [] { CountsSplit(w, seen[..|seen| - 1], pcm); }
  }

  lemma {:induction false} CountWithin(w: Window, seen: seq<Seen>, pcm: seq<Sample>, truth: seq<Sample>)
    ensures pcm != truth ==> Count(w, seen, pcm) <= Others(w, seen, truth)
  {
    if seen != [] { CountWithin(w, seen[..|seen| - 1], pcm, truth); }
  }

  /** The last read completes and is the `required`-th to return its PCM. */
  predicate Wins(w: Window, seen: seq<Seen>, required: nat) {
    seen != [] && Whole(w, seen[|seen| - 1]) && required <= Count(w, seen, seen[|seen| - 1].pcm)
  }

  /** With fewer than `required` corrupt reads, only the true block can win. */
  lemma TruthWins(w: Window, seen: seq<Seen>, required: nat, truth: seq<Sample>)
    requires Wins(w, seen, required) && Others(w, seen, truth) < required
    ensures seen[|seen| - 1].pcm == truth
  {
    CountWithin(w, seen, seen[|seen| - 1].pcm, truth);
  }

  // ---------------------------------------------------------------- the source's candidate list

  function IndexOf(cands: seq<Candidate>, pcm: seq<Sample>): (i: nat)
    ensures i <= |cands|
    ensures i < |cands| ==> cands[i].pcm == pcm
    ensures forall j :: 0 <= j < i ==> cands[j].pcm != pcm
  {
    if cands == [] then 0
    else
      var i := IndexOf(cands[..|cands| - 1], pcm);
      if i < |cands| - 1 then i else if cands[|cands| - 1].pcm == pcm then i else |cands|
  }

  function Vote(cands: seq<Candidate>, pcm: seq<Sample>, c2: C2Status): seq<Candidate> {
    var i := IndexOf(cands, pcm);
    if i == |cands| then cands + [Candidate(pcm, 1, c2)]
    else cands[i := Candidate(pcm, cands[i].matches + 1, Merge(cands[i].c2, c2))]
  }

  function Votes(w: Window, seen: seq<Seen>): seq<Candidate> {
    if seen == [] then []
    else
      var front, last := Votes(w, seen[..|seen| - 1]), seen[|seen| - 1];
      if Whole(w, last) then Vote(front, last.pcm, last.result.c2) else front
  }

  predicate Distinct(cands: seq<Candidate>) {
    forall i, j :: 0 <= i < j < |cands| ==> cands[i].pcm != cands[j].pcm
  }

  function SumMatches(cands: seq<Candidate>): nat {
    if cands == [] then 0 else SumMatches(cands[..|cands| - 1]) + cands[|cands| - 1].matches
  }

  /** A candidate's counters are the votes its PCM received. */
  predicate Faithful(w: Window, seen: seq<Seen>, c: Candidate) {
    && c.matches == Count(w, seen, c.pcm) && 0 < c.matches
    && c.c2 == MergeAll(Statuses(w, seen, c.pcm))
  }

  /** No PCM value is listed twice. */
  lemma {:induction false} VotesDistinct(w: Window, seen: seq<Seen>)
    ensures Distinct(Votes(w, seen))
  {
    if seen != [] { VotesDistinct(w, seen[..|seen| - 1]); }
  }

  /** Exactly the values some complete read returned are listed. */
  lemma {:induction false} VotesCover(w: Window, seen: seq<Seen>, pcm: seq<Sample>)
    ensures 0 < Count(w, seen, pcm) <==> IndexOf(Votes(w, seen), pcm) < |Votes(w, seen)|
  {
    if seen != [] {
      var front, last := Votes(w, seen[..|seen| - 1]), seen[|seen| - 1];
      VotesCover(w, seen[..|seen| - 1], pcm);
      if Whole(w, last) {
        var cands := Vote(front, last.pcm, last.result.c2);
        if IndexOf(front, pcm) < |front| { assert cands[IndexOf(front, pcm)].pcm == pcm; }
        if last.pcm == pcm { assert cands[IndexOf(front, pcm)].pcm == pcm; }
        if IndexOf(cands, pcm) < |cands| && pcm != last.pcm { assert front[IndexOf(cands, pcm)].pcm == pcm; }
      }
    }
  }

  /** A listed value carries the votes and the merged status of the reads that returned it. */
  lemma {:induction false} VoteIsCount(w: Window, seen: seq<Seen>, i: nat)
    requires i < |Votes(w, seen)|
    ensures Faithful(w, seen, Votes(w, seen)[i])
  {
    var before, last := seen[..|seen| - 1], seen[|seen| - 1];
    var front, c := Votes(w, before), Votes(w, seen)[i];
    if i < |front| { VoteIsCount(w, before, i); }
    if Whole(w, last) && i == IndexOf(front, last.pcm) {
      VotesCover(w, before, c.pcm);
      var earlier := Statuses(w, before, c.pcm);
      assert (earlier + [last.result.c2])[..|earlier|] == earlier;
    } else if Whole(w, last) {
      VotesDistinct(w, seen);
      var at := IndexOf(front, last.pcm);
      assert Votes(w, seen)[at].pcm == last.pcm && (if i < at then true else at < i);
      assert c.pcm != last.pcm && c == front[i];
    }
  }

  lemma {:induction false} SumAfterVote(cands: seq<Candidate>, pcm: seq<Sample>, c2: C2Status)
    ensures SumMatches(Vote(cands, pcm, c2)) == SumMatches(cands) + 1
    ensures |Vote(cands, pcm, c2)| == if IndexOf(cands, pcm) == |cands| then |cands| + 1 else |cands|
  {
    var i, after := IndexOf(cands, pcm), Vote(cands, pcm, c2);
    if i == |cands| {
      assert after[..|cands|] == cands;
    } else {
      var last := |cands| - 1;
      if i == last {
        assert after[..last] == cands[..last];
      } else {
        SumAfterVote(cands[..last], pcm, c2);
        assert after[..last] == Vote(cands[..last], pcm, c2);
      }
    }
  }

  /** Every complete read voted once. */
  lemma {:induction false} VotesAddUp(w: Window, seen: seq<Seen>)
    ensures SumMatches(Votes(w, seen)) == CompleteReads(w, seen)
  {
    if seen != [] {
      VotesAddUp(w, seen[..|seen| - 1]);
      if Whole(w, seen[|seen| - 1]) {
        SumAfterVote(Votes(w, seen[..|seen| - 1]), seen[|seen| - 1].pcm, seen[|seen| - 1].result.c2);
      }
    }
  }
}
