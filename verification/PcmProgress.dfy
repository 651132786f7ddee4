/**
  A stream that nothing disturbs is read to its end: from its start on, however
  the drive stood before, the thread goes on as long as the drive answers and
  the caller pops, and never goes on for ever.
*/
module PcmProgress {
  import opened PcmMonitor
  import opened PcmProtocol
  import opened PcmSafety

  /** The drive gives a reader and whole reads; the caller does nothing but pop. */
  predicate Undisturbed(s: Sys, e: Event) {
    || e.PopCall?
    || (e.Work? && e.answer.Returned? && e.answer.nonNull && e.answer.ok && e.answer.framesRead == NextFrames(s.l))
  }

  predicate UndisturbedRun(s: Sys, es: seq<Event>)
    decreases es
  {
    es == [] || (Enabled(s, es[0]) && Undisturbed(s, es[0]) && UndisturbedRun(Next(s, es[0]), es[1..]))
  }

  /** Where such a run ends. */
  function End(s: Sys, es: seq<Event>): Sys
    requires UndisturbedRun(s, es)
    decreases es
  {
    if es == [] then s else End(Next(s, es[0]), es[1..])
  }

  function Works(es: seq<Event>): nat {
    if es == [] then 0 else (if es[0].Work? then 1 else 0) + Works(es[1..])
  }

  // ---------------------------------------------------------------- the thread leaves only when told to

  ghost predicate LeavesClosing(s: Sys) { s.at.ExitRun? || s.at.Exited? ==> s.m.closing }

  lemma {:induction false} RunLeavesClosing(run: seq<Sys>)
    requires IsRun(run)
    ensures LeavesClosing(run[|run| - 1])
    decreases run
  {
    if 1 < |run| {
      RunFront(run);
      RunLeavesClosing(run[..|run| - 1]);
      var last := run[|run| - 2];
      var e :| Enabled(last, e) && Next(last, e) == run[|run| - 1];
      if e.Work? { WorkLeavesClosing(last, e.answer); } else { ControlLeavesClosing(last, e); }
    }
  }

  lemma ControlLeavesClosing(s: Sys, e: Event)
    requires LeavesClosing(s) && Enabled(s, e) && !e.Work?
    ensures LeavesClosing(ControlStep(s, e))
  {
  }

  lemma WorkLeavesClosing(s: Sys, answer: Answer)
    requires LeavesClosing(s) && Enabled(s, Work(answer))
    ensures LeavesClosing(WorkStep(s, answer))
  {
    if InLoop(s.at) { LoopLeavesClosing(s, answer); }
  }

  lemma LoopLeavesClosing(s: Sys, answer: Answer)
    requires LeavesClosing(s) && InLoop(s.at)
    ensures LeavesClosing(ReadStep(s, answer))
  {
  }

  lemma ReachableLeavesClosing(s: Sys)
    requires Reachable(s)
    ensures LeavesClosing(s)
  {
    var run :| IsRun(run) && run[|run| - 1] == s;
    RunLeavesClosing(run);
  }

  // ---------------------------------------------------------------- on course

  /** A thread that works for the stream has had what it asked for. */
  predicate PointOk(s: Sys) {
    match s.at
    case ExitRun => false
    case Exited => false
    case CatchRun => Stale(s)
    case CatchDone => Stale(s)
    case OpenDone => Stale(s) || s.reader
    case NullCheck => Stale(s) || s.reader
    case ReadDone(entry) => Stale(s) || (entry.ok && entry.framesRead == NextFrames(s.l))
    case AfterRead(entry) => Stale(s) || (entry.ok && entry.framesRead == NextFrames(s.l))
    case _ => true
  }

  ghost predicate OnCourse(s: Sys) { Inv(s) && !s.m.closing && s.m.stream.active && PointOk(s) }

  /** Everything has been read. */
  ghost predicate Finished(s: Sys) {
    Inv(s) && !s.m.closing && s.m.stream.done && s.at.Top? && !s.m.drive.discardReader
  }

  /** Steps to the next block, or, for a thread that works for an older stream, to the top of its loop. */
  function PointRank(at: Point, stale: bool): nat {
    match at
    case LoopHead => if stale then 30 else 6
    case ReadAdmit => if stale then 29 else 5
    case ReadRun => if stale then 28 else 4
    case ReadDone(_) => if stale then 27 else 3
    case AfterRead(_) => if stale then 26 else 2
    case Push => if stale then 25 else 1
    case EndStream => if stale then 24 else 0
    case SeekDone => if stale then 31 else 8
    case SeekRun => if stale then 32 else 9
    case SeekAdmit => if stale then 33 else 10
    case SeekMark => if stale then 34 else 11
    case AfterOpen => if stale then 35 else 12
    case NullCheck => if stale then 36 else 13
    case OpenDone => if stale then 37 else 14
    case OpenRun => if stale then 38 else 15
    case OpenAdmit => if stale then 39 else 16
    case NeedReader => if stale then 40 else 17
    case CatchRun => 24
    case CatchDone => 23
    case Retired => 23
    case DiscardRun => 20
    case DiscardDone => 19
    case _ => 18
  }

  /** At most so many steps of the thread are left: eight for a frame, and the way there. */
  function Rank(s: Sys): int {
    8 * (s.m.stream.end - Position(s)) + PointRank(s.at, Stale(s))
    + if s.m.drive.discardReader && (s.at.Top? || s.at.DiscardRun? || s.at.DiscardDone?) then 3 else 0
  }

  /** One step further in the same stream. */
  ghost predicate Further(s: Sys, s': Sys) {
    && s'.m.stream.generation == s.m.stream.generation && s'.m.stream.begin == s.m.stream.begin
    && s'.m.stream.end == s.m.stream.end
    && (Finished(s') || (OnCourse(s') && Rank(s') < Rank(s)))
  }

  lemma TopFurther(s: Sys)
    requires OnCourse(s) && s.at.Top?
    ensures Further(s, TopStep(s))
  {
    TopKeepsInv(s);
    assert Blocks(TopStep(s)) == Blocks(s);
  }

  lemma OpenFurther(s: Sys, answer: Answer)
    requires OnCourse(s) && Opening(s.at) && answer.Returned? && answer.nonNull
    ensures Further(s, OpenStep(s, answer))
  {
    OpenKeepsInv(s, answer);
    assert Blocks(OpenStep(s, answer)) == Blocks(s);
    assert !Stale(s) ==> Current(s);
  }

  lemma SeekFurther(s: Sys, answer: Answer)
    requires OnCourse(s) && SeekingStart(s.at) && answer.Returned?
    ensures Further(s, SeekStep(s, answer))
  {
    SeekKeepsInv(s, answer);
    assert Blocks(SeekStep(s, answer)) == Blocks(s);
    assert !Stale(s) ==> Current(s);
  }

  lemma PushFurther(s: Sys)
    requires OnCourse(s) && s.at.Push?
    ensures Further(s, PushStep(s))
  {
    PushKeepsInv(s);
    if !Stale(s) {
      assert Current(s);
      var b := Block(s.l.generation, s.l.position, NextFrames(s.l));
      assert Blocks(PushStep(s)) == Blocks(s) + [b];
    } else {
      assert Blocks(PushStep(s)) == Blocks(s);
    }
  }

  lemma ReadFurther(s: Sys, answer: Answer)
    requires OnCourse(s) && InLoop(s.at) && !s.at.Push? && Enabled(s, Work(answer))
    requires answer.Returned? && answer.ok && answer.framesRead == NextFrames(s.l)
    ensures Further(s, ReadStep(s, answer))
  {
    match s.at
    case LoopHead => LoopFurther(s);
    case ReadDone(entry) => ObserveFurther(s, entry);
    case _ => MoveFurther(s, answer);
  }

  lemma LoopFurther(s: Sys)
    requires OnCourse(s) && s.at.LoopHead? && Enabled(s, Work(Threw))
    ensures Further(s, LoopStep(s))
  {
    LoopKeepsInv(s);
    assert Blocks(LoopStep(s)) == Blocks(s);
    assert !Stale(s) ==> Current(s);
  }

  lemma ObserveFurther(s: Sys, entry: ReadEntry)
    requires OnCourse(s) && s.at == ReadDone(entry)
    ensures Further(s, ObserveStep(s, entry))
  {
    ObserveKeepsInv(s, entry);
    assert Blocks(ObserveStep(s, entry)) == Blocks(s);
  }

  lemma MoveFurther(s: Sys, answer: Answer)
    requires OnCourse(s) && (s.at.ReadAdmit? || s.at.ReadRun? || s.at.AfterRead?)
    requires answer.Returned? && answer.ok && answer.framesRead == NextFrames(s.l)
    ensures Further(s, ReadStep(s, answer))
  {
    assert !Stale(s) ==> Current(s);
    var s' := ReadStep(s, answer);
    MoveKeepsInv(s, s'.at);
    assert s' == s.(at := s'.at) && Blocks(s') == Blocks(s);
  }

  lemma EndFurther(s: Sys)
    requires OnCourse(s) && !s.at.Top? && !Opening(s.at) && !SeekingStart(s.at) && !InLoop(s.at)
    ensures Further(s, EndStep(s))
  {
    EndKeepsInv(s);
    assert Blocks(EndStep(s)) == Blocks(s);
    assert !Stale(s) && s.at.EndStream? ==> Current(s);
  }

  lemma WorkFurther(s: Sys, e: Event)
    requires OnCourse(s) && Enabled(s, e) && Undisturbed(s, e) && e.Work?
    ensures Further(s, Next(s, e))
  {
    if s.at.Top? { TopFurther(s); }
    else if Opening(s.at) { OpenFurther(s, e.answer); }
    else if SeekingStart(s.at) { SeekFurther(s, e.answer); }
    else if s.at.Push? { PushFurther(s); }
    else if InLoop(s.at) { ReadFurther(s, e.answer); }
    else { EndFurther(s); }
  }

  lemma PopFurther(s: Sys)
    requires OnCourse(s) && Enabled(s, PopCall)
    ensures OnCourse(Next(s, PopCall)) && Rank(Next(s, PopCall)) == Rank(s)
  {
    NextKeepsInv(s, PopCall);
    assert Blocks(Next(s, PopCall)) == Blocks(s);
  }

  lemma FinishedStays(s: Sys, e: Event)
    requires Finished(s) && Enabled(s, e) && Undisturbed(s, e)
    ensures e.PopCall? && Finished(Next(s, e))
  {
    NextKeepsInv(s, e);
  }

  lemma RankNotNegative(s: Sys)
    requires OnCourse(s)
    ensures 0 <= Rank(s)
  {
  }

  // ---------------------------------------------------------------- over a whole run

  predicate SameStream(a: Sys, b: Sys) {
    && b.m.stream.generation == a.m.stream.generation && b.m.stream.begin == a.m.stream.begin
    && b.m.stream.end == a.m.stream.end
  }

  lemma {:induction false} FinishedRun(s: Sys, es: seq<Event>)
    requires Finished(s) && UndisturbedRun(s, es)
    ensures Finished(End(s, es)) && SameStream(s, End(s, es)) && Works(es) == 0
    decreases es
  {
    if es != [] {
      FinishedStays(s, es[0]);
      FinishedRun(Next(s, es[0]), es[1..]);
    }
  }

  lemma {:induction false} OnCourseRun(s: Sys, es: seq<Event>)
    requires OnCourse(s) && UndisturbedRun(s, es)
    ensures SameStream(s, End(s, es))
    ensures Finished(End(s, es)) || OnCourse(End(s, es))
    ensures Works(es) <= Rank(s) + 1
    ensures OnCourse(End(s, es)) ==> Works(es) + Rank(End(s, es)) <= Rank(s)
    decreases es
  {
    RankNotNegative(s);
    if es != [] {
      var next := Next(s, es[0]);
      if es[0].Work? { WorkFurther(s, es[0]); } else { PopFurther(s); }
      if OnCourse(next) { OnCourseRun(next, es[1..]); } else { FinishedRun(next, es[1..]); }
      NotBoth(End(s, es));
    }
  }

  lemma NotBoth(s: Sys)
    ensures !(OnCourse(s) && Finished(s))
  {
  }

  lemma StartOnCourse(s: Sys, begin: int, end: int)
    requires Reachable(s) && Enabled(s, StartCall(begin, end))
    ensures var s' := Next(s, StartCall(begin, end));
            OnCourse(s') && s'.m.stream.begin == begin && s'.m.stream.end == end
            && s'.m.stream.generation == s.m.stream.generation + 1 && Rank(s') <= 8 * (end - begin) + 43
  {
    ReachableInv(s);
    ReachableLeavesClosing(s);
    NextKeepsInv(s, StartCall(begin, end));
    assert Blocks(Next(s, StartCall(begin, end))) == [];
  }

  /** The queue and what callers took of the stream reach its end. */
  predicate WholeStream(s: Sys, begin: int, end: int) {
    s.m.stream.done && Reach(s.popped + s.m.stream.queue, begin) == end
  }

  /**
    A stream started and left undisturbed is read to its end: wherever the thread stood, it takes at most eight steps
    for each frame and forty-four besides; and until everything is read it can go on, or the caller can pop.
  */
  lemma StreamFinishes(s: Sys, begin: int, end: int, es: seq<Event>)
    requires Reachable(s) && Enabled(s, StartCall(begin, end))
    requires UndisturbedRun(Next(s, StartCall(begin, end)), es)
    ensures Works(es) <= 8 * (end - begin) + 44
    ensures var now := End(Next(s, StartCall(begin, end)), es);
            && now.m.stream.generation == s.m.stream.generation + 1
            && (WholeStream(now, begin, end)
                || Enabled(now, Work(Returned(true, 0, NextFrames(now.l), true))) || Enabled(now, PopCall))
  {
    StartOnCourse(s, begin, end);
    var s0 := Next(s, StartCall(begin, end));
    OnCourseRun(s0, es);
    var now := End(s0, es);
    if OnCourse(now) { NeverStuck(now); }
  }

  lemma NeverStuck(s: Sys)
    requires OnCourse(s)
    ensures Enabled(s, Work(Returned(true, 0, NextFrames(s.l), true))) || Enabled(s, PopCall)
  {
    assert s.at.LoopHead? && !Stale(s) ==> Current(s);
  }

  /** The next step of such a run: the thread's if it can take one, and else a pop. */
  function NextEvent(s: Sys): Event {
    var work := Work(Returned(true, s.l.position, NextFrames(s.l), true));
    if Enabled(s, work) then work else PopCall
  }

  /** And it can be: some run reads it all, and the caller takes every block. */
  lemma {:induction false} ReadsAll(s: Sys) returns (es: seq<Event>)
    requires OnCourse(s) || Finished(s)
    ensures UndisturbedRun(s, es) && Finished(End(s, es)) && End(s, es).m.stream.queue == []
    ensures SameStream(s, End(s, es))
    decreases if OnCourse(s) then Rank(s) + 1 else 0, |s.m.stream.queue|
  {
    if Finished(s) && s.m.stream.queue == [] {
      es := [];
    } else {
      var e := NextEvent(s);
      var next := Next(s, e);
      StepOn(s);
      var rest := ReadsAll(next);
      es := [e] + rest;
      assert es[1..] == rest;
    }
  }

  lemma StepOn(s: Sys)
    requires OnCourse(s) || (Finished(s) && s.m.stream.queue != [])
    ensures var e := NextEvent(s);
            && Enabled(s, e) && Undisturbed(s, e) && SameStream(s, Next(s, e))
            && (OnCourse(Next(s, e)) || Finished(Next(s, e)))
            && if OnCourse(s) && e.Work? then OnCourse(Next(s, e)) ==> 0 <= Rank(Next(s, e)) < Rank(s)
               else |Next(s, e).m.stream.queue| < |s.m.stream.queue| && (OnCourse(s) <==> OnCourse(Next(s, e)))
                    && (OnCourse(s) ==> Rank(Next(s, e)) == Rank(s))
  {
    var e := NextEvent(s);
    if OnCourse(s) {
      NotBoth(s);
      NeverStuck(s);
      RankNotNegative(s);
      if e.Work? { WorkFurther(s, e); } else { PopFurther(s); }
      if OnCourse(Next(s, e)) { RankNotNegative(Next(s, e)); }
    } else {
      FinishedStays(s, e);
      NotBoth(Next(s, e));
    }
  }

  /** A stream started from any state a worker can be in can be read and popped whole. */
  lemma StreamRunExists(s: Sys, begin: int, end: int) returns (es: seq<Event>)
    requires Reachable(s) && Enabled(s, StartCall(begin, end))
    ensures UndisturbedRun(Next(s, StartCall(begin, end)), es)
    ensures var now := End(Next(s, StartCall(begin, end)), es);
            now.m.stream.done && now.m.stream.queue == [] && Reach(now.popped, begin) == end
  {
    StartOnCourse(s, begin, end);
    es := ReadsAll(Next(s, StartCall(begin, end)));
    var now := End(Next(s, StartCall(begin, end)), es);
    assert now.popped + now.m.stream.queue == now.popped;
  }
}
