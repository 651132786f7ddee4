/**
  What holds in every reachable state of the PCM worker.
*/
module PcmSafety {
  import opened Basics
  import opened PcmMonitor
  import opened PcmProtocol

  // ------------------------------------------------------------ contiguous blocks

  /** Blocks of one generation that follow each other without gap or overlap, starting at `begin`. */
  ghost predicate Chain(bs: seq<Block>, generation: nat, begin: int)
  {
    bs == [] ||
    (var front := bs[..|bs| - 1];
     var b := bs[|bs| - 1];
     Chain(front, generation, begin) && b.generation == generation && 0 < b.frames && b.lba == Reach(front, begin))
  }

  function Reach(bs: seq<Block>, begin: int): int {
    if bs == [] then begin else bs[|bs| - 1].EndLba()
  }

  lemma ChainAppend(bs: seq<Block>, generation: nat, begin: int, b: Block)
    requires Chain(bs, generation, begin) && b.lba == Reach(bs, begin) && 0 < b.frames && b.generation == generation
    ensures Chain(bs + [b], generation, begin) && Reach(bs + [b], begin) == b.EndLba()
  {
    assert (bs + [b])[..|bs|] == bs;
  }

  lemma {:induction false} ChainPrefix(bs: seq<Block>, rest: seq<Block>, generation: nat, begin: int)
    requires Chain(bs + rest, generation, begin)
    ensures Chain(bs, generation, begin)
    ensures Reach(bs, begin) <= Reach(bs + rest, begin)
    decreases rest
  {
    if rest == [] {
      assert bs + rest == bs;
    } else {
      var front := rest[..|rest| - 1];
      assert (bs + rest)[..|bs + rest| - 1] == bs + front;
      ChainPrefix(bs, front, generation, begin);
    }
  }

  /** A chain's blocks tile the interval from its beginning to its reach: every LBA of it is in exactly one block. */
  lemma {:induction false} ChainTiles(bs: seq<Block>, generation: nat, begin: int, lba: int)
    requires Chain(bs, generation, begin)
    ensures begin <= Reach(bs, begin)
    ensures (exists i :: 0 <= i < |bs| && bs[i].lba <= lba < bs[i].EndLba()) <==> begin <= lba < Reach(bs, begin)
    ensures forall i, j :: 0 <= i < j < |bs| ==> bs[i].EndLba() <= bs[j].lba
    decreases bs
  {
    if bs != [] {
      var front := bs[..|bs| - 1];
      ChainTiles(front, generation, begin, lba);
      forall i, j | 0 <= i < j < |bs| ensures bs[i].EndLba() <= bs[j].lba {
        if j < |front| {
          assert front[i].EndLba() <= front[j].lba;
        } else if i < |front| - 1 {
          assert front[i].EndLba() <= front[|front| - 1].lba;
        }
      }
      if begin <= lba < Reach(front, begin) {
        var i :| 0 <= i < |front| && front[i].lba <= lba < front[i].EndLba();
        assert bs[i].lba <= lba < bs[i].EndLba();
      }
      forall i | 0 <= i < |bs| && bs[i].lba <= lba < bs[i].EndLba() ensures begin <= lba < Reach(bs, begin) {
        if i < |front| { assert front[i].lba <= lba < front[i].EndLba(); }
      }
    }
  }

  // ------------------------------------------------------------ the invariant

  /** The thread works for the current stream. */
  predicate Current(s: Sys) {
    !Stale(s)
    && (Opening(s.at) || SeekingStart(s.at) || InLoop(s.at) || s.at.EndStream? || s.at.CatchRun? || s.at.CatchDone?)
  }

  /** Points between "call marked in flight" and "call over". */
  predicate MarkedInflight(at: Point) {
    at.OpenAdmit? || at.OpenRun? || at.OpenDone? || at.SeekAdmit? || at.SeekRun? || at.SeekDone?
    || at.ReadAdmit? || at.ReadRun? || at.ReadDone? || at.DiscardRun? || at.DiscardDone?
  }

  predicate NeedsReader(at: Point) { at.AfterOpen? || SeekingStart(at) || InLoop(at) }

  /** Who holds the drive; the flags are set no longer than they have to be. */
  ghost predicate DriveOk(drive: Drive, at: Point, reader: bool) {
    && (MarkedInflight(at) ==> drive.callInflight)
    && (drive.callInflight ==> MarkedInflight(at) || at.Retired? || at.CatchRun? || at.CatchDone?)
    && (reader ==> drive.readerOpen || at.OpenDone?)
    && (drive.readerOpen && !reader ==> at.DiscardDone? || at.CatchDone? || at.Exited?)
    && (NeedsReader(at) ==> reader)
    && (at.OpenAdmit? || at.OpenRun? || at.DiscardDone? || at.CatchDone? || at.Exited? ==> !reader)
  }

  /** What callers took and what is queued, in order. */
  function Blocks(s: Sys): seq<Block> { s.popped + s.m.stream.queue }

  function Position(s: Sys): int { Reach(Blocks(s), s.m.stream.begin) }

  ghost predicate StreamOk(s: Sys) {
    var st := s.m.stream;
    && Chain(Blocks(s), st.generation, st.begin)
    && |st.queue| <= s.streamCapacity
    && (st.active ==> 0 <= st.begin < st.end && s.m.setup.capacityBlocks == s.streamCapacity && !st.done)
    && (st.active && !Current(s) ==> Blocks(s) == [])
    && (st.done ==> Position(s) == st.end)
    && (st.active ==> Position(s) <= st.end)
    && (!st.done && !st.active ==> st.queue == [])
    && (st.failed ==> !st.active && !st.done)
  }

  /** The thread's copies agree with the stream it works for. */
  ghost predicate LocalsOk(s: Sys) {
    && 0 < s.l.readBlock && s.l.generation <= s.m.stream.generation
    && (Current(s) ==>
          && s.m.stream.active && !s.m.drive.discardReader
          && s.l.end == s.m.stream.end && s.l.capacity == s.streamCapacity
          && s.l.readBlock == s.m.setup.readBlock && 0 < s.l.capacity
          && (Opening(s.at) || SeekingStart(s.at) ==> Blocks(s) == [] && s.l.position == s.m.stream.begin)
          && (InLoop(s.at) || s.at.EndStream? ==> s.l.position == Position(s))
          && (InLoop(s.at) && !s.at.LoopHead? ==> s.l.position < s.l.end && |s.m.stream.queue| < s.l.capacity)
          && (s.at.EndStream? ==> s.l.position == s.l.end))
    && (s.at.Retired? ==> Stale(s))
  }

  /** The history holds exactly the newest reads of the stream. */
  ghost predicate HistoryOk(h: History, observed: seq<ReadEntry>) {
    && h.readCalls == |observed| == h.evicted + |h.recent|
    && |h.recent| == Min(|observed|, HISTORY_CAPACITY)
    && h.recent == observed[h.evicted..]
  }

  /** The buffer has room for a block. */
  predicate SetupOk(u: Setup) {
    0 < u.readBlock && 0 < u.capacityBlocks && ValidConfig(u.config)
  }

  lemma RoomForABlock(config: BufferConfig, readBlock: nat)
    requires 0 < readBlock <= config.capacityCdFrames
    ensures 0 < CapacityBlocks(config, readBlock)
  {
  }

  ghost predicate Inv(s: Sys) {
    && DriveOk(s.m.drive, s.at, s.reader) && SetupOk(s.m.setup)
    && (!s.m.closing ==> StreamOk(s) && LocalsOk(s) && HistoryOk(s.m.history, s.observed))
  }

  // ------------------------------------------------------------ preservation

  lemma ControlKeepsInv(s: Sys, e: Event)
    requires Inv(s) && Enabled(s, e) && !e.Work?
    ensures Inv(ControlStep(s, e))
  {
    if e.PopCall? {
      assert Blocks(ControlStep(s, e)) == Blocks(s);
    } else if e.ReconfigureCall? {
      RoomForABlock(s.m.setup.config, e.readBlock);
    }
  }

  lemma TopKeepsInv(s: Sys)
    requires Inv(s) && s.at.Top? && Enabled(s, Work(Threw))
    ensures Inv(TopStep(s))
  {
    var s1 := TopStep(s);
    assert Blocks(s1) == Blocks(s);
    if s1.at.NeedReader? && !s.m.closing {
      assert Blocks(s) == [];
      assert LocalsOk(s1);
    }
  }

  lemma OpenKeepsInv(s: Sys, answer: Answer)
    requires Inv(s) && Opening(s.at)
    ensures Inv(OpenStep(s, answer))
  {
    var s1 := OpenStep(s, answer);
    assert s1.m.stream == s.m.stream && Blocks(s1) == Blocks(s);
  }

  lemma SeekKeepsInv(s: Sys, answer: Answer)
    requires Inv(s) && SeekingStart(s.at)
    ensures Inv(SeekStep(s, answer))
  {
    var s1 := SeekStep(s, answer);
    assert s1.m.stream == s.m.stream && Blocks(s1) == Blocks(s);
  }

  lemma LoopKeepsInv(s: Sys)
    requires Inv(s) && s.at.LoopHead? && Enabled(s, Work(Threw))
    ensures Inv(LoopStep(s))
  {
    var s1 := LoopStep(s);
    assert Blocks(s1) == Blocks(s) && s1.m.stream == s.m.stream;
    assert DriveOk(s1.m.drive, s1.at, s1.reader);
    if !s.m.closing { assert LocalsOk(s1); }
  }

  /** Recording one more read keeps the newest ones. */
  lemma RecordKeepsHistory(h: History, observed: seq<ReadEntry>, entry: ReadEntry)
    requires HistoryOk(h, observed)
    ensures HistoryOk(Record(h, entry), observed + [entry])
  {
  }

  lemma ObserveKeepsInv(s: Sys, entry: ReadEntry)
    requires Inv(s) && s.at == ReadDone(entry)
    ensures Inv(ObserveStep(s, entry))
  {
    assert Blocks(ObserveStep(s, entry)) == Blocks(s);
    if !s.m.closing { RecordKeepsHistory(s.m.history, s.observed, entry); }
  }

  lemma PushKeepsInv(s: Sys)
    requires Inv(s) && s.at.Push?
    ensures Inv(PushStep(s))
  {
    if s.m.closing || Stale(s) {
      assert Blocks(PushStep(s)) == Blocks(s);
    } else {
      var b := Block(s.l.generation, s.l.position, NextFrames(s.l));
      assert Current(s);
      ChainAppend(Blocks(s), s.m.stream.generation, s.m.stream.begin, b);
      assert Blocks(PushStep(s)) == Blocks(s) + [b];
    }
  }

  lemma ReadKeepsInv(s: Sys, answer: Answer)
    requires Inv(s) && InLoop(s.at) && Enabled(s, Work(answer))
    ensures Inv(ReadStep(s, answer))
  {
    match s.at
    case LoopHead => LoopKeepsInv(s);
    case ReadDone(entry) => ObserveKeepsInv(s, entry);
    case Push => PushKeepsInv(s);
    case ReadAdmit => MoveKeepsInv(s, if Superseded(s) then Retired else ReadRun);
    case ReadRun => MoveKeepsInv(s, ReadStep(s, answer).at);
    case AfterRead(_) => MoveKeepsInv(s, ReadStep(s, answer).at);
  }

  /** A step of the read loop that changes nothing but where the thread stands. */
  lemma MoveKeepsInv(s: Sys, at: Point)
    requires Inv(s)
    requires || (s.at.ReadAdmit? && at == if Superseded(s) then Retired else ReadRun)
             || (s.at.ReadRun? && (at.CatchRun? || at.ReadDone?))
             || (s.at.AfterRead? && (at.CatchRun? || at.Push?))
    ensures Inv(s.(at := at))
  {
    assert Blocks(s.(at := at)) == Blocks(s);
  }

  lemma FinishKeepsInv(s: Sys)
    requires Inv(s) && s.at.EndStream?
    ensures Inv(FinishStep(s))
  {
    assert Blocks(FinishStep(s)) == Blocks(s);
  }

  lemma FailKeepsInv(s: Sys)
    requires Inv(s) && s.at.CatchDone?
    ensures Inv(FailStep(s))
  {
    if !s.m.closing {
      ChainPrefix(s.popped, s.m.stream.queue, s.m.stream.generation, s.m.stream.begin);
      assert FailStep(s).m.stream.queue == [] ==> Blocks(FailStep(s)) == s.popped;
    }
  }

  lemma EndKeepsInv(s: Sys)
    requires Inv(s) && !s.at.Top? && !Opening(s.at) && !SeekingStart(s.at) && !InLoop(s.at)
    ensures Inv(EndStep(s))
  {
    if s.at.EndStream? { FinishKeepsInv(s); }
    else if s.at.CatchDone? { FailKeepsInv(s); }
    else if s.at.DiscardDone? || s.at.Retired? { ClearFlagsKeepsInv(s); }
    else if s.at.Exited? { assert EndStep(s) == s; }
    else { DropReaderKeepsInv(s, EndStep(s).at); }
  }

  lemma DropReaderKeepsInv(s: Sys, at: Point)
    requires Inv(s)
    requires (s.at.DiscardRun? && at.DiscardDone?) || (s.at.ExitRun? && at.Exited?) || (s.at.CatchRun? && at.CatchDone?)
    ensures Inv(s.(reader := false, at := at))
  {
    assert Blocks(s.(reader := false, at := at)) == Blocks(s);
  }

  lemma ClearFlagsKeepsInv(s: Sys)
    requires Inv(s) && (s.at.DiscardDone? || s.at.Retired?)
    ensures Inv(EndStep(s))
  {
    assert Blocks(EndStep(s)) == Blocks(s) && EndStep(s).m.stream == s.m.stream;
  }

  lemma NextKeepsInv(s: Sys, e: Event)
    requires Inv(s) && Enabled(s, e)
    ensures Inv(Next(s, e))
  {
    if !e.Work? { ControlKeepsInv(s, e); }
    else if s.at.Top? { TopKeepsInv(s); }
    else if Opening(s.at) { OpenKeepsInv(s, e.answer); }
    else if SeekingStart(s.at) { SeekKeepsInv(s, e.answer); }
    else if InLoop(s.at) { ReadKeepsInv(s, e.answer); }
    else { EndKeepsInv(s); }
  }

  lemma InitialKeepsInv(s: Sys)
    requires IsInitial(s)
    ensures Inv(s)
  {
    var config, readBlock :|
      ValidConfig(config) && ValidReadBlock(config, readBlock) && s == Initial(config, readBlock);
    RoomForABlock(config, readBlock);
  }

  lemma StepKeepsInv(s: Sys, s': Sys)
    requires Inv(s) && Step(s, s')
    ensures Inv(s')
  {
    var e :| Enabled(s, e) && Next(s, e) == s';
    NextKeepsInv(s, e);
  }

  /** A run without its last step. */
  lemma RunFront(run: seq<Sys>)
    requires IsRun(run) && 1 < |run|
    ensures IsRun(run[..|run| - 1]) && Step(run[|run| - 2], run[|run| - 1])
  {
    var front := run[..|run| - 1];
    forall i | 0 <= i < |front| - 1 ensures Step(front[i], front[i + 1]) { assert Step(run[i], run[i + 1]); }
    assert Step(run[|run| - 2], run[|run| - 2 + 1]);
  }

  lemma {:induction false} RunKeepsInv(run: seq<Sys>)
    requires IsRun(run)
    ensures Inv(run[|run| - 1])
    decreases run
  {
    if |run| == 1 {
      InitialKeepsInv(run[0]);
    } else {
      RunFront(run);
      RunKeepsInv(run[..|run| - 1]);
      StepKeepsInv(run[|run| - 2], run[|run| - 1]);
    }
  }

  lemma ReachableInv(s: Sys)
    requires Reachable(s)
    ensures Inv(s)
  {
    var run :| IsRun(run) && run[|run| - 1] == s;
    RunKeepsInv(run);
  }

  lemma ReachableNext(s: Sys, e: Event)
    requires Reachable(s) && Enabled(s, e)
    ensures Reachable(Next(s, e))
  {
    var run :| IsRun(run) && run[|run| - 1] == s;
    var longer := run + [Next(s, e)];
    forall i | 0 <= i < |longer| - 1 ensures Step(longer[i], longer[i + 1]) {
      if i < |run| - 1 { assert Step(run[i], run[i + 1]); }
    }
    assert IsRun(longer);
  }

  // ------------------------------------------------------------ the promises, over every run

  /** The factory, a seek, a read or a close is running outside the mutex. */
  predicate DeviceBusy(s: Sys) {
    s.at.OpenRun? || s.at.SeekRun? || s.at.ReadRun?
    || (s.reader && (s.at.DiscardRun? || s.at.CatchRun? || s.at.ExitRun?))
  }

  /** While a device call runs, or a reader is still held, `device_released` says no. */
  lemma ReleasedMeansReleased(s: Sys)
    requires Reachable(s)
    ensures DeviceReleased(s.m) ==> !DeviceBusy(s) && !s.reader
  {
    ReachableInv(s);
  }

  /**
    Nor does the report lag behind: at rest, in every run, it says released exactly when no stream is active, no
    discard is pending and no reader is held.
  */
  lemma RestingReportIsExact(s: Sys)
    requires Reachable(s) && s.at.Top?
    ensures DeviceReleased(s.m) <==> !s.m.stream.active && !s.m.drive.discardReader && !s.reader
  {
    ReachableInv(s);
  }

  /**
    Popped and queued blocks are one gapless chain of the current generation from the stream's beginning, within the
    capacity the stream started with; `done` is reported only when the chain reaches the end.
  */
  lemma StreamIsContiguous(s: Sys, lba: int)
    requires Reachable(s) && !s.m.closing
    ensures
            && (forall b <- s.m.stream.queue :: b.generation == s.m.stream.generation)
            && |s.m.stream.queue| <= s.streamCapacity
            && ((exists i :: 0 <= i < |Blocks(s)| && Blocks(s)[i].lba <= lba < Blocks(s)[i].EndLba())
                <==> s.m.stream.begin <= lba < Reach(Blocks(s), s.m.stream.begin))
            && (forall i, j :: 0 <= i < j < |Blocks(s)| ==> Blocks(s)[i].EndLba() <= Blocks(s)[j].lba)
            && (s.m.stream.done ==> Reach(Blocks(s), s.m.stream.begin) == s.m.stream.end)
  {
    ReachableInv(s);
    ChainTiles(Blocks(s), s.m.stream.generation, s.m.stream.begin, lba);
    ChainGenerations(Blocks(s), s.m.stream.generation, s.m.stream.begin);
    assert forall b <- s.m.stream.queue :: b in Blocks(s);
  }

  lemma {:induction false} ChainGenerations(bs: seq<Block>, generation: nat, begin: int)
    requires Chain(bs, generation, begin)
    ensures forall b <- bs :: b.generation == generation
    decreases bs
  {
    if bs != [] {
      ChainGenerations(bs[..|bs| - 1], generation, begin);
    }
  }

  /** The history ring is exactly the last min(n, 128) reads of the stream, and kept plus evicted is every read call. */
  lemma HistoryIsNewestReads(s: Sys)
    requires Reachable(s) && !s.m.closing
    ensures
            && s.m.history.readCalls == |s.observed| == s.m.history.evicted + |s.m.history.recent|
            && |s.m.history.recent| == Min(|s.observed|, HISTORY_CAPACITY)
            && s.m.history.recent == s.observed[s.m.history.evicted..]
  {
    ReachableInv(s);
  }

  // ------------------------------------------------------------ what callers see of the thread

  /** Nothing but more blocks at the back, the end of the stream, or its failure. */
  ghost predicate Progress(a: Stream, b: Stream) {
    && b.generation == a.generation && b.begin == a.begin && b.end == a.end
    && (a.queue <= b.queue || b.failed)
    && (a.done ==> b.done && b.queue == a.queue)
    && (b.active ==> a.active) && (a.failed ==> b.failed)
    && (a.active ==> b.active || b.done || b.failed)
  }

  ghost predicate ThreadProgress(a: Sys, b: Sys) {
    && Progress(a.m.stream, b.m.stream) && b.popped == a.popped
    && b.m.closing == a.m.closing && b.m.setup == a.m.setup && b.streamCapacity == a.streamCapacity
  }

  lemma WorkIsProgress(s: Sys, answer: Answer)
    requires Inv(s) && !s.m.closing && Enabled(s, Work(answer))
    ensures ThreadProgress(s, WorkStep(s, answer))
  {
    if s.at.Push? || s.at.EndStream? || s.at.CatchDone? {
      assert !Stale(s) ==> Current(s);
      if s.at.Push? { assert WorkStep(s, answer) == PushStep(s); }
      else if s.at.EndStream? { assert WorkStep(s, answer) == FinishStep(s); }
      else { assert WorkStep(s, answer) == FailStep(s); }
    } else {
      WorkKeepsStream(s, answer);
    }
  }

  lemma WorkKeepsStream(s: Sys, answer: Answer)
    requires !s.at.Push? && !s.at.EndStream? && !s.at.CatchDone?
    ensures var s' := WorkStep(s, answer);
            s'.m.stream == s.m.stream && s'.popped == s.popped && s'.m.closing == s.m.closing
            && s'.m.setup == s.m.setup && s'.streamCapacity == s.streamCapacity
  {
  }

  /** However many steps the thread takes between two calls, the caller sees only progress of its own stream. */
  lemma {:induction false} InterferenceIsProgress(run: seq<Sys>)
    requires IsThreadRun(run) && Inv(run[0]) && !run[0].m.closing
    ensures Inv(run[|run| - 1]) && ThreadProgress(run[0], run[|run| - 1])
    decreases run
  {
    if 1 < |run| {
      var front := run[..|run| - 1];
      forall i | 0 <= i < |front| - 1 ensures ThreadStep(front[i], front[i + 1]) {
        assert ThreadStep(run[i], run[i + 1]);
      }
      InterferenceIsProgress(front);
      var last := run[|run| - 2];
      assert ThreadStep(run[|run| - 2], run[|run| - 2 + 1]);
      var answer :| Enabled(last, Work(answer)) && WorkStep(last, answer) == run[|run| - 1];
      NextKeepsInv(last, Work(answer));
      WorkIsProgress(last, answer);
      ProgressTransitive(run[0], last, run[|run| - 1]);
    }
  }

  lemma ProgressTransitive(a: Sys, b: Sys, c: Sys)
    requires ThreadProgress(a, b) && ThreadProgress(b, c)
    requires Inv(c) && !c.m.closing
    ensures ThreadProgress(a, c)
  {
  }

  lemma ThreadRanIsProgress(a: Sys, b: Sys)
    requires Reachable(a) && !a.m.closing && ThreadRan(a, b)
    ensures ThreadProgress(a, b)
  {
    var run :| IsThreadRun(run) && run[0] == a && run[|run| - 1] == b;
    ReachableInv(a);
    InterferenceIsProgress(run);
  }

  /** The callers' steps, each as the change it makes. */
  lemma ReachableStart(s: Sys, begin: int, end: int)
    requires Reachable(s) && !s.m.closing && 0 <= begin < end
    ensures Reachable(s.(m := Start(s.m, begin, end), popped := [], observed := [],
                         streamCapacity := s.m.setup.capacityBlocks))
  {
    ReachableNext(s, StartCall(begin, end));
  }

  lemma ReachableCancel(s: Sys)
    requires Reachable(s) && !s.m.closing
    ensures Reachable(s.(m := Cancel(s.m), popped := [], observed := []))
    ensures Reachable(s.(m := DiscardReader(s.m), popped := [], observed := []))
  {
    ReachableNext(s, CancelCall);
    ReachableNext(s, DiscardCall);
  }

  lemma ReachablePop(s: Sys)
    requires Reachable(s) && !s.m.closing && s.m.stream.queue != []
    ensures Reachable(s.(m := Pop(s.m), popped := s.popped + [s.m.stream.queue[0]]))
  {
    ReachableNext(s, PopCall);
  }

  lemma ReachableReconfigure(s: Sys, readBlock: nat)
    requires Reachable(s) && !s.m.closing && !s.m.stream.active && ValidReadBlock(s.m.setup.config, readBlock)
    ensures Reachable(s.(m := Reconfigure(s.m, readBlock)))
  {
    ReachableNext(s, ReconfigureCall(readBlock));
  }
}
