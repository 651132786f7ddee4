/**
  Why `reconfigure` must wait until the stream has stopped: it leaves the
  generation alone, so the thread takes the same stream up again from its
  beginning and queues its first block a second time.
*/
module PcmReconfigure {
  import opened Basics
  import opened PcmMonitor
  import opened PcmProtocol
  import opened PcmSafety

  // ------------------------------------------------------------ continuations

  /** A step of the thread, or a caller's pop. */
  ghost predicate UseStep(a: Sys, b: Sys) {
    ThreadStep(a, b) || (Enabled(a, PopCall) && Next(a, PopCall) == b)
  }

  ghost predicate IsUse(run: seq<Sys>) {
    0 < |run| && forall i :: 0 <= i < |run| - 1 ==> UseStep(run[i], run[i + 1])
  }

  /** While the caller only pops, the thread can get from `a` to `b`. */
  ghost predicate Leads(a: Sys, b: Sys) {
    exists run :: IsUse(run) && run[0] == a && run[|run| - 1] == b
  }

  lemma LeadsHere(a: Sys)
    ensures Leads(a, a)
  {
    assert IsUse([a]);
  }

  lemma LeadsOn(a: Sys, b: Sys, c: Sys)
    requires Leads(a, b) && UseStep(b, c)
    ensures Leads(a, c)
  {
    var run :| IsUse(run) && run[0] == a && run[|run| - 1] == b;
    var longer := run + [c];
    forall i | 0 <= i < |longer| - 1 ensures UseStep(longer[i], longer[i + 1]) {
      if i < |run| - 1 { assert UseStep(run[i], run[i + 1]); }
    }
    assert IsUse(longer);
  }

  lemma Work1(a: Sys, b: Sys, answer: Answer) returns (c: Sys)
    requires Leads(a, b) && Enabled(b, Work(answer))
    ensures c == WorkStep(b, answer) && Leads(a, c)
  {
    c := WorkStep(b, answer);
    assert ThreadStep(b, c);
    LeadsOn(a, b, c);
  }

  lemma UseIsStep(a: Sys, b: Sys)
    requires UseStep(a, b)
    ensures Step(a, b)
  {
    if ThreadStep(a, b) {
      var answer :| Enabled(a, Work(answer)) && WorkStep(a, answer) == b;
      assert Next(a, Work(answer)) == b;
    } else {
      assert Next(a, PopCall) == b;
    }
  }

  /** What is led to from a reachable state is reachable. */
  lemma LeadsReachable(a: Sys, b: Sys)
    requires Reachable(a) && Leads(a, b)
    ensures Reachable(b)
  {
    var run :| IsUse(run) && run[0] == a && run[|run| - 1] == b;
    UseReachable(run);
  }

  lemma {:induction false} UseReachable(run: seq<Sys>)
    requires IsUse(run) && Reachable(run[0])
    ensures Reachable(run[|run| - 1])
    decreases |run|
  {
    if 1 < |run| {
      var front := run[..|run| - 1];
      forall i | 0 <= i < |front| - 1 ensures UseStep(front[i], front[i + 1]) { assert UseStep(run[i], run[i + 1]); }
      UseReachable(front);
      assert UseStep(run[|run| - 2], run[|run| - 2 + 1]);
      UseIsStep(run[|run| - 2], run[|run| - 1]);
      var e :| Enabled(run[|run| - 2], e) && Next(run[|run| - 2], e) == run[|run| - 1];
      ReachableNext(run[|run| - 2], e);
    }
  }

  // ------------------------------------------------------------ the thread picks a stream up

  /** The same stream, whatever became of the drive and of the thread. */
  predicate SameStream(s: Sys, s': Sys) {
    && s'.m == s.m.(drive := s'.m.drive, history := s'.m.history)
    && s'.popped == s.popped && s'.streamCapacity == s.streamCapacity
  }

  predicate Undisturbed(s: Sys) { !s.m.closing && s.m.stream.active && !s.m.drive.discardReader }

  const READER := Returned(true, 0, 0, true)

  /** From the top with no reader: the drive is opened. */
  lemma ToOpen(a: Sys, s: Sys) returns (s': Sys)
    requires Leads(a, s) && s.at.Top? && Undisturbed(s) && !s.reader
    ensures Leads(a, s') && SameStream(s, s') && s'.at.AfterOpen? && s'.reader && Undisturbed(s')
    ensures s'.l == TopStep(s).l && s'.l.generation == s'.m.stream.generation
  {
    var s1 := Work1(a, s, READER);
    assert s1 == TopStep(s) && s1.at.NeedReader?;
    var s2 := Work1(a, s1, READER);
    assert s2 == OpenStep(s1, READER) && s2.at.OpenAdmit?;
    var s3 := Work1(a, s2, READER);
    assert s3 == OpenStep(s2, READER) && s3.at.OpenRun?;
    s' := Opened(a, s3);
  }

  lemma Opened(a: Sys, s: Sys) returns (s': Sys)
    requires Leads(a, s) && s.at.OpenRun? && Undisturbed(s)
    ensures Leads(a, s') && SameStream(s, s') && s'.at.AfterOpen? && s'.reader && Undisturbed(s') && s'.l == s.l
  {
    var s1 := Work1(a, s, READER);
    assert s1 == OpenStep(s, READER) && s1.at.OpenDone? && s1.reader;
    var s2 := Work1(a, s1, READER);
    assert s2 == OpenStep(s1, READER) && s2.at.NullCheck?;
    s' := Work1(a, s2, READER);
    assert s' == OpenStep(s2, READER);
  }

  /** And the stream's beginning sought. */
  lemma ToLoop(a: Sys, s: Sys) returns (s': Sys)
    requires Leads(a, s) && s.at.AfterOpen? && Undisturbed(s) && !Stale(s)
    ensures Leads(a, s') && SameStream(s, s') && s'.at.LoopHead? && Undisturbed(s') && s'.l == s.l
  {
    var s1 := Work1(a, s, READER);
    assert s1 == OpenStep(s, READER) && s1.at.SeekMark?;
    var s2 := Work1(a, s1, READER);
    assert s2 == SeekStep(s1, READER) && s2.at.SeekAdmit?;
    var s3 := Work1(a, s2, READER);
    assert s3 == SeekStep(s2, READER) && s3.at.SeekRun?;
    s' := Sought(a, s3);
  }

  lemma Sought(a: Sys, s: Sys) returns (s': Sys)
    requires Leads(a, s) && s.at.SeekRun? && Undisturbed(s)
    ensures Leads(a, s') && SameStream(s, s') && s'.at.LoopHead? && Undisturbed(s') && s'.l == s.l
  {
    var s1 := Work1(a, s, READER);
    assert s1 == SeekStep(s, READER) && s1.at.SeekDone?;
    s' := Work1(a, s1, READER);
    assert s' == SeekStep(s1, READER);
  }

  // ------------------------------------------------------------ one block

  /** The next block of the stream the thread works for. */
  function NextBlock(s: Sys): Block { Block(s.l.generation, s.l.position, NextFrames(s.l)) }

  function GoodRead(s: Sys): Answer { Returned(true, s.l.position, NextFrames(s.l), true) }

  /** A read in progress, or done without an error: its block will be queued. */
  predicate BlockInHand(s: Sys) {
    match s.at
    case ReadRun => true
    case ReadDone(entry) => entry.ok && entry.framesRead == NextFrames(s.l)
    case AfterRead(entry) => entry.ok && entry.framesRead == NextFrames(s.l)
    case Push => true
    case _ => false
  }

  /** The block in hand is queued, discarded reader or not. */
  predicate OneMore(s: Sys, s': Sys) {
    && s'.m == s.m.(drive := s'.m.drive, history := s'.m.history,
                    stream := s.m.stream.(queue := s.m.stream.queue + [NextBlock(s)]))
    && s'.m.drive.discardReader == s.m.drive.discardReader
    && s'.popped == s.popped && s'.l == s.l.(position := NextBlock(s).EndLba()) && s'.at.LoopHead?
  }

  lemma QueueBlock(a: Sys, s: Sys) returns (s': Sys)
    requires Leads(a, s) && BlockInHand(s) && !s.m.closing && !Stale(s)
    ensures Leads(a, s') && OneMore(s, s')
  {
    if s.at.ReadRun? || s.at.ReadDone? { s' := QueueRead(a, s); } else { s' := QueueDone(a, s); }
  }

  lemma QueueRead(a: Sys, s: Sys) returns (s': Sys)
    requires Leads(a, s) && BlockInHand(s) && (s.at.ReadRun? || s.at.ReadDone?) && !s.m.closing && !Stale(s)
    ensures Leads(a, s') && OneMore(s, s')
  {
    var s1 := s;
    if s.at.ReadRun? {
      s1 := Work1(a, s, GoodRead(s));
      assert s1 == ReadStep(s, GoodRead(s));
    }
    var s2 := Work1(a, s1, READER);
    assert s2 == ObserveStep(s1, s1.at.entry) && s2.at.AfterRead?;
    s' := QueueDone(a, s2);
  }

  lemma QueueDone(a: Sys, s: Sys) returns (s': Sys)
    requires Leads(a, s) && BlockInHand(s) && (s.at.AfterRead? || s.at.Push?) && !s.m.closing && !Stale(s)
    ensures Leads(a, s') && OneMore(s, s')
  {
    var s1 := s;
    if s.at.AfterRead? {
      s1 := Work1(a, s, READER);
      assert s1 == ReadStep(s, READER) && s1 == s.(at := Push);
    }
    s' := Work1(a, s1, READER);
    assert s' == PushStep(s1);
  }

  /** With room in the queue and nothing in its way, the thread reads on. */
  lemma ReadOn(a: Sys, s: Sys) returns (s': Sys)
    requires Leads(a, s) && s.at.LoopHead? && Undisturbed(s) && !Stale(s)
    requires s.l.position < s.l.end && |s.m.stream.queue| < s.l.capacity
    ensures Leads(a, s') && OneMore(s, s')
  {
    var s1 := Work1(a, s, READER);
    assert s1 == LoopStep(s) && s1.at.ReadAdmit?;
    var s2 := Work1(a, s1, READER);
    assert s2 == ReadStep(s1, READER) && s2.at.ReadRun?;
    s' := QueueRead(a, s2);
  }

  /** A stream taken up at the top gets its first block queued behind whatever is there. */
  lemma FirstBlock(a: Sys, s: Sys) returns (s': Sys)
    requires Leads(a, s) && s.at.Top? && Undisturbed(s) && !s.reader
    requires s.m.stream.begin < s.m.stream.end && |s.m.stream.queue| < s.m.setup.capacityBlocks
    ensures var first := Block(s.m.stream.generation, s.m.stream.begin,
                               Min(s.m.setup.readBlock, s.m.stream.end - s.m.stream.begin));
            && Leads(a, s') && s'.at.LoopHead? && Undisturbed(s') && s'.popped == s.popped
            && s'.m.stream == s.m.stream.(queue := s.m.stream.queue + [first]) && s'.m.setup == s.m.setup
            && s'.l.position == first.EndLba() && s'.l.end == s.m.stream.end && s'.l.generation == s.m.stream.generation
  {
    var s1 := ToOpen(a, s);
    var s2 := ToLoop(a, s1);
    s' := ReadOn(a, s2);
  }

  // ------------------------------------------------------------ the repeat

  /** Callers have popped everything. */
  lemma {:induction false} PopAll(a: Sys, s: Sys) returns (s': Sys)
    requires Leads(a, s) && !s.m.closing
    ensures Leads(a, s') && s'.m.stream.queue == [] && s'.popped == Blocks(s)
    ensures s' == s.(m := s.m.(stream := s.m.stream.(queue := [])), popped := Blocks(s))
    decreases |s.m.stream.queue|
  {
    if s.m.stream.queue == [] {
      s' := s;
      assert Blocks(s) == s.popped;
    } else {
      var s1 := Next(s, PopCall);
      LeadsOn(a, s, s1);
      assert Blocks(s1) == Blocks(s);
      s' := PopAll(a, s1);
    }
  }

  /** A discard found pending before a read sends the thread back to the top, without its reader. */
  lemma Discards(a: Sys, s: Sys) returns (s': Sys)
    requires Leads(a, s) && s.at.ReadAdmit? && !s.m.closing && s.m.drive.discardReader
    ensures Leads(a, s') && SameStream(s, s') && s'.at.Top? && !s'.reader && !s'.m.drive.discardReader
  {
    var s1 := Work1(a, s, READER);
    assert s1 == ReadStep(s, READER) && s1 == s.(at := Retired);
    var s2 := Work1(a, s1, READER);
    assert s2 == EndStep(s1) && s2 == WithDrive(s1, s1.m.drive.(callInflight := false, reading := false), Top);
    s' := Closes(a, s2);
  }

  lemma Closes(a: Sys, s: Sys) returns (s': Sys)
    requires Leads(a, s) && s.at.Top? && !s.m.closing && s.m.drive.discardReader
    ensures Leads(a, s') && SameStream(s, s') && s'.at.Top? && !s'.reader && !s'.m.drive.discardReader
  {
    var s1 := Work1(a, s, READER);
    assert s1 == TopStep(s) && s1.at.DiscardRun?;
    var s2 := Work1(a, s1, READER);
    assert s2 == EndStep(s1) && s2.at.DiscardDone?;
    s' := Work1(a, s2, READER);
    assert s' == EndStep(s2);
  }

  /**
    The states in which a reconfiguration is felt: a stream is read, at least one block of it is or will be queued,
    and something is left to read behind it. (With a failed read in hand the stream fails first.)
  */
  predicate MidStream(s: Sys) {
    && s.m.stream.active && !s.m.closing && !Stale(s)
    && (if BlockInHand(s) then NextBlock(s).EndLba() < s.l.end
        else (s.at.LoopHead? || s.at.ReadAdmit?) && Blocks(s) != [] && s.l.position < s.l.end)
  }

  /** Nothing of the stream has been read, and no block of it is on its way. */
  predicate Untouched(s: Sys) { Blocks(s) == [] && (Stale(s) || !BlockInHand(s)) }

  /**
    The caller's reconfiguration, whatever the stream is doing; an untouched stream will be read with the new capacity.
  */
  function Reconfigured(s: Sys, readBlock: nat): Sys
    requires 0 < readBlock
  {
    s.(m := Reconfigure(s.m, readBlock),
       streamCapacity := if Untouched(s) then CapacityBlocks(s.m.setup.config, readBlock) else s.streamCapacity)
  }

  /** The stream's first block, at the new block size. */
  function FirstAgain(s: Sys, readBlock: nat): Block {
    Block(s.m.stream.generation, s.m.stream.begin, Min(readBlock, s.m.stream.end - s.m.stream.begin))
  }

  /**
    Whatever the caller's new block size, reconfiguring in any reachable state of a stream that is being read lets the
    thread queue the stream's first block again, under the same generation, behind blocks that already hold it.
  */
  lemma ReconfigureMidStreamRepeats(s: Sys, readBlock: nat) returns (s': Sys, before: seq<Block>)
    requires Reachable(s) && MidStream(s) && ValidReadBlock(s.m.setup.config, readBlock)
    ensures Leads(Reconfigured(s, readBlock), s')
    ensures s'.m.stream.generation == s.m.stream.generation && s'.m.stream.begin == s.m.stream.begin && !s'.m.closing
    ensures Blocks(s) <= before && before != [] && Blocks(s') == before + [FirstAgain(s, readBlock)]
    ensures !Chain(Blocks(s'), s'.m.stream.generation, s'.m.stream.begin)
  {
    ReachableInv(s);
    var a := Reconfigured(s, readBlock);
    RoomForABlock(s.m.setup.config, readBlock);
    var s1 := AtNextRead(s, a);
    before := s1.popped;
    var s2 := Retire(a, s1);
    s' := Repeats(a, s2);
    RepeatBreaksChain(s, before, FirstAgain(s, readBlock));
  }

  /** The block in hand is queued, and everything popped: the thread is about to read on. */
  lemma AtNextRead(s: Sys, a: Sys) returns (s': Sys)
    requires Inv(s) && MidStream(s)
    requires a == s.(m := s.m.(setup := a.m.setup, drive := s.m.drive.(discardReader := true)),
                     streamCapacity := a.streamCapacity)
    ensures Leads(a, s') && (s'.at.LoopHead? || s'.at.ReadAdmit?) && s'.l.position < s'.l.end
    ensures s'.m.stream == s.m.stream.(queue := []) && s'.m.setup == a.m.setup && !s'.m.closing && !Stale(s')
    ensures s'.m.drive.discardReader && 0 < s'.l.capacity
    ensures Blocks(s) <= s'.popped && s'.popped != [] && Chain(s'.popped, s.m.stream.generation, s.m.stream.begin)
  {
    LeadsHere(a);
    var s1 := a;
    if BlockInHand(s) {
      s1 := QueueBlock(a, a);
      QueuedOnce(s, s1);
    }
    assert Blocks(s) <= Blocks(s1);
    s' := PopAll(a, s1);
  }

  /** Taken up again from the top, the stream begins anew. */
  lemma Repeats(a: Sys, s: Sys) returns (s': Sys)
    requires Leads(a, s) && s.at.Top? && Undisturbed(s) && !s.reader && s.m.stream.queue == []
    requires s.m.stream.begin < s.m.stream.end && 0 < s.m.setup.capacityBlocks
    ensures Leads(a, s') && Blocks(s') == s.popped + [FirstAgain(s, s.m.setup.readBlock)] && !s'.m.closing
    ensures s'.m.stream.generation == s.m.stream.generation && s'.m.stream.begin == s.m.stream.begin
  {
    s' := FirstBlock(a, s);
  }

  /** The read in hand failed: the stream ends without another block. */
  predicate Failing(s: Sys) {
    match s.at
    case ReadDone(entry) => !entry.ok || entry.framesRead != NextFrames(s.l)
    case AfterRead(entry) => !entry.ok || entry.framesRead != NextFrames(s.l)
    case CatchRun => true
    case CatchDone => true
    case _ => false
  }

  /**
    What a caller can tell beforehand: a stream is active, some of it was queued, and more than one read block is
    left. Unless a read just failed, reconfiguring then lets the stream repeat.
  */
  lemma ActiveWithBlocksIsMidStream(s: Sys)
    requires Reachable(s) && s.m.stream.active && !s.m.closing && Blocks(s) != []
    requires Position(s) + s.m.setup.readBlock < s.m.stream.end && !Failing(s)
    ensures MidStream(s)
  {
    ReachableInv(s);
    assert Current(s);
  }

  /** The block in hand continues the chain. */
  lemma QueuedOnce(s: Sys, s1: Sys)
    requires Inv(s) && MidStream(s) && BlockInHand(s)
    requires s1.m.stream == s.m.stream.(queue := s.m.stream.queue + [NextBlock(s)]) && s1.popped == s.popped
    ensures Blocks(s1) == Blocks(s) + [NextBlock(s)] && Chain(Blocks(s1), s.m.stream.generation, s.m.stream.begin)
  {
    assert Current(s);
    ChainAppend(Blocks(s), s.m.stream.generation, s.m.stream.begin, NextBlock(s));
    assert Blocks(s1) == Blocks(s) + [NextBlock(s)];
  }

  /** Before its next read the thread finds the discard and comes back to the top. */
  lemma Retire(a: Sys, s: Sys) returns (s': Sys)
    requires Leads(a, s) && (s.at.LoopHead? || s.at.ReadAdmit?) && s.l.position < s.l.end
    requires !s.m.closing && !Stale(s) && s.m.drive.discardReader && |s.m.stream.queue| < s.l.capacity
    ensures Leads(a, s') && SameStream(s, s') && s'.at.Top? && !s'.reader && !s'.m.drive.discardReader
  {
    if s.at.LoopHead? {
      var s1 := Work1(a, s, READER);
      assert s1 == LoopStep(s) && s1.at.ReadAdmit?;
      s' := Discards(a, s1);
    } else {
      s' := Discards(a, s);
    }
  }

  lemma RepeatBreaksChain(s: Sys, before: seq<Block>, again: Block)
    requires Chain(before, s.m.stream.generation, s.m.stream.begin) && before != [] && again.lba == s.m.stream.begin
    ensures !Chain(before + [again], s.m.stream.generation, s.m.stream.begin)
  {
    ChainMoves(before, s.m.stream.generation, s.m.stream.begin);
    assert (before + [again])[..|before|] == before;
  }

  lemma {:induction false} ChainMoves(bs: seq<Block>, generation: nat, begin: int)
    requires Chain(bs, generation, begin) && bs != []
    ensures begin < Reach(bs, begin)
    decreases bs
  {
    var front := bs[..|bs| - 1];
    if front != [] { ChainMoves(front, generation, begin); }
  }

  // ------------------------------------------------------------ such states are reached

  /** A fresh worker, asked for three blocks, stands in the middle of its stream after one. */
  lemma MidStreamIsReached() returns (s: Sys)
    ensures Reachable(s) && MidStream(s) && s.m.stream.queue != []
  {
    var config := BufferConfig(30, 15);
    var s0 := Initial(config, 15);
    assert IsInitial(s0) && IsRun([s0]);
    var s1 := Next(s0, StartCall(0, 45));
    ReachableNext(s0, StartCall(0, 45));
    LeadsHere(s1);
    s := FirstBlock(s1, s1);
    LeadsReachable(s1, s);
  }

  // ------------------------------------------------------------ and no others do harm

  /** The thread is past everything of its stream but the end. */
  predicate AtLastBlock(s: Sys) {
    && !Stale(s) && s.l.end == s.m.stream.end && s.l.position == Position(s)
    && (if BlockInHand(s) then NextBlock(s).EndLba() == s.l.end && 0 < NextBlock(s).frames
                               && |s.m.stream.queue| < s.streamCapacity
        else (s.at.LoopHead? || s.at.EndStream?) && s.l.position == s.l.end)
  }

  /** No block is coming: the thread is stale, or has its next check of the discard before it. */
  predicate NoBlockComing(s: Sys) {
    || Stale(s)
    || (!BlockInHand(s) && !s.at.EndStream?
        && (Opening(s.at) || SeekingStart(s.at) || InLoop(s.at) ==> s.l.position < s.l.end))
  }

  /**
    A stream that was reconfigured while active, with the discard still pending, in one of the states that do no harm:
    untouched, at its last block, or about to fail.
  */
  ghost predicate Pending(s: Sys) {
    && !s.m.closing && s.m.stream.active && !s.m.stream.done && !s.m.stream.failed && s.m.drive.discardReader
    && DriveOk(s.m.drive, s.at, s.reader) && SetupOk(s.m.setup) && HistoryOk(s.m.history, s.observed)
    && 0 <= s.m.stream.begin < s.m.stream.end
    && Chain(Blocks(s), s.m.stream.generation, s.m.stream.begin) && Position(s) <= s.m.stream.end
    && |s.m.stream.queue| <= s.streamCapacity
    && 0 < s.l.readBlock && s.l.generation <= s.m.stream.generation && (s.at.Retired? ==> Blocks(s) == [])
    && (|| (Blocks(s) == [] && NoBlockComing(s) && s.streamCapacity == s.m.setup.capacityBlocks)
        || AtLastBlock(s)
        || (!Stale(s) && Failing(s)))
  }

  lemma HarmlessIsPending(s: Sys, readBlock: nat)
    requires Reachable(s) && s.m.stream.active && !s.m.closing && !MidStream(s)
    requires ValidReadBlock(s.m.setup.config, readBlock)
    ensures Pending(Reconfigured(s, readBlock))
  {
    ReachableInv(s);
    var a := Reconfigured(s, readBlock);
    RoomForABlock(s.m.setup.config, readBlock);
    assert Blocks(a) == Blocks(s);
    if !Current(s) {
      assert Blocks(s) == [];
    } else if BlockInHand(s) {
      assert AtLastBlock(a);
    }
  }

  /** Callers' calls end such a stream, or leave it as it is. */
  lemma PendingControl(s: Sys, e: Event)
    requires Pending(s) && Enabled(s, e) && !e.Work?
    ensures Inv(Next(s, e)) || Pending(Next(s, e))
  {
    if e.PopCall? { PendingPop(s); } else { PendingEnded(s, e); }
  }

  lemma PendingPop(s: Sys)
    requires Pending(s) && s.m.stream.queue != []
    ensures Pending(Next(s, PopCall))
  {
    assert Blocks(Next(s, PopCall)) == Blocks(s);
  }

  lemma PendingEnded(s: Sys, e: Event)
    requires Pending(s) && Enabled(s, e) && !e.Work? && !e.PopCall?
    ensures Inv(Next(s, e))
  {
    var s1 := Next(s, e);
    assert !e.ReconfigureCall?;
    if !s1.m.closing {
      assert Stale(s1) && Blocks(s1) == [];
      assert StreamOk(s1) && LocalsOk(s1);
    }
  }

  lemma PendingOpen(s: Sys, answer: Answer)
    requires Pending(s) && Opening(s.at)
    ensures Pending(OpenStep(s, answer))
  {
    var s1 := OpenStep(s, answer);
    assert s1.m.stream == s.m.stream && Blocks(s1) == Blocks(s);
  }

  lemma PendingSeek(s: Sys, answer: Answer)
    requires Pending(s) && SeekingStart(s.at)
    ensures Pending(SeekStep(s, answer))
  {
    var s1 := SeekStep(s, answer);
    assert s1.m.stream == s.m.stream && Blocks(s1) == Blocks(s);
  }

  lemma PendingTop(s: Sys)
    requires Pending(s) && s.at.Top?
    ensures Inv(TopStep(s))
  {
    assert Blocks(TopStep(s)) == Blocks(s);
  }

  lemma PendingRead(s: Sys, answer: Answer)
    requires Pending(s) && InLoop(s.at)
    ensures Pending(ReadStep(s, answer))
  {
    if s.at.ReadDone? { PendingObserve(s, s.at.entry); }
    else if s.at.Push? { PendingPush(s); }
    else { PendingMove(s, ReadStep(s, answer), answer); }
  }

  lemma PendingMove(s: Sys, s1: Sys, answer: Answer)
    requires Pending(s) && InLoop(s.at) && !s.at.ReadDone? && !s.at.Push? && s1 == ReadStep(s, answer)
    ensures Pending(s1)
  {
    if s.at.LoopHead? { PendingLoop(s); } else { PendingAt(s, s1.at); }
  }

  lemma PendingLoop(s: Sys)
    requires Pending(s) && s.at.LoopHead?
    ensures Pending(LoopStep(s))
  {
    var s1 := LoopStep(s);
    assert Blocks(s1) == Blocks(s) && s1.m.stream == s.m.stream;
  }

  /** Nothing changes but where the thread stands. */
  lemma PendingAt(s: Sys, at: Point)
    requires Pending(s)
    requires || (s.at.ReadAdmit? && at.Retired?)
             || (s.at.ReadRun? && (at.CatchRun? || at.ReadDone?))
             || (s.at.AfterRead? && at == if BlockInHand(s) then Push else CatchRun)
    ensures Pending(s.(at := at))
  {
    assert Blocks(s.(at := at)) == Blocks(s);
  }

  lemma PendingObserve(s: Sys, entry: ReadEntry)
    requires Pending(s) && s.at == ReadDone(entry)
    ensures Pending(ObserveStep(s, entry))
  {
    assert Blocks(ObserveStep(s, entry)) == Blocks(s);
    RecordKeepsHistory(s.m.history, s.observed, entry);
  }

  lemma PendingPush(s: Sys)
    requires Pending(s) && s.at.Push?
    ensures Pending(PushStep(s))
  {
    if Stale(s) {
      assert Blocks(PushStep(s)) == Blocks(s);
    } else {
      PendingLastPush(s);
    }
  }

  lemma PendingLastPush(s: Sys)
    requires Pending(s) && s.at.Push? && !Stale(s)
    ensures Pending(PushStep(s))
  {
    var b := NextBlock(s);
    assert AtLastBlock(s);
    ChainAppend(Blocks(s), s.m.stream.generation, s.m.stream.begin, b);
    var s1 := s.(m := s.m.(stream := s.m.stream.(queue := s.m.stream.queue + [b])), l := s.l.(position := b.EndLba()),
                 at := LoopHead);
    assert PushStep(s) == s1;
    assert Blocks(s1) == Blocks(s) + [b];
    assert AtLastBlock(s1);
  }

  lemma PendingEnd(s: Sys)
    requires Pending(s) && !s.at.Top? && !Opening(s.at) && !SeekingStart(s.at) && !InLoop(s.at)
    ensures Inv(EndStep(s)) || Pending(EndStep(s))
  {
    if s.at.CatchDone? { PendingFail(s); }
    else if s.at.EndStream? { PendingFinish(s); }
    else { assert Blocks(EndStep(s)) == Blocks(s); }
  }

  lemma PendingFail(s: Sys)
    requires Pending(s) && s.at.CatchDone?
    ensures Inv(FailStep(s)) || Pending(FailStep(s))
  {
    if Stale(s) {
      assert Blocks(FailStep(s)) == Blocks(s);
    } else {
      ChainPrefix(s.popped, s.m.stream.queue, s.m.stream.generation, s.m.stream.begin);
      var s1 := FailStep(s);
      assert s1.m.stream == s.m.stream.(failed := true, active := false, queue := []);
      assert Blocks(s1) == s.popped;
      assert StreamOk(s1) && LocalsOk(s1);
    }
  }

  lemma PendingFinish(s: Sys)
    requires Pending(s) && s.at.EndStream?
    ensures Inv(FinishStep(s)) || Pending(FinishStep(s))
  {
    assert Blocks(FinishStep(s)) == Blocks(s);
  }

  lemma PendingNext(s: Sys, e: Event)
    requires Pending(s) && Enabled(s, e)
    ensures Inv(Next(s, e)) || Pending(Next(s, e))
  {
    if !e.Work? { PendingControl(s, e); }
    else if s.at.Top? { PendingTop(s); }
    else if Opening(s.at) { PendingOpen(s, e.answer); }
    else if SeekingStart(s.at) { PendingSeek(s, e.answer); }
    else if InLoop(s.at) { PendingRead(s, e.answer); }
    else { PendingEnd(s); }
  }

  // ------------------------------------------------------------ the exact condition

  ghost predicate IsContinuation(run: seq<Sys>) {
    0 < |run| && forall i :: 0 <= i < |run| - 1 ==> Step(run[i], run[i + 1])
  }

  ghost predicate Contiguous(s: Sys) { !s.m.closing ==> Chain(Blocks(s), s.m.stream.generation, s.m.stream.begin) }

  /** Whatever callers and the thread do next, blocks of one stream follow each other without gap or repeat. */
  ghost predicate StaysContiguous(s: Sys) {
    forall run {:trigger IsContinuation(run)} :: IsContinuation(run) && run[0] == s ==> Contiguous(run[|run| - 1])
  }

  lemma {:induction false} HarmlessRun(run: seq<Sys>)
    requires IsContinuation(run) && (Inv(run[0]) || Pending(run[0]))
    ensures Inv(run[|run| - 1]) || Pending(run[|run| - 1])
    decreases |run|
  {
    if 1 < |run| {
      var front := run[..|run| - 1];
      forall i | 0 <= i < |front| - 1 ensures Step(front[i], front[i + 1]) { assert Step(run[i], run[i + 1]); }
      HarmlessRun(front);
      var last := run[|run| - 2];
      assert Step(run[|run| - 2], run[|run| - 2 + 1]);
      var e :| Enabled(last, e) && Next(last, e) == run[|run| - 1];
      if Inv(last) { NextKeepsInv(last, e); } else { PendingNext(last, e); }
    }
  }

  /**
    A reconfiguration of a reachable worker, whether or not a stream is active, keeps every later run contiguous
    exactly when the worker is not in the middle of a stream. In particular it is safe whenever none is active.
  */
  lemma ReconfigureSafeIff(s: Sys, readBlock: nat)
    requires Reachable(s) && !s.m.closing && ValidReadBlock(s.m.setup.config, readBlock)
    ensures StaysContiguous(Reconfigured(s, readBlock)) <==> !MidStream(s)
  {
    var a := Reconfigured(s, readBlock);
    if MidStream(s) {
      var s', before := ReconfigureMidStreamRepeats(s, readBlock);
      var run :| IsUse(run) && run[0] == a && run[|run| - 1] == s';
      UseContinues(run);
    } else {
      ReachableInv(s);
      RoomForABlock(s.m.setup.config, readBlock);
      if s.m.stream.active { HarmlessIsPending(s, readBlock); } else { StoppedKeepsInv(s, readBlock); }
      forall run | IsContinuation(run) && run[0] == a
        ensures Contiguous(run[|run| - 1])
      {
        HarmlessRun(run);
      }
    }
  }

  lemma StoppedKeepsInv(s: Sys, readBlock: nat)
    requires Inv(s) && !s.m.stream.active && !s.m.closing && ValidReadBlock(s.m.setup.config, readBlock)
    ensures Inv(Reconfigured(s, readBlock))
  {
    RoomForABlock(s.m.setup.config, readBlock);
    assert Blocks(Reconfigured(s, readBlock)) == Blocks(s);
  }

  lemma UseContinues(run: seq<Sys>)
    requires IsUse(run)
    ensures IsContinuation(run)
  {
    forall i | 0 <= i < |run| - 1 ensures Step(run[i], run[i + 1]) {
      assert UseStep(run[i], run[i + 1]);
      UseIsStep(run[i], run[i + 1]);
    }
  }
}
