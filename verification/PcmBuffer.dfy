/**
  How much PCM the worker's queue holds, in CD frames against the configured
  buffer (src/pcm_worker.cpp:30, :72 and :229-232).
*/
module PcmBuffers {
  import opened PcmMonitor
  import opened PcmProtocol
  import opened PcmSafety

  function Frames(bs: seq<Block>): int {
    if bs == [] then 0 else bs[0].frames + Frames(bs[1..])
  }

  lemma {:induction false} FramesAppend(bs: seq<Block>, b: Block)
    ensures Frames(bs + [b]) == Frames(bs) + b.frames
  {
    if bs == [] {
      assert bs + [b] == [b];
    } else {
      FramesAppend(bs[1..], b);
      assert (bs + [b])[1..] == bs[1..] + [b];
    }
  }

  /** Blocks of one size. */
  ghost predicate Whole(bs: seq<Block>, size: int) { forall b <- bs :: b.frames == size }

  lemma {:induction false} FramesOfWhole(bs: seq<Block>, size: int)
    requires Whole(bs, size)
    ensures Frames(bs) == |bs| * size
  {
    if bs != [] {
      FramesOfWhole(bs[1..], size);
      OneMore(|bs| - 1, size);
    }
  }

  lemma OneMore(n: int, size: int)
    ensures (n + 1) * size == n * size + size
  {
  }

  /** As many blocks as the configured buffer has room for, and not one more. */
  ghost predicate SetupFits(u: Setup) {
    && 0 < u.readBlock
    && u.capacityBlocks * u.readBlock <= u.config.capacityCdFrames < (u.capacityBlocks + 1) * u.readBlock
  }

  lemma CapacityFits(c: BufferConfig, readBlock: nat)
    requires 0 < readBlock
    ensures SetupFits(Setup(c, readBlock, CapacityBlocks(c, readBlock)))
  {
    var n := CapacityBlocks(c, readBlock);
    assert c.capacityCdFrames == n * readBlock + c.capacityCdFrames % readBlock;
    OneMore(n, readBlock);
  }

  /** While the stream goes on every block of it is a whole read. */
  ghost predicate Fits(s: Sys) {
    && (forall b <- s.m.stream.queue :: 0 <= b.frames)
    && Frames(s.m.stream.queue) <= s.m.setup.config.capacityCdFrames
    && (s.m.stream.active && Position(s) < s.m.stream.end ==> Whole(s.m.stream.queue, s.m.setup.readBlock))
  }

  ghost predicate BufferOk(s: Sys) { SetupFits(s.m.setup) && (!s.m.closing ==> Fits(s)) }

  // ---------------------------------------------------------------- one step

  lemma ControlFits(s: Sys, e: Event)
    requires Inv(s) && BufferOk(s) && Enabled(s, e) && !e.Work?
    ensures BufferOk(ControlStep(s, e))
  {
    if e.ReconfigureCall? {
      CapacityFits(s.m.setup.config, e.readBlock);
    } else if e.PopCall? {
      assert Blocks(ControlStep(s, e)) == Blocks(s);
    }
  }

  lemma PushFits(s: Sys)
    requires Inv(s) && BufferOk(s) && s.at.Push? && !s.m.closing && !Stale(s)
    ensures BufferOk(PushStep(s))
  {
    var queue, b := s.m.stream.queue, Block(s.l.generation, s.l.position, NextFrames(s.l));
    assert Current(s);
    FramesAppend(queue, b);
    FramesOfWhole(queue, s.m.setup.readBlock);
    RoomForOne(|queue|, s.m.setup);
    PushReaches(s, b);
  }

  lemma RoomForOne(n: nat, u: Setup)
    requires SetupFits(u) && n < u.capacityBlocks
    ensures n * u.readBlock + u.readBlock <= u.config.capacityCdFrames
  {
    OneMore(n, u.readBlock);
    AtMost(n + 1, u.capacityBlocks, u.readBlock);
  }

  lemma AtMost(n: nat, m: nat, size: nat)
    requires n <= m
    ensures n * size <= m * size
  {
  }

  /** A read cut short by the end of the stream is the last one. */
  lemma PushReaches(s: Sys, b: Block)
    requires Inv(s) && s.at.Push? && !s.m.closing && !Stale(s)
    requires b == Block(s.l.generation, s.l.position, NextFrames(s.l))
    ensures Position(PushStep(s)) == b.EndLba() && (b.EndLba() < s.m.stream.end ==> b.frames == s.m.setup.readBlock)
  {
    assert Current(s);
    assert Blocks(PushStep(s)) == Blocks(s) + [b];
  }

  lemma WorkFits(s: Sys, answer: Answer)
    requires Inv(s) && BufferOk(s) && Enabled(s, Work(answer))
    ensures BufferOk(WorkStep(s, answer))
  {
    if s.at.Push? {
      assert WorkStep(s, answer) == PushStep(s);
      if !s.m.closing && !Stale(s) { PushFits(s); }
    } else if s.at.EndStream? {
      assert WorkStep(s, answer) == FinishStep(s);
    } else if s.at.CatchDone? {
      assert WorkStep(s, answer) == FailStep(s);
    } else {
      WorkKeepsStream(s, answer);
    }
  }

  // ---------------------------------------------------------------- over every run

  lemma {:induction false} RunFits(run: seq<Sys>)
    requires IsRun(run)
    ensures BufferOk(run[|run| - 1])
    decreases run
  {
    if |run| == 1 {
      InitialFits(run[0]);
    } else {
      RunFront(run);
      var last := run[|run| - 2];
      RunKeepsInv(run[..|run| - 1]);
      RunFits(run[..|run| - 1]);
      var e :| Enabled(last, e) && Next(last, e) == run[|run| - 1];
      if e.Work? { WorkFits(last, e.answer); } else { ControlFits(last, e); }
    }
  }

  lemma InitialFits(s: Sys)
    requires IsInitial(s)
    ensures BufferOk(s)
  {
    var config, readBlock :|
      ValidConfig(config) && ValidReadBlock(config, readBlock) && s == Initial(config, readBlock);
    CapacityFits(config, readBlock);
  }

  lemma ReachableFits(s: Sys)
    requires Reachable(s)
    ensures BufferOk(s) && Inv(s)
  {
    var run :| IsRun(run) && run[|run| - 1] == s;
    RunFits(run);
    RunKeepsInv(run);
  }

  /** In every run the queued blocks fit the configured buffer. */
  lemma QueueFitsBuffer(s: Sys)
    requires Reachable(s) && !s.m.closing
    ensures Frames(s.m.stream.queue) <= s.m.setup.config.capacityCdFrames
  {
    ReachableFits(s);
  }

  /** And the thread waits, in front of a read of its stream, exactly while one more read block would not fit. */
  lemma WaitsExactlyWhenFull(s: Sys, answer: Answer)
    requires Reachable(s) && !s.m.closing && s.at.LoopHead? && !Stale(s) && s.l.position < s.l.end
    ensures Enabled(s, Work(answer)) <==>
            Frames(s.m.stream.queue) + s.m.setup.readBlock <= s.m.setup.config.capacityCdFrames
  {
    ReachableFits(s);
    var queue, u := s.m.stream.queue, s.m.setup;
    FramesOfWhole(queue, u.readBlock);
    if |queue| < s.l.capacity {
      RoomForOne(|queue|, u);
    } else {
      AtMost(u.capacityBlocks, |queue|, u.readBlock);
      OneMore(u.capacityBlocks, u.readBlock);
    }
  }

  /** The startup threshold is the least number of blocks that hold the configured frames, as far as the queue goes. */
  lemma StartupIsLeast(c: BufferConfig, readBlock: nat, n: nat)
    requires ValidConfig(c) && 0 < readBlock
    ensures var blocks := StartupBlocks(c, readBlock);
            && blocks <= CapacityBlocks(c, readBlock)
            && (blocks < CapacityBlocks(c, readBlock) ==> c.startupCdFrames <= blocks * readBlock)
            && (n < blocks ==> n * readBlock < c.startupCdFrames)
  {
    var up := (c.startupCdFrames + readBlock - 1) / readBlock;
    assert c.startupCdFrames + readBlock - 1 == up * readBlock + (c.startupCdFrames + readBlock - 1) % readBlock;
    if n < up {
      AtMost(n + 1, up, readBlock);
      OneMore(n, readBlock);
    }
  }
}
