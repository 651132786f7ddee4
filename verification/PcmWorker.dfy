/**
  The PCM worker's object as its callers see it. The mutex-guarded fields are
  real; the thread's own part of the state is ghost, and moves in `Interfere`.
*/
module PcmWorkers {
  import opened Basics
  import opened PcmMonitor
  import opened PcmProtocol
  import opened PcmSafety

  /** The ring slot of the `i`-th kept read. */
  function Slot(begin: nat, i: nat): (slot: nat)
    requires begin < HISTORY_CAPACITY && i <= HISTORY_CAPACITY
    ensures slot == (begin + i) % HISTORY_CAPACITY
  {
    if begin + i < HISTORY_CAPACITY then begin + i else begin + i - HISTORY_CAPACITY
  }

  /** The fixed array behind the read history, written in place as a ring. */
  class ReadHistory {
    const entries: array<ReadEntry>
    var begin: nat
    var size: nat
    var evicted: nat
    var readCalls: nat

    ghost predicate Valid()
      reads this
    {
      entries.Length == HISTORY_CAPACITY && begin < HISTORY_CAPACITY && size <= HISTORY_CAPACITY
    }

    /** The kept reads, oldest first. */
    ghost function Contents(): History
      requires Valid()
      reads this, entries
    {
      History(seq(size, i requires 0 <= i < size reads this, entries requires Valid() =>
                entries[Slot(begin, i)]), evicted, readCalls)
    }

    constructor ()
      ensures Valid() && fresh(entries) && Contents() == NO_HISTORY
    {
      entries := new ReadEntry[HISTORY_CAPACITY](_ => ReadEntry(0, 0, 0, false));
      begin, size, evicted, readCalls := 0, 0, 0, 0;
    }

    method Clear()
      requires Valid()
      modifies this
      ensures Valid() && Contents() == NO_HISTORY
    {
      begin, size, evicted, readCalls := 0, 0, 0, 0;
    }

    method Observe(e: ReadEntry)
      requires Valid()
      modifies this, entries
      ensures Valid() && Contents() == Record(old(Contents()), e)
    {
      ghost var was := Contents();
      ghost var full := size == HISTORY_CAPACITY;
      readCalls := readCalls + 1;
      if size == HISTORY_CAPACITY {
        begin := Slot(begin, 1);
        size := size - 1;
        evicted := evicted + 1;
      }
      entries[Slot(begin, size)] := e;
      size := size + 1;
      ghost var kept := if full then was.recent[1..] else was.recent;
      ghost var now := Contents().recent;
      forall i | 0 <= i < |kept| ensures now[i] == kept[i] {
        assert Slot(begin, i) != Slot(begin, size - 1);
        assert full ==> Slot(begin, i) == Slot(old(begin), i + 1);
      }
      assert now == kept + [e];
    }
  }

  lemma HeadOfQueue(popped: seq<Block>, queue: seq<Block>, generation: nat, begin: int)
    requires Chain(popped + queue, generation, begin) && queue != []
    ensures queue[0].generation == generation && 0 < queue[0].frames && queue[0].lba == Reach(popped, begin)
    ensures queue[0].EndLba() <= Reach(popped + queue, begin)
  {
    assert popped + queue == (popped + [queue[0]]) + queue[1..];
    ChainPrefix(popped + [queue[0]], queue[1..], generation, begin);
    assert (popped + [queue[0]])[..|popped|] == popped;
  }

  /** The thread's side: where it stands, its copies, its reader, and the history of the current generation. */
  datatype Thread = Thread(at: Point, locals: Locals, reader: bool, observed: seq<ReadEntry>, streamCapacity: nat)

  class PcmWorker {
    var setup: Setup
    var closing: bool
    var stream: Stream
    var drive: Drive
    var history: History
    ghost var popped: seq<Block>
    ghost var thread: Thread
    /** How often a pop or a status has met a failed stream. */
    ghost var failuresMet: nat

    ghost function Shared(): Monitor
      reads this
    {
      Monitor(setup, closing, stream, drive, history)
    }

    ghost function State(): Sys
      reads this
    {
      Sys(Shared(), thread.at, thread.locals, thread.reader, popped, thread.observed, thread.streamCapacity)
    }

    /** The object is in a state some run of the protocol reaches, and not being destroyed. */
    ghost predicate Valid()
      reads this
    {
      Reachable(State()) && !closing
    }

    /** What a caller may rely on between its calls. */
    lemma CallerFacts()
      requires Valid()
      ensures SetupOk(setup)
      ensures Chain(popped + stream.queue, stream.generation, stream.begin)
      ensures stream.done ==> Reach(popped + stream.queue, stream.begin) == stream.end
      ensures stream.active ==> Reach(popped + stream.queue, stream.begin) <= stream.end
      ensures !stream.active && !stream.done ==> stream.queue == []
      ensures stream.failed ==> !stream.done
    {
      ReachableInv(State());
    }

    constructor (config: BufferConfig, readBlock: nat)
      requires ValidConfig(config) && ValidReadBlock(config, readBlock)
      ensures Valid() && State() == Initial(config, readBlock)
    {
      setup := Setup(config, readBlock, CapacityBlocks(config, readBlock));
      closing := false;
      stream := Stream(0, 0, 0, false, false, false, []);
      drive := Drive(false, false, false, false);
      history := NO_HISTORY;
      popped, failuresMet := [], 0;
      thread := Thread(Top, Locals(0, 0, 0, 0, readBlock), false, [], CapacityBlocks(config, readBlock));
      new;
      assert IsRun([State()]);
    }

    /** The thread takes any number of steps of its own; `ThreadRanIsProgress` says what callers learn from that. */
    method Interfere()
      requires Valid()
      modifies this`stream, this`drive, this`history, this`thread
      ensures Valid() && ThreadRan(old(State()), State())
    {
      assert IsThreadRun([State()]);
    }

    method StartStream(begin: int, end: int) returns (started: nat)
      requires Valid() && 0 <= begin < end
      modifies this`stream, this`history, this`popped, this`thread
      ensures Valid() && Shared() == Start(old(Shared()), begin, end) && popped == []
      ensures started == stream.generation
    {
      ReachableStart(State(), begin, end);
      stream := stream.(generation := stream.generation + 1);
      stream := stream.(begin := begin, end := end, active := true, done := false);
      stream := stream.(queue := [], failed := false);
      history := NO_HISTORY;
      popped := [];
      thread := thread.(observed := [], streamCapacity := setup.capacityBlocks);
      started := stream.generation;
    }

    method Cancel()
      requires Valid()
      modifies this`stream, this`history, this`popped, this`thread
      ensures Valid() && Shared() == PcmMonitor.Cancel(old(Shared())) && popped == []
    {
      ReachableCancel(State());
      stream := stream.(generation := stream.generation + 1, active := false, done := false);
      history := NO_HISTORY;
      stream := stream.(queue := [], failed := false);
      popped := [];
      thread := thread.(observed := []);
    }

    method DiscardReader()
      requires Valid()
      modifies this`stream, this`drive, this`history, this`popped, this`thread
      ensures Valid() && Shared() == PcmMonitor.DiscardReader(old(Shared())) && popped == []
    {
      ReachableCancel(State());
      stream := stream.(generation := stream.generation + 1, active := false, done := false);
      history := NO_HISTORY;
      stream := stream.(queue := [], failed := false);
      popped := [];
      thread := thread.(observed := []);
      drive := drive.(discardReader := true);
    }

    method Pop() returns (block: Option<Block>)
      requires Valid()
      modifies this`stream, this`popped
      ensures Valid()
      ensures block.None? <==> old(stream.queue) == []
      ensures block.None? ==> Shared() == old(Shared()) && popped == old(popped)
      ensures block.Some? ==>
                block.value == old(stream.queue[0]) && Shared() == PcmMonitor.Pop(old(Shared()))
                && popped == old(popped) + [block.value]
    {
      if stream.queue == [] { return None; }
      ReachablePop(State());
      block := Some(stream.queue[0]);
      popped := popped + [stream.queue[0]];
      stream := stream.(queue := stream.queue[1..]);
    }

    /** A caller's pop some time later: what it gets is the next block of its own stream. */
    method PopLater() returns (block: Option<Block>)
      requires Valid()
      modifies this`stream, this`drive, this`history, this`thread, this`popped, this`failuresMet
      ensures Valid() && failuresMet == old(failuresMet) + if stream.failed then 1 else 0
      ensures stream.generation == old(stream).generation
      ensures stream.begin == old(stream).begin && stream.end == old(stream).end
      ensures block.None? ==> popped == old(popped) && stream.queue == []
      ensures old(stream.queue) != [] && !stream.failed ==> block.Some?
      ensures old(stream.failed) ==> stream.failed
      ensures block.Some? ==>
                var b := block.value;
                && popped == old(popped) + [b] && b.generation == stream.generation && 0 < b.frames
                && b.lba == Reach(old(popped), stream.begin) && b.EndLba() <= stream.end
    {
      ghost var before := State();
      Interfere();
      ThreadRanIsProgress(before, State());
      CallerFacts();
      ghost var was, queue := popped, stream.queue;
      block := Pop();
      if stream.failed { failuresMet := failuresMet + 1; }
      if block.Some? {
        HeadOfQueue(was, queue, stream.generation, stream.begin);
      }
    }

    /** `status` some time later. An empty queue of a finished stream means everything was popped. */
    method StatusLater() returns (queued: nat, finished: bool, broken: bool)
      requires Valid()
      modifies this`stream, this`drive, this`history, this`thread, this`failuresMet
      ensures Valid() && popped == old(popped) && failuresMet == old(failuresMet) + if broken then 1 else 0
      ensures (old(stream.queue) <= stream.queue || stream.failed) && (old(stream.done) ==> stream.done)
      ensures old(stream.failed) ==> stream.failed
      ensures stream.generation == old(stream).generation
      ensures stream.begin == old(stream).begin && stream.end == old(stream).end
      ensures queued == |stream.queue| && finished == stream.done && broken == stream.failed
      ensures finished && queued == 0 ==> Reach(popped, stream.begin) == stream.end
    {
      ghost var before := State();
      Interfere();
      ThreadRanIsProgress(before, State());
      CallerFacts();
      queued, finished, broken := |stream.queue|, stream.done, stream.failed;
      if broken { failuresMet := failuresMet + 1; }
      assert queued == 0 ==> popped + stream.queue == popped;
    }

    method Reconfigure(readBlock: nat) returns (accepted: bool)
      requires Valid() && !stream.active
      modifies this
      ensures Valid() && accepted == ValidReadBlock(old(setup).config, readBlock)
      ensures Shared() == if accepted then PcmMonitor.Reconfigure(old(Shared()), readBlock) else old(Shared())
      ensures popped == old(popped)
    {
      if readBlock < BLOCK_CD_FRAMES || readBlock % BLOCK_CD_FRAMES != 0 || setup.config.capacityCdFrames < readBlock {
        return false;
      }
      ReachableReconfigure(State(), readBlock);
      setup := Setup(setup.config, readBlock, CapacityBlocks(setup.config, readBlock));
      drive := drive.(discardReader := true);
      accepted := true;
    }

    method DeviceReleased() returns (released: bool)
      requires Valid()
      ensures released == PcmMonitor.DeviceReleased(Shared())
      ensures released ==> !DeviceBusy(State()) && !thread.reader
    {
      ReachableInv(State());
      released := !stream.active && !drive.callInflight && !drive.discardReader && !drive.readerOpen;
    }
  }
}
