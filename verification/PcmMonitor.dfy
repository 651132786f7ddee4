/**
  The PCM read worker (src/pcm_worker.cpp): callers bump a generation and own a
  bounded queue; one thread opens, seeks, reads and closes the drive. The
  functions here are the mutex critical sections on the shared state.
*/
module PcmMonitor {
  import opened Basics

  const HISTORY_CAPACITY: nat := 128
  const BLOCK_CD_FRAMES: nat := 15
  const MAXIMUM_BUFFER_CD_FRAMES: nat := 2250

  /** `frames` CD frames read at `lba` for one stream. */
  datatype Block = Block(generation: nat, lba: int, frames: int) {
    function EndLba(): int { lba + frames }
  }

  /** One wrapper read: where it began, what it was asked for and what it returned. */
  datatype ReadEntry = ReadEntry(lba: int, framesRequested: int, framesRead: int, ok: bool)

  datatype BufferConfig = BufferConfig(capacityCdFrames: nat, startupCdFrames: nat)

  predicate ValidConfig(c: BufferConfig) {
    && BLOCK_CD_FRAMES <= c.capacityCdFrames <= MAXIMUM_BUFFER_CD_FRAMES && c.capacityCdFrames % BLOCK_CD_FRAMES == 0
    && BLOCK_CD_FRAMES <= c.startupCdFrames <= c.capacityCdFrames && c.startupCdFrames % BLOCK_CD_FRAMES == 0
  }

  predicate ValidReadBlock(c: BufferConfig, readBlock: nat) {
    BLOCK_CD_FRAMES <= readBlock <= c.capacityCdFrames && readBlock % BLOCK_CD_FRAMES == 0
  }

  function CapacityBlocks(c: BufferConfig, readBlock: nat): nat
    requires 0 < readBlock
  {
    c.capacityCdFrames / readBlock
  }

  function StartupBlocks(c: BufferConfig, readBlock: nat): nat
    requires 0 < readBlock
  {
    Min(CapacityBlocks(c, readBlock), (c.startupCdFrames + readBlock - 1) / readBlock)
  }

  /** What one stream generation owns. */
  datatype Stream = Stream(generation: nat, begin: int, end: int, active: bool, done: bool, failed: bool,
                           queue: seq<Block>)

  /** What callers are told about the drive. */
  datatype Drive = Drive(discardReader: bool, readerOpen: bool, callInflight: bool, reading: bool)

  /** The newest reads of the stream, how many older ones were dropped, and how many reads there were. */
  datatype History = History(recent: seq<ReadEntry>, evicted: nat, readCalls: nat)

  datatype Setup = Setup(config: BufferConfig, readBlock: nat, capacityBlocks: nat)

  datatype Monitor = Monitor(setup: Setup, closing: bool, stream: Stream, drive: Drive, history: History)

  const NO_HISTORY := History([], 0, 0)

  function InitialMonitor(config: BufferConfig, readBlock: nat): Monitor
    requires 0 < readBlock
  {
    Monitor(Setup(config, readBlock, CapacityBlocks(config, readBlock)), false,
            Stream(0, 0, 0, false, false, false, []), Drive(false, false, false, false), NO_HISTORY)
  }

  /** Everything that belongs to the old stream goes with its generation. */
  function Start(m: Monitor, begin: int, end: int): Monitor {
    m.(stream := Stream(m.stream.generation + 1, begin, end, true, false, false, []), history := NO_HISTORY)
  }

  function Cancel(m: Monitor): Monitor {
    m.(stream := Stream(m.stream.generation + 1, m.stream.begin, m.stream.end, false, false, false, []),
       history := NO_HISTORY)
  }

  function DiscardReader(m: Monitor): Monitor {
    Cancel(m).(drive := m.drive.(discardReader := true))
  }

  function Reconfigure(m: Monitor, readBlock: nat): Monitor
    requires 0 < readBlock
  {
    m.(setup := Setup(m.setup.config, readBlock, CapacityBlocks(m.setup.config, readBlock)),
       drive := m.drive.(discardReader := true))
  }

  /** Destruction bumps the generation but leaves the queue: nobody may pop any more. */
  function Close(m: Monitor): Monitor {
    m.(closing := true, stream := m.stream.(generation := m.stream.generation + 1))
  }

  predicate DeviceReleased(m: Monitor) {
    !m.stream.active && !m.drive.callInflight && !m.drive.discardReader && !m.drive.readerOpen
  }

  function Pop(m: Monitor): Monitor
    requires m.stream.queue != []
  {
    m.(stream := m.stream.(queue := m.stream.queue[1..]))
  }

  /** The ring keeps the newest HISTORY_CAPACITY reads and counts the rest. */
  function Record(h: History, e: ReadEntry): History {
    if |h.recent| == HISTORY_CAPACITY then History(h.recent[1..] + [e], h.evicted + 1, h.readCalls + 1)
    else History(h.recent + [e], h.evicted, h.readCalls + 1)
  }
}
