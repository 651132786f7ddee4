/**
  Every interleaving of the PCM worker's thread with its callers, one critical
  section or one device-action boundary per step.
*/
module PcmProtocol {
  import opened Basics
  import opened PcmMonitor

  /** The thread's copies, taken when it picks a stream up. */
  datatype Locals = Locals(generation: nat, position: int, end: int, capacity: nat, readBlock: nat)

  /** What the thread does next; `Run` points are device actions in progress, outside the mutex. */
  datatype Point =
    | Top | DiscardRun | DiscardDone | ExitRun | Exited
    | NeedReader | OpenAdmit | OpenRun | OpenDone | NullCheck | AfterOpen
    | SeekMark | SeekAdmit | SeekRun | SeekDone
    | LoopHead | ReadAdmit | ReadRun | ReadDone(entry: ReadEntry) | AfterRead(entry: ReadEntry) | Push
    | EndStream | Retired | CatchRun | CatchDone

  /** `popped` and `observed` are history variables of the current generation: what callers took and what was read. */
  datatype Sys = Sys(m: Monitor, at: Point, l: Locals, reader: bool, popped: seq<Block>, observed: seq<ReadEntry>,
                     streamCapacity: nat)

  function Initial(config: BufferConfig, readBlock: nat): Sys
    requires 0 < readBlock
  {
    var m := InitialMonitor(config, readBlock);
    Sys(m, Top, Locals(0, 0, 0, 0, readBlock), false, [], [], m.setup.capacityBlocks)
  }

  /** How the device answers: it throws, or it returns (a reader that may be null, or a read's outcome). */
  datatype Answer = Threw | Returned(nonNull: bool, lba: int, framesRead: int, ok: bool)

  datatype Event =
    | StartCall(begin: int, end: int)
    | CancelCall | DiscardCall | CloseCall | PopCall
    | ReconfigureCall(readBlock: nat)
    | Work(answer: Answer)

  /** Callers reconfigure only between streams, and do nothing after destruction began. */
  predicate Enabled(s: Sys, e: Event) {
    match e
    case StartCall(begin, end) => 0 <= begin < end && !s.m.closing
    case CancelCall => !s.m.closing
    case DiscardCall => !s.m.closing
    case CloseCall => !s.m.closing
    case PopCall => s.m.stream.queue != [] && !s.m.closing
    case ReconfigureCall(readBlock) =>
      !s.m.stream.active && !s.m.closing && ValidReadBlock(s.m.setup.config, readBlock)
    case Work(_) =>
      match s.at
      case Top => s.m.closing || s.m.stream.active || s.m.drive.discardReader
      case LoopHead =>
        s.l.end <= s.l.position || s.m.closing || Stale(s) || |s.m.stream.queue| < s.l.capacity
      case Exited => false
      case _ => true
  }

  /** The thread still works for a stream that callers have replaced. */
  predicate Stale(s: Sys) { s.l.generation != s.m.stream.generation }

  /** `invoke_current` refuses an operation of a superseded stream. */
  predicate Superseded(s: Sys) { s.m.closing || Stale(s) || !s.m.stream.active || s.m.drive.discardReader }

  function ControlStep(s: Sys, e: Event): Sys
    requires Enabled(s, e) && !e.Work?
  {
    match e
    case StartCall(begin, end) =>
      s.(m := Start(s.m, begin, end), popped := [], observed := [], streamCapacity := s.m.setup.capacityBlocks)
    case CancelCall => s.(m := Cancel(s.m), popped := [], observed := [])
    case DiscardCall => s.(m := DiscardReader(s.m), popped := [], observed := [])
    case CloseCall => s.(m := Close(s.m))
    case PopCall => s.(m := Pop(s.m), popped := s.popped + [s.m.stream.queue[0]])
    case ReconfigureCall(readBlock) => s.(m := Reconfigure(s.m, readBlock))
  }

  function WithDrive(s: Sys, drive: Drive, at: Point): Sys { s.(m := s.m.(drive := drive), at := at) }

  /** Top of the loop: shut down, close the reader, or pick up a stream. */
  function TopStep(s: Sys): Sys {
    if s.m.closing then s.(at := ExitRun)
    else if s.m.drive.discardReader then
      WithDrive(s, s.m.drive.(discardReader := false, callInflight := true), DiscardRun)
    else s.(at := NeedReader,
            l := Locals(s.m.stream.generation, s.m.stream.begin, s.m.stream.end, s.m.setup.capacityBlocks,
                        s.m.setup.readBlock))
  }

  /** Opening the drive (src/pcm_worker.cpp:211-225). */
  function OpenStep(s: Sys, answer: Answer): Sys {
    match s.at
    case NeedReader =>
      if s.reader then s.(at := AfterOpen) else WithDrive(s, s.m.drive.(callInflight := true), OpenAdmit)
    case OpenAdmit => s.(at := if Superseded(s) then Retired else OpenRun)
    case OpenRun => if answer.Threw? then s.(at := CatchRun) else s.(reader := answer.nonNull, at := OpenDone)
    case OpenDone => WithDrive(s, s.m.drive.(callInflight := false, readerOpen := s.reader), NullCheck)
    case NullCheck => s.(at := if s.reader then AfterOpen else CatchRun)
    case _ => s.(at := if s.m.closing then ExitRun else if Stale(s) then Top else SeekMark)
  }

  /** Seeking to the stream's beginning (src/pcm_worker.cpp:226-228). */
  function SeekStep(s: Sys, answer: Answer): Sys {
    match s.at
    case SeekMark => WithDrive(s, s.m.drive.(callInflight := true), SeekAdmit)
    case SeekAdmit => s.(at := if Superseded(s) then Retired else SeekRun)
    case SeekRun => s.(at := if answer.Threw? then CatchRun else SeekDone)
    case _ => WithDrive(s, s.m.drive.(callInflight := false), LoopHead)
  }

  function NextFrames(l: Locals): int { Min(l.readBlock, l.end - l.position) }

  /** The read loop (src/pcm_worker.cpp:229-311). */
  function ReadStep(s: Sys, answer: Answer): Sys {
    match s.at
    case LoopHead => LoopStep(s)
    case ReadAdmit => s.(at := if Superseded(s) then Retired else ReadRun)
    case ReadRun =>
      if answer.Threw? then s.(at := CatchRun)
      else s.(at := ReadDone(ReadEntry(answer.lba, NextFrames(s.l), answer.framesRead, answer.ok)))
    case ReadDone(entry) => ObserveStep(s, entry)
    case AfterRead(entry) => s.(at := if entry.ok && entry.framesRead == NextFrames(s.l) then Push else CatchRun)
    case _ => PushStep(s)
  }

  function LoopStep(s: Sys): Sys {
    if s.l.end <= s.l.position then s.(at := EndStream)
    else if s.m.closing then s.(at := ExitRun)
    else if Stale(s) then s.(at := EndStream)
    else WithDrive(s, s.m.drive.(callInflight := true, reading := true), ReadAdmit)
  }

  function ObserveStep(s: Sys, entry: ReadEntry): Sys {
    var s1 := WithDrive(s, s.m.drive.(callInflight := false, reading := false), AfterRead(entry));
    if Stale(s) then s1
    else s1.(m := s1.m.(history := Record(s.m.history, entry)), observed := s.observed + [entry])
  }

  function PushStep(s: Sys): Sys {
    if s.m.closing then s.(at := ExitRun)
    else if Stale(s) then s.(at := EndStream)
    else
      var block := Block(s.l.generation, s.l.position, NextFrames(s.l));
      s.(m := s.m.(stream := s.m.stream.(queue := s.m.stream.queue + [block])),
         l := s.l.(position := block.EndLba()), at := LoopHead)
  }

  /** Ends of a stream, of the reader and of the thread (src/pcm_worker.cpp:163-183, 312-337). */
  function EndStep(s: Sys): Sys {
    match s.at
    case DiscardRun => s.(reader := false, at := DiscardDone)
    case DiscardDone => WithDrive(s, s.m.drive.(callInflight := false, readerOpen := false), Top)
    case ExitRun => s.(reader := false, at := Exited)
    case EndStream => FinishStep(s)
    case Retired => WithDrive(s, s.m.drive.(callInflight := false, reading := false), Top)
    case CatchRun => s.(reader := false, at := CatchDone)
    case CatchDone => FailStep(s)
    case _ => s
  }

  function FinishStep(s: Sys): Sys {
    if Stale(s) then s.(at := Top)
    else s.(m := s.m.(stream := s.m.stream.(active := false, done := true)), at := Top)
  }

  function FailStep(s: Sys): Sys {
    var s1 := WithDrive(s, s.m.drive.(callInflight := false, readerOpen := false, reading := false), Top);
    if Stale(s) then s1
    else s1.(m := s1.m.(stream := s1.m.stream.(failed := true, active := false, done := false, queue := [])))
  }

  predicate Opening(at: Point) {
    at.NeedReader? || at.OpenAdmit? || at.OpenRun? || at.OpenDone? || at.NullCheck? || at.AfterOpen?
  }

  predicate SeekingStart(at: Point) { at.SeekMark? || at.SeekAdmit? || at.SeekRun? || at.SeekDone? }

  predicate InLoop(at: Point) {
    at.LoopHead? || at.ReadAdmit? || at.ReadRun? || at.ReadDone? || at.AfterRead? || at.Push?
  }

  function WorkStep(s: Sys, answer: Answer): Sys {
    if s.at.Top? then TopStep(s)
    else if Opening(s.at) then OpenStep(s, answer)
    else if SeekingStart(s.at) then SeekStep(s, answer)
    else if InLoop(s.at) then ReadStep(s, answer)
    else EndStep(s)
  }

  function Next(s: Sys, e: Event): Sys
    requires Enabled(s, e)
  {
    if e.Work? then WorkStep(s, e.answer) else ControlStep(s, e)
  }

  ghost predicate Step(a: Sys, b: Sys) { exists e :: Enabled(a, e) && Next(a, e) == b }

  /** A step of the worker thread. */
  ghost predicate ThreadStep(a: Sys, b: Sys) { exists answer :: Enabled(a, Work(answer)) && WorkStep(a, answer) == b }

  ghost predicate IsInitial(s: Sys) {
    exists config, readBlock ::
      ValidConfig(config) && ValidReadBlock(config, readBlock) && s == Initial(config, readBlock)
  }

  /** The states of a run: it starts configured, and each state follows from the one before by one event. */
  ghost predicate IsRun(run: seq<Sys>) {
    && 0 < |run| && IsInitial(run[0])
    && forall i :: 0 <= i < |run| - 1 ==> Step(run[i], run[i + 1])
  }

  ghost predicate Reachable(s: Sys) { exists run :: IsRun(run) && run[|run| - 1] == s }

  /** The states between two calls of a caller: only the thread moves. */
  ghost predicate IsThreadRun(run: seq<Sys>) {
    0 < |run| && forall i :: 0 <= i < |run| - 1 ==> ThreadStep(run[i], run[i + 1])
  }

  ghost predicate ThreadRan(a: Sys, b: Sys) {
    exists run :: IsThreadRun(run) && run[0] == a && run[|run| - 1] == b
  }
}
