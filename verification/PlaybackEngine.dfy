/**
  The playback engine (src/playback_engine.cpp): one main-loop object that pops
  blocks from the worker, writes them to a sink that takes what it likes, and
  keeps the controller's position, the evidence of what is audible and a budget
  of underrun recoveries. The worker thread interferes between its calls.
*/
module PlaybackEngines {
  import opened Basics
  import opened PlayerModel
  import opened PlayerControllers
  import opened PcmMonitor
  import opened PcmSafety
  import opened PcmWorkers
  import Log = PlaybackLog

  datatype WriteOutcome = Took(count: nat) | WriteUnderrun | WriteFailed
  datatype DelayOutcome = Known(delay: int) | DelayUnderrun | DelayFailed
  datatype DrainOutcome = Drained(complete: bool) | DrainUnderrun | DrainFailed

  /** How many samples the sink was offered, and what it answered. */
  datatype Offer = Offer(samples: int, answer: WriteOutcome) {
    /** The stereo frames that count as taken. */
    function Taken(): nat { if answer.Took? && 2 * answer.count <= samples then answer.count else 0 }

    function Outcome(): (r: Outcome)
      ensures r == Fine || r == Underrun || r == Failed
    {
      match answer
      case Took(count) => if 2 * count <= samples then Fine else Failed
      case WriteUnderrun => Underrun
      case WriteFailed => Failed
    }
  }

  /** The offers of which the sink took some. */
  function Takes(offers: seq<Offer>): nat {
    if offers == [] then 0
    else Takes(offers[..|offers| - 1]) + if offers[|offers| - 1].Taken() == 0 then 0 else 1
  }

  /** Where the writing stands: the sink's records, whether there is more to write, and how often the worker failed. */
  datatype Accounts = Accounts(log: seq<Log.Entry>, offers: seq<Offer>, toOffer: bool, nothingLeft: bool,
                               failuresMet: nat)

  /** From `a` to `b` the log has one more entry for every offer of which the sink took some. */
  predicate Answered(a: Accounts, b: Accounts) {
    a.failuresMet <= b.failuresMet && Noted(a.log, a.offers, b.log, b.offers)
  }

  /** The resets of the sink: one more, with this answer. */
  predicate OneReset(before: seq<bool>, after: seq<bool>, ok: bool) {
    |after| == |before| + 1 && before <= after && after[|before|] == ok
  }

  /** The sink was reset, and the first reset had this answer. */
  predicate FirstReset(before: seq<bool>, after: seq<bool>, ok: bool) {
    |before| < |after| && before <= after && after[|before|] == ok
  }

  lemma FirstOf(before: seq<bool>, ok: bool, after: seq<bool>)
    requires before + [ok] <= after
    ensures FirstReset(before, after, ok)
  {
    assert after[..|before| + 1] == before + [ok];
  }

  /** One more wait for the sink, and what comes of its answer; a sink that has drained is reset. */
  predicate Waited(before: seq<DrainOutcome>, after: seq<DrainOutcome>, resets: seq<bool>, resets': seq<bool>,
                   outcome: Outcome)
  {
    && |after| == |before| + 1 && before <= after
    && match after[|before|]
       case DrainUnderrun => outcome == Underrun
       case DrainFailed => outcome == Failed
       case Drained(complete) =>
         if complete then OneReset(resets, resets', outcome == Completed) && (outcome == Completed || outcome == Failed)
         else outcome == Fine
  }

  predicate Noted(log: seq<Log.Entry>, offers: seq<Offer>, log': seq<Log.Entry>, offers': seq<Offer>) {
    log <= log' && offers <= offers' && |log'| - |log| == Takes(offers') - Takes(offers)
  }

  /** Nothing was written meanwhile. */
  predicate Still(a: Accounts, b: Accounts) {
    a.failuresMet <= b.failuresMet && b.log == a.log && b.offers == a.offers
  }

  lemma StillThenWritten(a: Accounts, b: Accounts, c: Accounts)
    requires Still(a, b) && Answered(b, c)
    ensures Answered(a, c) && ((a.toOffer ==> b.toOffer) && Tried(b, c) ==> Tried(a, c))
  {
  }

  /** The log has at least one more entry for every offer of which the sink took some; the rest are recoveries. */
  predicate Replied(a: Accounts, b: Accounts) {
    && a.log <= b.log && a.offers <= b.offers && a.failuresMet <= b.failuresMet
    && Takes(b.offers) - Takes(a.offers) <= |b.log| - |a.log|
  }

  /** Nothing was written, but perhaps a recovery. */
  predicate Handled(a: Accounts, b: Accounts) {
    a.log <= b.log && b.offers == a.offers && b.failuresMet == a.failuresMet
  }

  /** A failure may be handled behind the writes. */
  lemma WrittenThenHandled(a: Accounts, b: Accounts, c: Accounts)
    requires Answered(a, b) && Handled(b, c)
    ensures Replied(a, c) && (Tried(a, b) ==> Tried(a, c))
  {
  }

  lemma StillStill(a: Accounts, b: Accounts, c: Accounts)
    requires Still(a, b) && Still(b, c)
    ensures Still(a, c)
  {
  }

  lemma WrittenThenStill(a: Accounts, b: Accounts, c: Accounts)
    requires Answered(a, b) && Tried(a, b) && Still(b, c)
    ensures Answered(a, c) && Tried(a, c)
  {
  }

  /** Whatever there was to write has been offered, unless the stream was found to have failed. */
  predicate Tried(a: Accounts, b: Accounts) {
    a.toOffer ==> |a.offers| < |b.offers| || a.failuresMet < b.failuresMet
  }

  /** One more offer, with this outcome; the sink is to be offered more if it has taken some. */
  predicate OneWrite(before: seq<Offer>, after: seq<Offer>, more: bool, outcome: Outcome) {
    && |after| == |before| + 1 && before <= after
    && after[|before|].Outcome() == outcome && (more <==> after[|before|].Taken() != 0)
  }

  /** One turn of the writing: an offer, or nothing was left to offer. */
  predicate Turned(a: Accounts, b: Accounts, more: bool, outcome: Outcome) {
    && Answered(a, b) && Tried(a, b)
    && (OneWrite(a.offers, b.offers, more, outcome)
        || (b.offers == a.offers && !more && outcome == Fine && b.nothingLeft))
  }

  lemma ThenOffered(a: Accounts, b: Accounts, c: Accounts, more: bool, outcome: Outcome)
    requires Still(a, b) && OneWrite(b.offers, c.offers, more, outcome) && b.failuresMet == c.failuresMet
    requires Noted(b.log, b.offers, c.log, c.offers)
    ensures Turned(a, c, more, outcome)
  {
  }

  /** Where the writing stands after `i` turns. */
  predicate Filling(a: Accounts, b: Accounts, i: nat, more: bool, outcome: Outcome) {
    && Answered(a, b)
    && (if i == 0 then b.toOffer == a.toOffer && b.offers == a.offers else Tried(a, b))
    && (Writing(a.offers, b.offers, i, more, outcome) || (!more && outcome == Fine && b.nothingLeft))
  }

  predicate Writing(before: seq<Offer>, after: seq<Offer>, i: nat, more: bool, outcome: Outcome) {
    && before <= after && |after| == |before| + i
    && if i == 0 then more && outcome == Fine
       else outcome == after[|after| - 1].Outcome() && (more <==> after[|after| - 1].Taken() != 0)
  }

  lemma OneMoreTurn(a: Accounts, b: Accounts, c: Accounts, i: nat, more: bool, outcome: Outcome)
    requires Filling(a, b, i, true, Fine) && Turned(b, c, more, outcome)
    ensures Filling(a, c, i + 1, more, outcome)
  {
  }

  /** The writes of a tick: all twelve, or up to one that failed or of which the sink took nothing. */
  predicate Filled(before: seq<Offer>, after: seq<Offer>, outcome: Outcome) {
    && before <= after && |before| < |after| <= |before| + WRITES_PER_TICK
    && outcome == after[|after| - 1].Outcome()
    && (outcome == Fine ==> |after| == |before| + WRITES_PER_TICK || after[|after| - 1].Taken() == 0)
  }

  /** What the writes of a tick come to. */
  predicate Sunk(a: Accounts, b: Accounts, outcome: Outcome) {
    && Answered(a, b) && Tried(a, b)
    && (Filled(a.offers, b.offers, outcome) || (outcome == Fine && b.nothingLeft))
  }

  lemma OneMoreOffer(offers: seq<Offer>, o: Offer)
    ensures Takes(offers + [o]) == Takes(offers) + if o.Taken() == 0 then 0 else 1
  {
    assert (offers + [o])[..|offers|] == offers;
  }

  /**
    The sink: any answer, any time. It keeps on record what it took since the stream began, where a recovery reset it,
    whether it has played all of it out and whether it has been reset since it last took any, and its last delay; and
    what it was asked and how it answered: every offer, every reset and every wait for it to drain.
  */
  class AudioOutput {
    ghost var offers: seq<Offer>
    ghost var resets: seq<bool>
    ghost var drains: seq<DrainOutcome>
    ghost var log: seq<Log.Entry>
    ghost var drained: bool
    ghost var silent: bool
    ghost var delay: int

    constructor ()
      ensures log == [] && !drained && !silent && offers == []
    {
      log, drained, silent, delay := [], false, false, 0;
      offers, resets, drains := [], [], [];
    }

    /** Offers what is left of a block. A sink that claims more than it was offered has taken nothing that counts. */
    method Write(block: Block, offset: int) returns (o: WriteOutcome)
      requires 0 <= offset <= Samples(block)
      modifies this`offers, this`log, this`drained, this`silent
      ensures offers == old(offers) + [Offer(Samples(block) - offset, o)]
      ensures log == old(log) + (if Counts(o, block, offset) then Taken(block, offset, o.count) else [])
      ensures log != old(log) ==> !drained && !silent
      ensures log == old(log) ==> drained == old(drained) && silent == old(silent)
    {
      o := *;
      offers := offers + [Offer(Samples(block) - offset, o)];
      if Counts(o, block, offset) && o.count != 0 {
        log, drained, silent := log + Taken(block, offset, o.count), false, false;
      }
    }

    method Delay() returns (o: DelayOutcome)
      modifies this`delay
      ensures o.Known? ==> delay == o.delay
    {
      o := *;
      if o.Known? { delay := o.delay; }
    }

    method Drain() returns (o: DrainOutcome)
      modifies this`drained, this`drains
      ensures drained == (old(drained) || (o.Drained? && o.complete)) && drains == old(drains) + [o]
    {
      o := *;
      drains := drains + [o];
      if o.Drained? && o.complete { drained := true; }
    }

    /** Drops what is not yet played; a recovery says where it resumes. */
    method Reset(ghost resume: Option<int>) returns (ok: bool)
      modifies this`log, this`silent, this`resets
      ensures resets == old(resets) + [ok]
      ensures ok ==> silent && log == old(log) + (if resume.Some? then [Log.Recovered(resume.value)] else [])
      ensures !ok ==> silent == old(silent) && log == old(log)
    {
      ok := *;
      resets := resets + [ok];
      if ok {
        log, silent := log + (if resume.Some? then [Log.Recovered(resume.value)] else []), true;
      }
    }

    /** A new stream on a sink that has been reset. */
    ghost method Begin()
      requires silent
      modifies this`log, this`drained
      ensures log == [] && !drained
    {
      log, drained := [], false;
    }
  }

  /** The sink took no more than it was offered. */
  predicate Counts(o: WriteOutcome, block: Block, offset: int) { o.Took? && 2 * o.count <= Samples(block) - offset }

  /** How a tick ends: normally, or with the exception it lets out. */
  datatype Outcome = Fine | Stalled | Completed | Underrun | Failed

  /** Stereo frames [begin, end) of the stream came from `block`. */
  datatype Submitted = Submitted(begin: int, end: int, block: Block)

  const NO_BLOCK := Block(0, 0, 0)
  const WRITES_PER_TICK: nat := 12

  function Samples(b: Block): int { b.frames * SAMPLES_PER_FRAME }

  /** The runs follow each other up to `submitted`, each inside its own block. */
  ghost predicate EvidenceOk(runs: seq<Submitted>, start: int, submitted: int) {
    runs == [] ||
    (var r := runs[|runs| - 1];
     0 <= r.begin < r.end == submitted && RunInBlock(r, start) && EvidenceOk(runs[..|runs| - 1], start, r.begin))
  }

  lemma ExtendEvidence(runs: seq<Submitted>, start: int, submitted: int, r: Submitted)
    requires EvidenceOk(runs, start, submitted) && 0 <= submitted == r.begin < r.end && RunInBlock(r, start)
    ensures EvidenceOk(runs + [r], start, r.end)
  {
    assert (runs + [r])[..|runs|] == runs;
  }

  /** Retiring the oldest run leaves the others in order. */
  lemma {:induction false} RetireEvidence(runs: seq<Submitted>, start: int, submitted: int)
    requires EvidenceOk(runs, start, submitted) && runs != []
    ensures EvidenceOk(runs[1..], start, submitted) && RunInBlock(runs[0], start)
    ensures 0 <= runs[0].begin < runs[0].end <= submitted
    decreases runs
  {
    if 1 < |runs| {
      var front := runs[..|runs| - 1];
      RetireEvidence(front, start, runs[|runs| - 1].begin);
      assert runs[1..][..|runs| - 2] == front[1..];
    }
  }

  /** What a write adds to the runs. */
  function OneRun(submitted: int, accepted: nat, block: Block): seq<Submitted> {
    if accepted == 0 then [] else [Submitted(submitted, submitted + accepted, block)]
  }

  /** Where the runs kept begin. */
  function KeptFrom(runs: seq<Submitted>, submitted: int): int {
    if runs == [] then submitted else runs[0].begin
  }

  /** The runs left when those that end by `heard` are dropped from the front. */
  function Unheard(runs: seq<Submitted>, heard: int): seq<Submitted> {
    if runs != [] && runs[0].end <= heard then Unheard(runs[1..], heard) else runs
  }

  /** A run retired is followed by the next one. */
  lemma {:induction false} NextFollows(runs: seq<Submitted>, start: int, submitted: int)
    requires EvidenceOk(runs, start, submitted) && runs != []
    ensures KeptFrom(runs[1..], submitted) == runs[0].end
    decreases runs
  {
    if 1 < |runs| {
      var front, last := runs[..|runs| - 1], runs[|runs| - 1];
      NextFollows(front, start, last.begin);
      if |front| == 1 { assert runs[1..] == [last]; } else { assert runs[1..][0] == front[1..][0]; }
    }
  }

  /**
    Evidence is there exactly when something submitted is still unheard and the runs kept reach back to what is heard;
    it covers what is heard.
  */
  lemma {:induction false} AudibleIff(runs: seq<Submitted>, start: int, submitted: int, heard: int)
    requires EvidenceOk(runs, start, submitted) && heard <= submitted
    ensures EvidenceOk(Unheard(runs, heard), start, submitted)
    ensures KeptFrom(Unheard(runs, heard), submitted) <= Max(KeptFrom(runs, submitted), heard)
    ensures Audible(Unheard(runs, heard), heard).Some? <==> heard < submitted && KeptFrom(runs, submitted) <= heard
    ensures Audible(Unheard(runs, heard), heard).Some? ==>
              Covers(Audible(Unheard(runs, heard), heard).value, start * STEREO_PER_FRAME + heard)
    decreases runs
  {
    if runs != [] {
      RetireEvidence(runs, start, submitted);
      NextFollows(runs, start, submitted);
      if runs[0].end <= heard { AudibleIff(runs[1..], start, submitted, heard); }
    }
  }

  /**
    A delay that grows takes the evidence away: of two runs of a hundred frames, the first is dropped when 150 are
    heard; when the sink then says that 50 were, nothing is left that covers them.
  */
  lemma GrownDelayLosesEvidence() returns (runs: seq<Submitted>, start: int)
    ensures EvidenceOk(runs, start, 200) && Audible(Unheard(runs, 50), 50).Some?
    ensures Audible(Unheard(runs, 150), 150).Some? && Audible(Unheard(Unheard(runs, 150), 50), 50) == None
  {
    var block := Block(1, 0, 1);
    start := 0;
    var first, second := Submitted(0, 100, block), Submitted(100, 200, block);
    runs := [first] + [second];
    assert [first][..0] == [] && EvidenceOk([], start, 0);
    assert EvidenceOk([first], start, 100);
    assert runs[..1] == [first] && runs[1..] == [second];
  }

  /** The log stands at `due`, having recovered so often. */
  ghost predicate LogAt(log: seq<Log.Entry>, from: int, due: int, recoveries: nat) {
    Log.WellFormed(log, from) && Log.Position(log, from) == due
    && Log.Recoveries(log) == recoveries <= Log.MAXIMUM_UNDERRUN_RECOVERIES
  }

  lemma ExtendLog(log: seq<Log.Entry>, from: int, due: int, recoveries: nat, accepted: nat)
    requires LogAt(log, from, due, recoveries) && 0 < accepted
    ensures LogAt(log + [Log.Accepted(due, due + accepted)], from, due + accepted, recoveries)
  {
    Log.Extend(log, from, Log.Accepted(due, due + accepted));
  }

  /** Where a recovery resumes: the start of the CD frame the stream stands in. */
  lemma WholeFrame(start: int, submitted: int, end: int, position: int)
    requires 0 <= submitted < (end - start) * STEREO_PER_FRAME
    requires start <= position && position * STEREO_PER_FRAME <= start * STEREO_PER_FRAME + submitted
    ensures var at := Max(position, Min(end - 1, start + submitted / STEREO_PER_FRAME));
            && start <= at < end && at * STEREO_PER_FRAME % STEREO_PER_FRAME == 0
            && at * STEREO_PER_FRAME <= start * STEREO_PER_FRAME + submitted < (at + 1) * STEREO_PER_FRAME
  {
  }

  lemma FrameStart(position: int, origin: int, due: int)
    requires origin <= position && position * STEREO_PER_FRAME <= due < (position + 1) * STEREO_PER_FRAME
    ensures position * STEREO_PER_FRAME % STEREO_PER_FRAME == 0
    ensures due - STEREO_PER_FRAME < position * STEREO_PER_FRAME <= due
    ensures origin * STEREO_PER_FRAME <= position * STEREO_PER_FRAME
  {
  }

  /** A recovery steps the log back to the start of the CD frame it stands in. */
  lemma RewindLog(log: seq<Log.Entry>, from: int, due: int, recoveries: nat, at: int)
    requires LogAt(log, from, due, recoveries) && recoveries < Log.MAXIMUM_UNDERRUN_RECOVERIES
    requires due - STEREO_PER_FRAME < at <= due && from <= at && at % STEREO_PER_FRAME == 0
    ensures LogAt(log + [Log.Recovered(at)], from, at, recoveries + 1)
  {
    Log.Extend(log, from, Log.Recovered(at));
  }

  /** The block of the oldest run not yet played out, once it has begun. */
  function Audible(runs: seq<Submitted>, played: int): Option<Block> {
    if runs != [] && runs[0].begin <= played then Some(runs[0].block) else None
  }

  ghost predicate Covers(b: Block, frame: int) {
    b.lba * STEREO_PER_FRAME <= frame < b.EndLba() * STEREO_PER_FRAME
  }

  ghost predicate RunInBlock(r: Submitted, start: int) {
    && r.block.lba * STEREO_PER_FRAME <= start * STEREO_PER_FRAME + r.begin
    && start * STEREO_PER_FRAME + r.end <= r.block.EndLba() * STEREO_PER_FRAME
  }

  /** The log of a write: which stereo frames of the disc the samples handed over are. */
  function Taken(block: Block, offset: int, accepted: nat): seq<Log.Entry> {
    var first := block.lba * STEREO_PER_FRAME + offset / 2;
    if accepted == 0 then [] else [Log.Accepted(first, first + accepted)]
  }

  class PlaybackEngine {
    const controller: PlayerController
    const worker: PcmWorker
    const output: AudioOutput
    var end: int
    var start: int
    var submitted: int
    var generation: nat
    var block: Block
    var offset: int
    var active: bool
    var primed: bool
    var draining: bool
    var prebufferBlocks: nat
    var underrunRecoveries: nat
    var readerFailure: bool
    var submittedEvidence: seq<Submitted>
    var currentEvidence: Option<Block>
    /** Where the stream began, what the sink took, and the last audible position. */
    ghost var origin: int
    /** The furthest audible position since the stream last started. */
    ghost var reached: int
    ghost var played: int

    /** Everything this object reaches is in order; nothing is said about a stream. */
    ghost predicate Ready()
      reads this, controller, worker
    {
      worker.Valid() && PlayerModel.Valid(controller.Model())
    }

    /** The absolute stereo frame the sink is to get next. */
    ghost function Due(): int
      reads this`start, this`submitted
    {
      start * STEREO_PER_FRAME + submitted
    }

    /** The stream the worker reads is the one this engine started. */
    ghost predicate StreamOk()
      reads this`start, this`submitted, this`generation, this`end, this`origin, this`block, this`offset, worker
    {
      && worker.stream.generation == generation && worker.stream.begin == start && worker.stream.end == end
      && 0 <= origin <= start < end
      && 0 <= submitted
      && 0 <= offset <= Samples(block)
      && (block != NO_BLOCK ==> block.EndLba() == Reach(worker.popped, start))
      && 2 * Due() + Samples(block) - offset == Reach(worker.popped, start) * SAMPLES_PER_FRAME
      && Reach(worker.popped, start) <= end
    }

    /** The sink's log stands where the counters say. */
    ghost predicate LogOk()
      reads this`start, this`submitted, this`end, this`origin, this`underrunRecoveries, this`draining, output`log
    {
      && LogAt(output.log, origin * STEREO_PER_FRAME, Due(), underrunRecoveries)
      && (draining ==> submitted == (end - start) * STEREO_PER_FRAME)
    }

    /** What the sink was given since the last `synchronize`, whether or not the stream has ended. */
    ghost predicate Played()
      reads this`origin, output`log
    {
      && Log.WellFormed(output.log, origin * STEREO_PER_FRAME)
      && Log.Recoveries(output.log) <= Log.MAXIMUM_UNDERRUN_RECOVERIES
    }

    /** The controller plays this stream and has not run ahead of it. */
    ghost predicate PositionOk()
      reads this`start, this`submitted, this`end, this`origin, controller
    {
      && controller.playback == Playing && controller.position.Some? && controller.end == end
      && controller.begin <= origin
      && start <= controller.position.value && controller.position.value * STEREO_PER_FRAME <= Due()
    }

    ghost predicate AudibleOk()
      reads this`start, this`submitted, this`submittedEvidence, this`currentEvidence, this`reached, this`played
    {
      && EvidenceOk(submittedEvidence, start, submitted)
      && KeptFrom(submittedEvidence, submitted) <= reached <= submitted
      && (currentEvidence.Some? ==> Covers(currentEvidence.value, start * STEREO_PER_FRAME + played))
    }

    ghost predicate EngineOk()
      reads this, controller, worker, output
    {
      worker.Valid() && (active ==> StreamOk() && LogOk() && PositionOk() && AudibleOk())
    }

    ghost predicate Valid()
      reads this, controller, worker, output
    {
      EngineOk() && PlayerModel.Valid(controller.Model())
    }

    constructor (c: PlayerController, w: PcmWorker, o: AudioOutput, discEnd: int)
      requires w.Valid() && PlayerModel.Valid(c.Model()) && 0 <= discEnd
      ensures controller == c && worker == w && output == o && end == discEnd
      ensures 0 < w.setup.readBlock && prebufferBlocks == StartupBlocks(w.setup.config, w.setup.readBlock)
      ensures Valid() && !active
    {
      controller, worker, output, end := c, w, o, discEnd;
      start, submitted, generation, block, offset := 0, 0, 0, NO_BLOCK, 0;
      active, primed, draining, readerFailure := false, false, false, false;
      w.CallerFacts();
      prebufferBlocks, underrunRecoveries := StartupBlocks(w.setup.config, w.setup.readBlock), 0;
      submittedEvidence, currentEvidence := [], None;
      origin, played, reached := 0, 0, 0;
    }

    /** Forgets the PCM in hand. */
    method ClearBlock()
      modifies this`block, this`offset, this`submitted, this`primed, this`draining, this`submittedEvidence,
               this`currentEvidence
      ensures block == NO_BLOCK && offset == 0 && submitted == 0 && !primed && !draining
      ensures submittedEvidence == [] && currentEvidence == None
    {
      block, offset, submitted, primed, draining := NO_BLOCK, 0, 0, false, false;
      submittedEvidence, currentEvidence := [], None;
    }

    /** Starts the worker at the controller's position. */
    method StartAtPosition()
      requires worker.Valid() && controller.position.Some? && 0 <= controller.position.value < end
      modifies this`start, this`generation, this`active, worker`stream, worker`history, worker`popped, worker`thread
      ensures worker.Valid() && active && start == controller.position.value
      ensures worker.stream.generation == generation && worker.stream.begin == start && worker.stream.end == end
      ensures worker.popped == []
    {
      start := controller.position.value;
      generation := worker.StartStream(start, end);
      active := true;
    }

    /** Invalidates the running stream; a new transition starts with a new recovery budget. */
    method DropStream() returns (reset: bool)
      requires worker.Valid()
      modifies this`active, this`underrunRecoveries, this`block, this`offset, this`submitted, this`primed,
               this`draining, this`submittedEvidence, this`currentEvidence, worker`stream, worker`history,
               worker`popped, worker`thread, output`log, output`silent, output`resets
      ensures worker.Valid() && !worker.stream.active && !active && underrunRecoveries == 0
      ensures output.log == old(output.log) && (reset ==> output.silent)
      ensures output.resets == old(output.resets) + [reset]
      ensures reset ==> block == NO_BLOCK && offset == 0 && submitted == 0 && !draining
      ensures reset ==> submittedEvidence == [] && currentEvidence == None
    {
      active := false;
      underrunRecoveries := 0;
      worker.Cancel();
      reset := output.Reset(None);
      if reset { ClearBlock(); }
    }

    /** A stream begins with an empty log and a full recovery budget. */
    method StartFresh()
      requires Ready() && controller.playback == Playing && controller.end == end
      requires block == NO_BLOCK && offset == 0 && submitted == 0 && !draining && underrunRecoveries == 0
      requires submittedEvidence == [] && currentEvidence == None && output.silent
      modifies this`start, this`generation, this`active, this`origin, this`played, this`reached, worker`stream,
               worker`history, worker`popped, worker`thread, output`log, output`drained
      ensures Valid() && active && output.log == [] && start == origin == controller.position.value
    {
      StartAtPosition();
      output.Begin();
      origin, played, reached := start, 0, 0;
    }

    /**
      Called after every position or state command: drops all old PCM and, when playing, starts a stream at the
      controller's position with a fresh recovery budget and an empty log.
    */
    method Synchronize() returns (outcome: Outcome)
      requires Ready() && (controller.playback == Playing ==> controller.end == end)
      modifies this, worker`stream, worker`drive, worker`history, worker`thread, worker`popped, output`log,
               output`silent, output`resets, output`drained
      ensures Valid() && end == old(end)
      ensures active ==> output.log == [] && start == origin == controller.position.value && underrunRecoveries == 0
      ensures outcome == Fine ==> (active <==> controller.playback == Playing)
      ensures outcome == Fine && controller.playback == Stopped ==> !worker.stream.active
      ensures outcome != Fine ==> !active && !worker.stream.active
      ensures outcome == Fine || outcome == Failed
      ensures !active ==>
                output.log == old(output.log) && output.drained == old(output.drained) && origin == old(origin)
      ensures outcome == Fine ==> output.silent
      ensures |output.resets| == |old(output.resets)| + 1 && old(output.resets) <= output.resets
      ensures outcome == Fine <==>
                && output.resets[|old(output.resets)|]
                && (controller.playback == Playing ==> controller.position.value < end)
    {
      var reset := DropStream();
      if !reset { return Failed; }
      outcome := Begin();
    }

    /** What the controller's state calls for, on a sink that has just been reset. */
    method Begin() returns (outcome: Outcome)
      requires Ready() && (controller.playback == Playing ==> controller.end == end)
      requires block == NO_BLOCK && offset == 0 && submitted == 0 && !draining && underrunRecoveries == 0
      requires submittedEvidence == [] && currentEvidence == None && output.silent && !active && !worker.stream.active
      modifies this, worker`stream, worker`drive, worker`history, worker`thread, worker`popped, output`log,
               output`drained
      ensures Valid() && end == old(end)
      ensures active ==> output.log == [] && start == origin == controller.position.value && underrunRecoveries == 0
      ensures outcome == Fine ==> (active <==> controller.playback == Playing)
      ensures !active ==>
                output.log == old(output.log) && output.drained == old(output.drained) && origin == old(origin)
                && !worker.stream.active
      ensures outcome == if controller.playback == Playing && end <= controller.position.value then Failed else Fine
    {
      if controller.playback == Playing {
        if end <= controller.position.value { return Failed; }
        StartFresh();
      } else if controller.playback == Stopped {
        worker.DiscardReader();
      }
      outcome := Fine;
    }

    // ---------------------------------------------------------- one tick, piece by piece

    /** The stream in hand is worth writing. */
    ghost predicate Streaming()
      reads this, controller, worker, output
    {
      EngineOk() && active && !draining
    }

    /** Pops the next block once the one in hand is used up; a block of an older stream is dropped. */
    method NextBlock() returns (popped: bool)
      requires Streaming() && offset == Samples(block)
      modifies this`block, this`offset, worker`stream, worker`drive, worker`history, worker`thread,
               worker`popped, worker`failuresMet
      ensures Streaming() && (popped <==> block != NO_BLOCK) && offset == 0
      ensures popped ==> worker.popped == old(worker.popped) + [block] && 0 < Samples(block)
      ensures !popped ==> worker.popped == old(worker.popped) && worker.stream.queue == []
      ensures old(worker.failuresMet) <= worker.failuresMet
      ensures old(worker.stream.queue) != [] ==> popped || old(worker.failuresMet) < worker.failuresMet
    {
      block, offset := NO_BLOCK, 0;
      var next := worker.PopLater();
      popped := next.Some?;
      if popped && next.value.generation == generation { block := next.value; }
    }

    /** The sink took `accepted` stereo frames of the block in hand. */
    method Accept(accepted: nat)
      requires StreamOk() && AudibleOk() && PositionOk() && !draining && 2 * accepted <= Samples(block) - offset
      requires LogAt(output.log, origin * STEREO_PER_FRAME, Due() + accepted, underrunRecoveries)
      modifies this`offset, this`submitted, this`submittedEvidence
      ensures StreamOk() && LogOk() && AudibleOk() && PositionOk()
      ensures offset == old(offset) + 2 * accepted && submitted == old(submitted) + accepted
      ensures submittedEvidence == old(submittedEvidence) + OneRun(old(submitted), accepted, block)
    {
      if accepted == 0 {
        assert submittedEvidence == submittedEvidence + [];
        return;
      }
      InHandIsDue(accepted);
      NoteAccepted(accepted);
      Advance(accepted);
    }

    /** What is next in the block in hand is what the sink is to get next. */
    lemma InHandIsDue(accepted: nat)
      requires StreamOk() && 0 < accepted && 2 * accepted <= Samples(block) - offset
      ensures RunInBlock(Submitted(submitted, submitted + accepted, block), start)
      ensures block.lba * STEREO_PER_FRAME + offset / 2 == Due()
    {
    }

    /** So what the sink takes of it continues its log. */
    lemma TakenContinues(before: seq<Log.Entry>, accepted: nat)
      requires StreamOk() && 2 * accepted <= Samples(block) - offset
      requires LogAt(before, origin * STEREO_PER_FRAME, Due(), underrunRecoveries)
      ensures LogAt(before + Taken(block, offset, accepted), origin * STEREO_PER_FRAME,
                    Due() + accepted, underrunRecoveries)
    {
      if accepted == 0 {
        assert before + [] == before;
      } else {
        InHandIsDue(accepted);
        ExtendLog(before, origin * STEREO_PER_FRAME, Due(), underrunRecoveries, accepted);
      }
    }

    method Advance(accepted: nat)
      requires StreamOk() && PositionOk() && 2 * accepted <= Samples(block) - offset && !draining
      requires EvidenceOk(submittedEvidence, start, submitted + accepted)
      requires KeptFrom(submittedEvidence, submitted + accepted) <= reached <= submitted
      requires currentEvidence.Some? ==> Covers(currentEvidence.value, start * STEREO_PER_FRAME + played)
      requires LogAt(output.log, origin * STEREO_PER_FRAME, Due() + accepted, underrunRecoveries)
      modifies this`offset, this`submitted
      ensures StreamOk() && PositionOk() && AudibleOk() && LogOk()
      ensures offset == old(offset) + 2 * accepted && submitted == old(submitted) + accepted
    {
      offset := offset + accepted * 2;
      submitted := submitted + accepted;
    }

    method NoteAccepted(accepted: nat)
      requires 0 < accepted && 0 <= submitted && RunInBlock(Submitted(submitted, submitted + accepted, block), start)
      requires EvidenceOk(submittedEvidence, start, submitted)
      modifies this`submittedEvidence
      ensures EvidenceOk(submittedEvidence, start, submitted + accepted)
      ensures submittedEvidence == old(submittedEvidence) + OneRun(submitted, accepted, block)
      ensures KeptFrom(submittedEvidence, submitted + accepted) == KeptFrom(old(submittedEvidence), submitted)
    {
      ExtendEvidence(submittedEvidence, start, submitted, Submitted(submitted, submitted + accepted, block));
      submittedEvidence := submittedEvidence + [Submitted(submitted, submitted + accepted, block)];
    }

    /** The accounts: something is to be offered if some of the block in hand is left or a block is queued. */
    ghost function SoFar(): Accounts
      reads this`offset, this`block, output`log, output`offers, worker`stream, worker`failuresMet
    {
      Accounts(output.log, output.offers, offset < Samples(block) || worker.stream.queue != [],
               offset == Samples(block) && worker.stream.queue == [], worker.failuresMet)
    }

    /**
      Up to twelve writes, whatever the sink accepts: fewer only once nothing is left, or the sink has taken nothing, or
      has failed.
    */
    method FillSink() returns (outcome: Outcome)
      requires Streaming()
      modifies this`block, this`offset, this`submitted, this`submittedEvidence, output`offers, output`log,
               output`drained, output`silent, worker`stream, worker`drive, worker`history, worker`thread,
               worker`popped, worker`failuresMet
      ensures Streaming() && Sunk(old(SoFar()), SoFar(), outcome)
    {
      ghost var before := SoFar();
      var i, more := 0, true;
      outcome := Fine;
      while i < WRITES_PER_TICK && more && outcome == Fine
        invariant Streaming() && i <= WRITES_PER_TICK && Filling(before, SoFar(), i, more, outcome)
      {
        ghost var here := SoFar();
        more, outcome := WriteNext();
        OneMoreTurn(before, here, SoFar(), i, more, outcome);
        i := i + 1;
      }
    }

    /** One turn of that loop. */
    method WriteNext() returns (more: bool, outcome: Outcome)
      requires Streaming()
      modifies this`block, this`offset, this`submitted, this`submittedEvidence, output`offers, output`log,
               output`drained, output`silent, worker`stream, worker`drive, worker`history, worker`thread,
               worker`popped, worker`failuresMet
      ensures Streaming() && Turned(old(SoFar()), SoFar(), more, outcome)
    {
      ghost var before := SoFar();
      more := InHand();
      ghost var here := SoFar();
      outcome := Fine;
      if more {
        ghost var accepted;
        more, outcome, accepted := WriteBlock();
        ThenOffered(before, here, SoFar(), more, outcome);
      }
    }

    /** Some of a block is in hand, now or after a pop. */
    method InHand() returns (more: bool)
      requires Streaming()
      modifies this`block, this`offset, worker`stream, worker`drive, worker`history, worker`thread, worker`popped,
               worker`failuresMet
      ensures Streaming() && Still(old(SoFar()), SoFar())
      ensures if more then offset < Samples(block) else SoFar().nothingLeft
      ensures !more && old(SoFar()).toOffer ==> old(worker.failuresMet) < worker.failuresMet
    {
      more := true;
      if offset == Samples(block) { more := NextBlock(); }
    }

    /** Offers the sink what is left of the block in hand. */
    method WriteBlock() returns (more: bool, outcome: Outcome, ghost accepted: nat)
      requires Streaming()
      modifies this`offset, this`submitted, this`submittedEvidence, output`offers, output`log, output`drained,
               output`silent
      ensures Streaming()
      ensures offset == old(offset) + 2 * accepted
      ensures output.log == old(output.log) + Taken(block, old(offset), accepted)
      ensures submittedEvidence == old(submittedEvidence) + OneRun(old(submitted), accepted, block)
      ensures OneWrite(old(output.offers), output.offers, more, outcome)
      ensures accepted == output.offers[|old(output.offers)|].Taken()
      ensures Noted(old(output.log), old(output.offers), output.log, output.offers)
    {
      ghost var before := output.log;
      var wrote := OfferRest();
      accepted := 0;
      assert submittedEvidence == submittedEvidence + [];
      match wrote
      case WriteUnderrun => return false, Underrun, 0;
      case WriteFailed => return false, Failed, 0;
      case Took(count) =>
        if (Samples(block) - offset) / 2 < count { return false, Failed, 0; }
        accepted := count;
        AcceptTaken(before, count);
        return count != 0, Fine, count;
    }

    /** The offer itself. */
    method OfferRest() returns (answer: WriteOutcome)
      requires 0 <= offset <= Samples(block)
      modifies output`offers, output`log, output`drained, output`silent
      ensures output.offers == old(output.offers) + [Offer(Samples(block) - offset, answer)]
      ensures output.log == old(output.log) + Taken(block, offset, Offer(Samples(block) - offset, answer).Taken())
      ensures !Counts(answer, block, offset) ==> output.log == old(output.log)
      ensures Noted(old(output.log), old(output.offers), output.log, output.offers)
    {
      answer := output.Write(block, offset);
      OneMoreOffer(old(output.offers), Offer(Samples(block) - offset, answer));
    }

    method AcceptTaken(ghost before: seq<Log.Entry>, count: nat)
      requires StreamOk() && AudibleOk() && PositionOk() && !draining && 2 * count <= Samples(block) - offset
      requires LogAt(before, origin * STEREO_PER_FRAME, Due(), underrunRecoveries)
      requires output.log == before + Taken(block, offset, count)
      modifies this`offset, this`submitted, this`submittedEvidence
      ensures StreamOk() && LogOk() && AudibleOk() && PositionOk()
      ensures offset == old(offset) + 2 * count
      ensures submittedEvidence == old(submittedEvidence) + OneRun(old(submitted), count, block)
    {
      TakenContinues(before, count);
      Accept(count);
    }

    /**
      Works out what is audible now, from the sink's delay, and reports it. Evidence is there exactly when something is
      unheard and the runs kept reach back to what is heard, as they do unless the sink's delay has grown meanwhile.
    */
    method UpdateAudible() returns (outcome: Outcome)
      requires Streaming() && PlayerModel.Valid(controller.Model())
      modifies this`submittedEvidence, this`currentEvidence, this`played, this`reached, controller, output`delay
      ensures Streaming() && PlayerModel.Valid(controller.Model())
      ensures outcome == Fine || outcome == Underrun || outcome == Failed
      ensures outcome == Fine ==>
                played == Clamp(submitted - output.delay, 0, submitted) && reached == Max(old(reached), played)
      ensures outcome == Fine ==>
                (currentEvidence.Some? <==> played < submitted && KeptFrom(old(submittedEvidence), submitted) <= played)
      ensures outcome == Fine && played < submitted && old(reached) <= played ==> currentEvidence.Some?
      ensures outcome == Fine && currentEvidence.Some? ==>
                Covers(currentEvidence.value, start * STEREO_PER_FRAME + played)
    {
      var answer := output.Delay();
      if answer.DelayUnderrun? { return Underrun; }
      if answer.DelayFailed? { return Failed; }
      HearTo(Clamp(submitted - answer.delay, 0, submitted));
      outcome := Fine;
    }

    method HearTo(heard: int)
      requires Streaming() && PlayerModel.Valid(controller.Model()) && 0 <= heard <= submitted
      modifies this`submittedEvidence, this`currentEvidence, this`played, this`reached, controller
      ensures Streaming() && PlayerModel.Valid(controller.Model())
      ensures played == heard && reached == Max(old(reached), heard)
      ensures currentEvidence.Some? <==> heard < submitted && KeptFrom(old(submittedEvidence), submitted) <= heard
    {
      RetireHeard(heard);
      ReportPosition(Min(end - 1, start + heard / STEREO_PER_FRAME));
    }

    method RetireHeard(heard: int)
      requires AudibleOk() && 0 <= heard <= submitted
      modifies this`submittedEvidence, this`currentEvidence, this`played, this`reached
      ensures AudibleOk() && played == heard && reached == Max(old(reached), heard)
      ensures currentEvidence.Some? <==> heard < submitted && KeptFrom(old(submittedEvidence), submitted) <= heard
    {
      AudibleIff(submittedEvidence, start, submitted, heard);
      while submittedEvidence != [] && submittedEvidence[0].end <= heard
        invariant Unheard(submittedEvidence, heard) == Unheard(old(submittedEvidence), heard)
        decreases |submittedEvidence|
        modifies this`submittedEvidence
      {
        submittedEvidence := submittedEvidence[1..];
      }
      if submittedEvidence != [] && submittedEvidence[0].begin <= heard {
        currentEvidence := Some(submittedEvidence[0].block);
      } else {
        currentEvidence := None;
      }
      played, reached := heard, Max(reached, heard);
    }

    /** The controller follows a position already submitted; it never runs ahead and never goes back. */
    method ReportPosition(lba: int)
      requires PositionOk() && PlayerModel.Valid(controller.Model())
      requires start <= lba < end && lba * STEREO_PER_FRAME <= Due()
      modifies controller
      ensures PositionOk() && PlayerModel.Valid(controller.Model())
      ensures controller.position.value == Max(old(controller.position.value), lba)
    {
      ghost var before := controller.Model();
      ReportsNeverGoBack(before, lba);
      ApplyKeepsValid(before, Report(lba));
      ReportKeepsRange(before, lba);
      controller.PlaybackPosition(lba);
    }

    /** Every failure path: stop, drop the PCM, close the drive, silence the sink. */
    method StopAll()
      requires worker.Valid() && PlayerModel.Valid(controller.Model())
      modifies this`active, this`submittedEvidence, this`currentEvidence, this`block, this`offset, worker`stream,
               worker`drive, worker`history, worker`thread, worker`popped, controller, output`log, output`silent,
               output`resets
      ensures output.log == old(output.log) && output.drained == old(output.drained)
      ensures Valid() && !active && !worker.stream.active && old(output.resets) <= output.resets
      ensures controller.playback == Stopped || controller.playback == NoDisc
    {
      StopKeepsValid(controller.Model());
      controller.Stop();
      active := false;
      submittedEvidence, currentEvidence := [], None;
      block, offset := NO_BLOCK, 0;
      worker.Cancel();
      worker.DiscardReader();
      var reset := output.Reset(None);
    }

    /**
      After an underrun the sink has consumed all it took: reopen at the last whole CD frame submitted. At the end of
      the disc, or with the budget spent, stop instead.
    */
    method Recover() returns (recovered: bool)
      requires Valid() && active
      modifies this, worker`stream, worker`drive, worker`history, worker`thread, worker`popped, controller, output`log,
               output`silent, output`resets
      ensures Valid() && end == old(end) && origin == old(origin) && Played()
      ensures active == recovered
      ensures recovered ==> underrunRecoveries == old(underrunRecoveries) + 1 && output.silent
      ensures recovered ==> prebufferBlocks == Min(worker.setup.capacityBlocks, old(prebufferBlocks) + 5)
      ensures recovered ==> output.log == old(output.log) + [Log.Recovered(start * STEREO_PER_FRAME)]
      ensures recovered ==> start * STEREO_PER_FRAME <= old(Due()) < (start + 1) * STEREO_PER_FRAME
      ensures !recovered ==>
                output.log == old(output.log) && (controller.playback == Stopped || controller.playback == NoDisc)
      ensures if old(Recoverable()) then FirstReset(old(output.resets), output.resets, recovered) else !recovered
    {
      if draining || (end - start) * STEREO_PER_FRAME <= submitted
         || Log.MAXIMUM_UNDERRUN_RECOVERIES <= underrunRecoveries {
        StopAll();
        return false;
      }
      recovered := Resume();
    }

    /** Some of the disc is still to be submitted, and the budget is not spent. */
    ghost predicate Recoverable()
      reads this`draining, this`end, this`start, this`submitted, this`underrunRecoveries
    {
      && !draining && submitted < (end - start) * STEREO_PER_FRAME
      && underrunRecoveries < Log.MAXIMUM_UNDERRUN_RECOVERIES
    }

    /** The recovery itself. */
    method Resume() returns (recovered: bool)
      requires Valid() && active && !draining && submitted < (end - start) * STEREO_PER_FRAME
      requires underrunRecoveries < Log.MAXIMUM_UNDERRUN_RECOVERIES
      modifies this, worker`stream, worker`drive, worker`history, worker`thread, worker`popped, controller, output`log,
               output`silent, output`resets
      ensures Valid() && end == old(end) && origin == old(origin) && Played() && active == recovered
      ensures recovered ==> underrunRecoveries == old(underrunRecoveries) + 1 && output.silent
      ensures recovered ==> prebufferBlocks == Min(worker.setup.capacityBlocks, old(prebufferBlocks) + 5)
      ensures recovered ==> output.log == old(output.log) + [Log.Recovered(start * STEREO_PER_FRAME)]
      ensures recovered ==> start * STEREO_PER_FRAME <= old(Due()) < (start + 1) * STEREO_PER_FRAME
      ensures !recovered ==>
                output.log == old(output.log) && (controller.playback == Stopped || controller.playback == NoDisc)
      ensures FirstReset(old(output.resets), output.resets, recovered)
    {
      ghost var resets := output.resets;
      recovered := Rewind();
      GoOn(recovered);
      FirstOf(resets, recovered, output.resets);
    }

    /** A stream that has been rewound starts again, unless the sink could not be reset. */
    method GoOn(reset: bool)
      requires worker.Valid() && PlayerModel.Valid(controller.Model()) && controller.playback == Playing
      requires controller.end == end && controller.begin <= origin && 0 <= origin <= controller.position.value < end
      requires reset ==>
                 LogAt(output.log, origin * STEREO_PER_FRAME,
                       controller.position.value * STEREO_PER_FRAME, underrunRecoveries + 1)
      requires Played()
      modifies this, worker`stream, worker`drive, worker`history, worker`thread, worker`popped, controller, output`log,
               output`silent, output`resets
      ensures Valid() && end == old(end) && origin == old(origin) && output.log == old(output.log)
      ensures active == reset && old(output.resets) <= output.resets
      ensures reset ==> underrunRecoveries == old(underrunRecoveries) + 1 && output.silent == old(output.silent)
      ensures reset ==>
                start == old(controller.position.value)
                && prebufferBlocks == Min(worker.setup.capacityBlocks, old(prebufferBlocks) + 5)
      ensures !reset ==> controller.playback == Stopped || controller.playback == NoDisc
    {
      if reset { Restart(); } else { StopAll(); }
    }

    /** Goes back to the start of the CD frame the stream stands in, drops the reader and resets the sink. */
    method Rewind() returns (reset: bool)
      requires Valid() && active && !draining && submitted < (end - start) * STEREO_PER_FRAME
      requires underrunRecoveries < Log.MAXIMUM_UNDERRUN_RECOVERIES
      modifies this`active, worker`stream, worker`drive, worker`history, worker`thread, worker`popped, controller,
               output`log, output`silent, output`resets
      ensures worker.Valid() && PlayerModel.Valid(controller.Model()) && controller.playback == Playing && !active
      ensures controller.end == end && controller.begin <= origin && 0 <= origin <= controller.position.value < end
      ensures controller.position.value * STEREO_PER_FRAME <= Due() < (controller.position.value + 1) * STEREO_PER_FRAME
      ensures output.log == old(output.log)
                            + if reset then [Log.Recovered(controller.position.value * STEREO_PER_FRAME)] else []
      ensures (reset ==> output.silent) && output.resets == old(output.resets) + [reset]
      ensures reset ==>
                LogAt(output.log, origin * STEREO_PER_FRAME,
                      controller.position.value * STEREO_PER_FRAME, underrunRecoveries + 1)
      ensures Played()
    {
      StepBack();
      FrameStart(controller.position.value, origin, Due());
      reset := ResetAt(controller.position.value * STEREO_PER_FRAME);
    }

    /** Resets the sink, to resume at `at`. */
    method ResetAt(ghost at: int) returns (reset: bool)
      requires LogAt(output.log, origin * STEREO_PER_FRAME, Due(), underrunRecoveries)
      requires underrunRecoveries < Log.MAXIMUM_UNDERRUN_RECOVERIES
      requires Due() - STEREO_PER_FRAME < at <= Due() && origin * STEREO_PER_FRAME <= at && at % STEREO_PER_FRAME == 0
      modifies output`log, output`silent, output`resets
      ensures output.log == old(output.log) + if reset then [Log.Recovered(at)] else []
      ensures (reset ==> output.silent) && output.resets == old(output.resets) + [reset]
      ensures reset ==> LogAt(output.log, origin * STEREO_PER_FRAME, at, underrunRecoveries + 1)
      ensures Played()
    {
      RewindLog(output.log, origin * STEREO_PER_FRAME, Due(), underrunRecoveries, at);
      reset := output.Reset(Some(at));
    }

    /** The controller goes to the start of that CD frame, and the reader is dropped. */
    method StepBack()
      requires Valid() && active && !draining && submitted < (end - start) * STEREO_PER_FRAME
      modifies this`active, worker`stream, worker`drive, worker`history, worker`thread, worker`popped, controller
      ensures worker.Valid() && PlayerModel.Valid(controller.Model()) && controller.playback == Playing && !active
      ensures controller.end == end && controller.begin <= origin && 0 <= origin <= controller.position.value < end
      ensures controller.position.value * STEREO_PER_FRAME <= Due() < (controller.position.value + 1) * STEREO_PER_FRAME
      ensures LogAt(output.log, origin * STEREO_PER_FRAME, Due(), underrunRecoveries)
    {
      WholeFrame(start, submitted, end, controller.position.value);
      ReportPosition(Min(end - 1, start + submitted / STEREO_PER_FRAME));
      active := false;
      worker.DiscardReader();
    }

    method Restart()
      requires worker.Valid() && PlayerModel.Valid(controller.Model()) && controller.playback == Playing
      requires controller.end == end && controller.begin <= origin && 0 <= origin <= controller.position.value < end
      requires LogAt(output.log, origin * STEREO_PER_FRAME,
                     controller.position.value * STEREO_PER_FRAME, underrunRecoveries + 1)
      modifies this, worker`stream, worker`history, worker`popped, worker`thread
      ensures Valid() && active && end == old(end) && origin == old(origin)
      ensures start == controller.position.value && underrunRecoveries == old(underrunRecoveries) + 1
      ensures prebufferBlocks == Min(worker.setup.capacityBlocks, old(prebufferBlocks) + 5)
    {
      ClearBlock();
      prebufferBlocks := Min(worker.setup.capacityBlocks, prebufferBlocks + 5);
      underrunRecoveries := underrunRecoveries + 1;
      reached := 0;
      StartAtPosition();
    }

    /** Waits for the sink to play out; then playback is finished. */
    method Drain() returns (outcome: Outcome)
      requires Valid() && active && draining
      modifies this, worker`stream, worker`drive, worker`history, worker`thread, worker`popped, controller, output`log,
               output`silent, output`resets, output`drained, output`drains
      ensures Valid() && end == old(end) && output.log == old(output.log) && origin == old(origin) && Played()
      ensures outcome == Fine || outcome == Underrun ==> active && draining
      ensures outcome != Stalled
      ensures outcome == Completed ==> !active && PlayedOut() && output.drained && controller.playback == Stopped
      ensures !active ==> controller.playback == Stopped
      ensures Waited(old(output.drains), output.drains, old(output.resets), output.resets, outcome)
      ensures active ==> primed == old(primed)
    {
      var answer := output.Drain();
      match answer
      case DrainUnderrun => return Underrun;
      case DrainFailed => return Failed;
      case Drained(complete) =>
        if !complete { return Fine; }
        outcome := Finish();
    }

    /** The sink has played everything out. */
    method Finish() returns (outcome: Outcome)
      requires Valid() && active && draining && output.drained
      modifies this, worker`stream, worker`drive, worker`history, worker`thread, worker`popped, controller, output`log,
               output`silent, output`resets, output`drained
      ensures Valid() && end == old(end) && output.log == old(output.log) && origin == old(origin) && Played()
      ensures !active && PlayedOut() && output.drained && controller.playback == Stopped
      ensures OneReset(old(output.resets), output.resets, outcome == Completed)
      ensures outcome == Completed || outcome == Failed
    {
      StopKeepsValid(controller.Model());
      EveryFrameSubmitted();
      controller.Finished();
      var synchronized := Synchronize();
      outcome := if synchronized == Fine then Completed else Failed;
    }

    /** Every stereo frame from the stream's origin to the disc end reached the sink. */
    ghost predicate PlayedOut()
      reads this`origin, this`end, output`log
    {
      forall frame :: origin * STEREO_PER_FRAME <= frame < end * STEREO_PER_FRAME ==> Log.Plays(output.log, frame)
    }

    lemma EveryFrameSubmitted()
      requires LogOk() && draining
      ensures PlayedOut()
    {
      forall frame | origin * STEREO_PER_FRAME <= frame < end * STEREO_PER_FRAME ensures Log.Plays(output.log, frame) {
        Log.NothingSkipped(output.log, origin * STEREO_PER_FRAME, frame);
      }
    }

    /** The stream's part of a tick, once prebuffered (src/playback_engine.cpp:103-138). */
    method Stream() returns (outcome: Outcome)
      requires Streaming() && PlayerModel.Valid(controller.Model())
      modifies this, worker, controller, output
      ensures Valid() && end == old(end) && origin == old(origin) && Played()
      ensures outcome == Completed ==> !active && PlayedOut() && output.drained && controller.playback == Stopped
      ensures outcome == Fine || outcome == Underrun ==> active
      ensures outcome != Stalled
      ensures !active ==> controller.playback == Stopped
      ensures Answered(old(SoFar()), SoFar()) && Tried(old(SoFar()), SoFar())
      ensures active ==> primed
    {
      ghost var before := SoFar();
      outcome := PlayPrimed();
      ghost var played := SoFar();
      outcome := AfterPlay(outcome);
      WrittenThenStill(before, played, SoFar());
    }

    /** Behind the writes, if nothing went wrong with them. */
    method AfterPlay(soFar: Outcome) returns (outcome: Outcome)
      requires Streaming() && PlayerModel.Valid(controller.Model()) && Played()
      requires soFar == Fine || soFar == Underrun || soFar == Failed
      modifies this, worker, controller, output`log, output`silent, output`resets, output`drained, output`drains
      ensures Valid() && end == old(end) && origin == old(origin) && Played()
      ensures outcome == Completed ==> !active && PlayedOut() && output.drained && controller.playback == Stopped
      ensures outcome == Fine || outcome == Underrun ==> active
      ensures outcome != Stalled
      ensures !active ==> controller.playback == Stopped
      ensures Still(old(SoFar()), SoFar())
      ensures active ==> primed == old(primed)
    {
      outcome := soFar;
      if soFar == Fine { outcome := DrainAtEnd(); }
    }

    method Prime()
      requires Streaming()
      modifies this`primed
      ensures Streaming() && primed && SoFar() == old(SoFar())
    {
      primed := true;
    }

    method PlayPrimed() returns (outcome: Outcome)
      requires Streaming() && PlayerModel.Valid(controller.Model())
      modifies this`primed, this`block, this`offset, this`submitted, this`submittedEvidence, this`currentEvidence,
               this`played, this`reached, output`offers, output`log, output`drained, output`silent, output`delay,
               worker`stream, worker`drive, worker`history, worker`thread, worker`popped, worker`failuresMet,
               controller
      ensures Streaming() && PlayerModel.Valid(controller.Model()) && Played()
      ensures Answered(old(SoFar()), SoFar()) && Tried(old(SoFar()), SoFar())
      ensures outcome == Fine || outcome == Underrun || outcome == Failed
      ensures primed
    {
      Prime();
      outcome := PlayOn();
    }

    /** Fills the sink and notes what is audible. */
    method PlayOn() returns (outcome: Outcome)
      requires Streaming() && PlayerModel.Valid(controller.Model())
      modifies this`block, this`offset, this`submitted, this`submittedEvidence, this`currentEvidence,
               this`played, this`reached, output`offers, output`log, output`drained, output`silent, output`delay,
               worker`stream, worker`drive, worker`history, worker`thread, worker`popped, worker`failuresMet,
               controller
      ensures Streaming() && PlayerModel.Valid(controller.Model()) && Played()
      ensures Answered(old(SoFar()), SoFar()) && Tried(old(SoFar()), SoFar())
      ensures outcome == Fine || outcome == Underrun || outcome == Failed
    {
      outcome := FillSink();
      outcome := HearIf(outcome);
    }

    method HearIf(soFar: Outcome) returns (outcome: Outcome)
      requires Streaming() && PlayerModel.Valid(controller.Model())
      requires soFar == Fine || soFar == Underrun || soFar == Failed
      modifies this`submittedEvidence, this`currentEvidence, this`played, this`reached, controller, output`delay
      ensures Streaming() && PlayerModel.Valid(controller.Model()) && Played()
      ensures SoFar() == old(SoFar()) && (outcome == Fine || outcome == Underrun || outcome == Failed)
    {
      outcome := soFar;
      if soFar == Fine { outcome := UpdateAudible(); }
    }

    /** The worker has finished, its queue is empty and the block in hand is used up. */
    ghost predicate AllWritten()
      reads this`offset, this`block, worker`stream
    {
      worker.stream.done && worker.stream.queue == [] && offset == Samples(block)
    }

    /** Drains once the worker has delivered everything and the block in hand is used up. */
    method DrainAtEnd() returns (outcome: Outcome)
      requires Streaming() && PlayerModel.Valid(controller.Model())
      modifies this, worker`stream, worker`drive, worker`history, worker`thread, worker`popped, worker`failuresMet,
               controller, output`log, output`silent, output`resets, output`drained, output`drains
      ensures Valid() && end == old(end) && origin == old(origin) && output.log == old(output.log) && Played()
      ensures draining || outcome != Fine ==>
                Log.Position(output.log, origin * STEREO_PER_FRAME) == end * STEREO_PER_FRAME
      ensures outcome == Completed ==> !active && PlayedOut() && output.drained && controller.playback == Stopped
      ensures outcome == Fine || outcome == Underrun ==> active
      ensures outcome != Stalled
      ensures !active ==> controller.playback == Stopped
      ensures Still(old(SoFar()), SoFar())
      ensures if output.drains == old(output.drains) then outcome == Fine && !AllWritten()
              else Waited(old(output.drains), output.drains, old(output.resets), output.resets, outcome)
      ensures active ==> primed == old(primed)
    {
      ghost var before := SoFar();
      var queued, finished, broken := ReadStatus();
      ghost var here := SoFar();
      outcome := DrainIf(finished && queued == 0 && offset == Samples(block));
      StillStill(before, here, SoFar());
    }

    method DrainIf(written: bool) returns (outcome: Outcome)
      requires Streaming() && PlayerModel.Valid(controller.Model())
      requires written ==> offset == Samples(block) && Reach(worker.popped, start) == end
      modifies this, worker`stream, worker`drive, worker`history, worker`thread, worker`popped, controller, output`log,
               output`silent, output`resets, output`drained, output`drains
      ensures Valid() && end == old(end) && origin == old(origin) && output.log == old(output.log) && Played()
      ensures draining || outcome != Fine ==>
                Log.Position(output.log, origin * STEREO_PER_FRAME) == end * STEREO_PER_FRAME
      ensures outcome == Completed ==> !active && PlayedOut() && output.drained && controller.playback == Stopped
      ensures outcome == Fine || outcome == Underrun ==> active
      ensures outcome != Stalled
      ensures !active ==> controller.playback == Stopped
      ensures Still(old(SoFar()), SoFar())
      ensures !written ==> output.drains == old(output.drains) && outcome == Fine && AllWritten() == old(AllWritten())
      ensures written ==> Waited(old(output.drains), output.drains, old(output.resets), output.resets, outcome)
      ensures active ==> primed == old(primed)
    {
      if written { outcome := StartDraining(); } else { outcome := Fine; }
    }

    method StartDraining() returns (outcome: Outcome)
      requires Streaming() && PlayerModel.Valid(controller.Model()) && offset == Samples(block)
      requires Reach(worker.popped, start) == end
      modifies this, worker`stream, worker`drive, worker`history, worker`thread, worker`popped, controller, output`log,
               output`silent, output`resets, output`drained, output`drains
      ensures Valid() && end == old(end) && origin == old(origin) && output.log == old(output.log) && Played()
      ensures Log.Position(output.log, origin * STEREO_PER_FRAME) == end * STEREO_PER_FRAME
      ensures outcome == Completed ==> !active && PlayedOut() && output.drained && controller.playback == Stopped
      ensures outcome == Fine || outcome == Underrun ==> active
      ensures !active ==> controller.playback == Stopped
      ensures Waited(old(output.drains), output.drains, old(output.resets), output.resets, outcome)
      ensures active ==> primed == old(primed)
    {
      draining := true;
      outcome := Drain();
    }

    /** One main-loop iteration; `stalled` says that the read in flight has exceeded its timeout. */
    method Tick(stalled: bool) returns (outcome: Outcome)
      requires Valid()
      modifies this, worker, controller, output
      ensures Valid() && end == old(end)
      ensures !old(active) ==> outcome == Fine && !active
      ensures old(active) ==> origin == old(origin) && old(output.log) <= output.log && Played()
      ensures active ==> outcome == Fine
      ensures outcome == Completed ==> PlayedOut() && output.drained
      ensures old(active) && !active ==> controller.playback == Stopped || controller.playback == NoDisc
      ensures Replied(old(SoFar()), SoFar())
      ensures old(active) && !stalled && old(DueToWrite()) ==> Tried(old(SoFar()), SoFar())
      ensures old(active) && !stalled && old(draining) ==>
                old(worker.failuresMet) < worker.failuresMet || |old(output.drains)| < |output.drains|
    {
      if !active { return Fine; }
      outcome := ActiveTick(stalled);
    }

    method ActiveTick(stalled: bool) returns (outcome: Outcome)
      requires Valid() && active
      modifies this, worker, controller, output
      ensures Valid() && end == old(end) && origin == old(origin) && Played()
      ensures active ==> outcome == Fine
      ensures outcome == Completed ==> PlayedOut() && output.drained
      ensures !active ==> controller.playback == Stopped || controller.playback == NoDisc
      ensures Replied(old(SoFar()), SoFar())
      ensures !stalled && old(DueToWrite()) ==> Tried(old(SoFar()), SoFar())
      ensures !stalled && old(draining) ==>
                old(worker.failuresMet) < worker.failuresMet || |old(output.drains)| < |output.drains|
    {
      ghost var before := SoFar();
      outcome := TryTick(stalled);
      ghost var here := SoFar();
      outcome := Settle(outcome);
      WrittenThenHandled(before, here, SoFar());
    }

    /** The handlers behind the `try` block. */
    method Settle(tried: Outcome) returns (outcome: Outcome)
      requires Valid() && Played() && (tried == Fine || tried == Underrun ==> active)
      requires tried == Stalled || tried == Completed ==> !active
      requires tried == Completed ==> PlayedOut() && output.drained
      requires !active ==> controller.playback == Stopped || controller.playback == NoDisc
      modifies this, worker`stream, worker`drive, worker`history, worker`thread, worker`popped, controller, output`log,
               output`silent, output`resets
      ensures Valid() && end == old(end) && origin == old(origin) && Played()
      ensures Handled(old(SoFar()), SoFar()) && output.drains == old(output.drains)
      ensures outcome == Completed ==> PlayedOut() && output.drained
      ensures active ==> outcome == Fine
      ensures !active ==> controller.playback == Stopped || controller.playback == NoDisc
    {
      outcome := tried;
      if tried == Underrun || tried == Failed { outcome := HandleFailure(tried); }
    }

    /** An ioctl in flight cannot be cancelled: stop issuing PCM and let the reader's owner close it. */
    method StopStalled()
      requires Valid() && active
      modifies this, worker`stream, worker`drive, worker`history, worker`thread, worker`popped, controller, output`log,
               output`silent, output`resets
      ensures Valid() && end == old(end) && origin == old(origin) && output.log == old(output.log) && Played()
      ensures !active && (controller.playback == Stopped || controller.playback == NoDisc)
    {
      readerFailure := true;
      StopAll();
    }

    /** What the tick's `try` block does. */
    method TryTick(stalled: bool) returns (outcome: Outcome)
      requires Valid() && active
      modifies this, worker, controller, output
      ensures Valid() && end == old(end) && origin == old(origin) && Played()
      ensures outcome == Completed ==> !active && PlayedOut() && output.drained
      ensures outcome == Fine || outcome == Underrun ==> active
      ensures outcome == Stalled ==> !active
      ensures !active ==> controller.playback == Stopped || controller.playback == NoDisc
      ensures Answered(old(SoFar()), SoFar())
      ensures !stalled && old(DueToWrite()) ==> Tried(old(SoFar()), SoFar())
      ensures !stalled && old(draining) ==>
                old(worker.failuresMet) < worker.failuresMet || |old(output.drains)| < |output.drains|
    {
      ghost var before := SoFar();
      var queued, finished, broken := ReadStatus();
      ghost var here := SoFar();
      outcome := TickOn(stalled, queued, finished, broken);
      StillThenWritten(before, here, SoFar());
    }

    /** What the status leads to. */
    method TickOn(stalled: bool, queued: nat, finished: bool, broken: bool) returns (outcome: Outcome)
      requires Valid() && active
      modifies this, worker, controller, output
      ensures Valid() && end == old(end) && origin == old(origin) && Played()
      ensures outcome == Completed ==> !active && PlayedOut() && output.drained
      ensures outcome == Fine || outcome == Underrun ==> active
      ensures outcome == Stalled ==> !active
      ensures !active ==> controller.playback == Stopped || controller.playback == NoDisc
      ensures Answered(old(SoFar()), SoFar())
      ensures !broken && !stalled && !old(draining) && (old(primed) || old(prebufferBlocks) <= queued || finished) ==>
                Tried(old(SoFar()), SoFar())
      ensures !broken && !stalled && old(draining) ==> |old(output.drains)| < |output.drains|
    {
      if broken {
        readerFailure := true;
        outcome := Failed;
      } else if stalled {
        StopStalled();
        outcome := Stalled;
      } else {
        outcome := TickBody(queued, finished);
      }
    }

    /** A tick would write: the stream is not draining, and the queue has been filled once or need not be. */
    ghost predicate DueToWrite()
      reads this`draining, this`primed, this`prebufferBlocks, worker`stream
    {
      !draining && (primed || prebufferBlocks <= |worker.stream.queue| || worker.stream.done)
    }

    /** An underrun is recovered from if it can be; anything else stops. */
    method HandleFailure(failure: Outcome) returns (outcome: Outcome)
      requires Valid() && Played() && (failure == Failed || (failure == Underrun && active))
      modifies this, worker`stream, worker`drive, worker`history, worker`thread, worker`popped, controller, output`log,
               output`silent, output`resets
      ensures Valid() && end == old(end) && origin == old(origin) && old(output.log) <= output.log && Played()
      ensures active == (outcome == Fine) && (outcome == Fine || outcome == failure)
      ensures !active ==> controller.playback == Stopped || controller.playback == NoDisc
    {
      outcome := failure;
      if failure == Underrun {
        var recovered := Recover();
        if recovered { outcome := Fine; }
      } else {
        StopAll();
      }
    }

    /**
      A stream from its start to its end, or as far as it is ticked, whatever the drive and the sink do. What the sink
      was given is one pass over the disc from the starting position with at most three rewinds, each to the start of
      a CD frame and by at most 587 stereo frames; playback completes only at the end of the disc.
    */
    method PlayThrough(stalls: seq<bool>) returns (started: bool, outcome: Outcome)
      requires Ready() && controller.playback == Playing && controller.end == end
      modifies this, worker, controller, output
      ensures Valid() && end == old(end)
      ensures started ==> Played() && origin == old(controller.position.value)
      ensures started && outcome == Completed ==> !active && PlayedOut() && output.drained
      ensures !started ==> !active && outcome == Failed
    {
      outcome := Synchronize();
      started := outcome == Fine;
      if started { outcome := TickAll(stalls); }
    }

    method TickAll(stalls: seq<bool>) returns (outcome: Outcome)
      requires Valid() && active
      modifies this, worker, controller, output
      ensures Valid() && end == old(end) && origin == old(origin) && old(output.log) <= output.log && Played()
      ensures outcome == Completed ==> !active && PlayedOut() && output.drained
    {
      outcome := Fine;
      var i := 0;
      while i < |stalls| && active
        invariant Valid() && end == old(end) && origin == old(origin) && old(output.log) <= output.log && Played()
        invariant outcome == Completed ==> !active && PlayedOut() && output.drained
      {
        outcome := Tick(stalls[i]);
        i := i + 1;
      }
    }

    /** What such a log says of every stereo frame: none skipped, and none given more than four times. */
    lemma HeardInOrder(frame: int)
      requires Played()
      ensures origin * STEREO_PER_FRAME <= frame < Log.Position(output.log, origin * STEREO_PER_FRAME) ==>
                Log.Plays(output.log, frame)
      ensures frame < origin * STEREO_PER_FRAME ==> !Log.Plays(output.log, frame)
      ensures Log.Times(output.log, frame) <= Log.MAXIMUM_UNDERRUN_RECOVERIES + 1
    {
      Log.NothingSkipped(output.log, origin * STEREO_PER_FRAME, frame);
      Log.RepeatsAreRecoveries(output.log, origin * STEREO_PER_FRAME, frame);
    }

    method ReadStatus() returns (queued: nat, finished: bool, broken: bool)
      requires EngineOk() && active
      modifies worker`stream, worker`drive, worker`history, worker`thread, worker`failuresMet
      ensures EngineOk() && Still(old(SoFar()), SoFar())
      ensures queued == |worker.stream.queue| && finished == worker.stream.done
      ensures finished && queued == 0 ==> Reach(worker.popped, start) == end
      ensures broken <==> old(worker.failuresMet) < worker.failuresMet
      ensures !broken ==> old(worker.stream.queue) <= worker.stream.queue && (old(worker.stream.done) ==> finished)
    {
      queued, finished, broken := worker.StatusLater();
    }

    /** The rest of the tick's `try` block. */
    method TickBody(queued: nat, finished: bool) returns (outcome: Outcome)
      requires Valid() && active
      modifies this, worker, controller, output
      ensures Valid() && end == old(end) && origin == old(origin) && Played()
      ensures outcome == Completed ==> !active && PlayedOut() && output.drained && controller.playback == Stopped
      ensures outcome == Fine || outcome == Underrun ==> active
      ensures !active ==> controller.playback == Stopped
      ensures outcome != Stalled
      ensures Answered(old(SoFar()), SoFar())
      ensures old(draining) ==>
                Waited(old(output.drains), output.drains, old(output.resets), output.resets, outcome)
      ensures !old(draining) && (old(primed) || old(prebufferBlocks) <= queued || finished) ==>
                Tried(old(SoFar()), SoFar())
      ensures !old(draining) && !old(primed) && queued < old(prebufferBlocks) && !finished ==>
                outcome == Fine && output.offers == old(output.offers) && output.drains == old(output.drains)
      ensures !old(draining) && (old(primed) || old(prebufferBlocks) <= queued || finished) && active ==> primed
    {
      if draining {
        outcome := Drain();
      } else if !primed && queued < prebufferBlocks && !finished {
        outcome := Fine;
      } else {
        outcome := Stream();
      }
    }
  }

  lemma ReportKeepsRange(p: Player, lba: int)
    requires PlayerModel.Valid(p)
    ensures PlaybackPosition(p, lba).begin == p.begin && PlaybackPosition(p, lba).end == p.end
  {
  }
}
