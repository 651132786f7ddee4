/**
  The player's intent (src/player_controller.cpp) as a value: what each command
  makes of the state, and what every sequence of commands keeps.
*/
module PlayerModel {
  import opened Basics
  import opened DiscTocs

  datatype Playback = NoDisc | Stopped | Playing | Paused

  datatype Player = Player(toc: Option<DiscToc>, playback: Playback, track: Option<int>, position: Option<int>,
                           index: nat, begin: int, end: int)

  const EMPTY := Player(None, NoDisc, None, None, 0, 0, 0)
  const RESTART_THRESHOLD_FRAMES: int := 3 * 75

  predicate HasDisc(p: Player) {
    p.toc.Some? && p.index < |p.toc.value.tracks| && p.position.Some?
  }

  function At(p: Player, index: nat, position: int): Player
    requires p.toc.Some? && index < |p.toc.value.tracks|
  {
    p.(index := index, track := Some(p.toc.value.tracks[index].number), position := Some(position))
  }

  /** First playable LBA of track `i` under the playback range, and the LBA after its last. */
  function FirstPlayable(p: Player, i: nat): int
    requires p.toc.Some? && i < |p.toc.value.tracks|
  {
    Max(p.toc.value.tracks[i].startLba, p.begin)
  }

  function EndPlayable(p: Player, i: nat): int
    requires p.toc.Some? && i < |p.toc.value.tracks|
  {
    Min(p.toc.value.tracks[i].EndLba(), p.end)
  }

  predicate Playable(p: Player, i: nat)
    requires p.toc.Some? && i < |p.toc.value.tracks|
  {
    FirstPlayable(p, i) < EndPlayable(p, i)
  }

  function LoadDisc(p: Player, toc: DiscToc): Player {
    if !WellFormed(toc) then p
    else At(p.(toc := Some(toc), begin := toc.tracks[0].startLba, end := toc.leadoutLba, playback := Stopped),
            0, toc.tracks[0].startLba)
  }

  /** Forgets the disc; the old range stays behind, unused until the next disc replaces it. */
  function RemoveDisc(p: Player): Player { EMPTY.(begin := p.begin, end := p.end) }

  predicate ValidRange(p: Player, begin: int, end: int) {
    && p.toc.Some? && p.toc.value.tracks != []
    && p.toc.value.tracks[0].startLba <= begin <= end <= p.toc.value.leadoutLba
  }

  function SetRange(p: Player, begin: int, end: int): Player {
    if ValidRange(p, begin, end) then p.(begin := begin, end := end) else p
  }

  /** `select_index` constrained to the playback range. */
  function SelectIndex(p: Player, i: nat): Player
    requires p.toc.Some? && i < |p.toc.value.tracks|
  {
    if Playable(p, i) then At(p, i, FirstPlayable(p, i)) else p
  }

  function Play(p: Player): Player
    requires p.toc.Some? ==> HasDisc(p)
  {
    if p.toc.None? || !Playable(p, p.index) then p
    else p.(position := Some(Clamp(p.position.value, FirstPlayable(p, p.index), EndPlayable(p, p.index) - 1)),
            playback := Playing)
  }

  function Pause(p: Player): Player { if p.playback == Playing then p.(playback := Paused) else p }

  /** Stop, and the end of playback: rewind to the first track, whatever the range. */
  function Stop(p: Player): Player
    requires p.toc.Some? ==> HasDisc(p)
  {
    if p.toc.None? then p else At(p.(playback := Stopped), 0, p.toc.value.tracks[0].startLba)
  }

  /** The first track with this number, or |tracks|. */
  function FindNumber(tracks: seq<Track>, number: int): (i: nat)
    ensures i <= |tracks|
    ensures i < |tracks| ==> tracks[i].number == number
    ensures forall j :: 0 <= j < i ==> tracks[j].number != number
  {
    if tracks == [] then 0 else if tracks[0].number == number then 0 else 1 + FindNumber(tracks[1..], number)
  }

  function SelectTrack(p: Player, number: int): Player {
    if p.toc.None? then p
    else
      var i := FindNumber(p.toc.value.tracks, number);
      if i == |p.toc.value.tracks| then p else SelectIndex(p, i)
  }

  function Next(p: Player): Player
    requires p.toc.Some? ==> HasDisc(p)
  {
    if p.toc.None? || p.end <= p.begin || p.index + 1 == |p.toc.value.tracks| then p else SelectIndex(p, p.index + 1)
  }

  function Previous(p: Player): Player
    requires p.toc.Some? ==> HasDisc(p)
  {
    if p.toc.None? then p
    else
      var elapsed := p.position.value - p.toc.value.tracks[p.index].startLba;
      SelectIndex(p, if p.index == 0 || RESTART_THRESHOLD_FRAMES <= elapsed then p.index else p.index - 1)
  }

  /** The last track that starts at or before `lba`. */
  function TrackHolding(tracks: seq<Track>, lba: int): (i: nat)
    requires tracks != [] && tracks[0].startLba <= lba
    ensures i < |tracks| && tracks[i].startLba <= lba
    ensures forall j :: i < j < |tracks| ==> lba < tracks[j].startLba
  {
    var last := |tracks| - 1;
    if tracks[last].startLba <= lba then last
    else
      var i := TrackHolding(tracks[..last], lba);
      assert forall j :: i < j < last ==> tracks[j] == tracks[..last][j];
      i
  }

  /** Where a relative seek lands: the source clamps the delta first and the sum again. */
  function SeekTarget(p: Player, frames: int): int
    requires HasDisc(p) && p.begin < p.end
    requires p.toc.value.tracks[0].startLba <= p.position.value < p.toc.value.leadoutLba
  {
    var current := p.position.value;
    var first := p.toc.value.tracks[0].startLba;
    var last := p.toc.value.leadoutLba - 1;
    Clamp(current + Clamp(frames, first - current, last - current), p.begin, p.end - 1)
  }

  function SeekRelative(p: Player, frames: int): Player
    requires p.toc.Some? ==> Placed(p)
  {
    if p.toc.None? || p.end <= p.begin then p
    else
      var target := SeekTarget(p, frames);
      At(p, TrackHolding(p.toc.value.tracks, target), target)
  }

  function PlaybackPosition(p: Player, lba: int): Player
    requires p.toc.Some? ==> Placed(p)
  {
    if p.toc.None? || p.playback != Playing || lba < p.position.value || p.toc.value.leadoutLba <= lba then p
    else SeekRelative(p, lba - p.position.value)
  }

  // ------------------------------------------------------------ what every command keeps

  /** A disc is loaded, the range lies on it, and the track named is the one that holds the position. */
  predicate Placed(p: Player) {
    && HasDisc(p) && WellFormed(p.toc.value)
    && p.toc.value.tracks[0].startLba <= p.begin <= p.end <= p.toc.value.leadoutLba
    && p.track == Some(p.toc.value.tracks[p.index].number)
    && Contains(p.toc.value, p.index, p.position.value)
    && p.toc.value.tracks[0].startLba <= p.position.value < p.toc.value.leadoutLba
  }

  predicate Valid(p: Player) {
    && (p.toc.None? ==> p.playback == NoDisc && p.track.None? && p.position.None?)
    && (p.toc.Some? ==> p.playback != NoDisc && Placed(p))
    && (p.playback == Playing || p.playback == Paused ==> p.begin <= p.position.value < p.end)
  }

  datatype Command =
    | Load(toc: DiscToc) | Remove | Range(begin: int, end: int) | PlayCmd | PauseCmd | StopCmd | Select(number: int)
    | NextCmd | PreviousCmd | Seek(frames: int) | Report(lba: int) | FinishedCmd

  /** The session narrows the range only while stopped. */
  predicate Allowed(p: Player, c: Command) { c.Range? ==> p.playback == Stopped || p.playback == NoDisc }

  function Apply(p: Player, c: Command): Player
    requires Valid(p)
  {
    match c
    case Load(toc) => LoadDisc(p, toc)
    case Remove => RemoveDisc(p)
    case Range(begin, end) => SetRange(p, begin, end)
    case PlayCmd => Play(p)
    case PauseCmd => Pause(p)
    case StopCmd => Stop(p)
    case Select(number) => SelectTrack(p, number)
    case NextCmd => Next(p)
    case PreviousCmd => Previous(p)
    case Seek(frames) => SeekRelative(p, frames)
    case Report(lba) => PlaybackPosition(p, lba)
    case FinishedCmd => Stop(p)
  }

  lemma AtIsPlaced(p: Player, i: nat, position: int)
    requires p.toc.Some? && WellFormed(p.toc.value) && i < |p.toc.value.tracks|
    requires p.toc.value.tracks[0].startLba <= p.begin <= p.end <= p.toc.value.leadoutLba
    requires p.toc.value.tracks[i].startLba <= position < p.toc.value.tracks[i].EndLba()
    ensures Placed(At(p, i, position))
  {
    StartsIncrease(p.toc.value, 0, i);
  }

  /** The track search and the interval of that track agree. */
  lemma TrackAtContains(toc: DiscToc, lba: int)
    requires WellFormed(toc) && toc.tracks[0].startLba <= lba < toc.leadoutLba
    ensures Contains(toc, TrackHolding(toc.tracks, lba), lba)
  {
    var i := TrackHolding(toc.tracks, lba);
    if i + 1 < |toc.tracks| {
      assert toc.tracks[i].EndLba() == toc.tracks[i + 1].startLba;
    }
  }

  // ------------------------------------------------------------ where the moves lead

  /** The first LBA of track `i` inside the playback range. */
  ghost predicate FirstIn(p: Player, i: nat, lba: int)
    requires p.toc.Some?
  {
    && Contains(p.toc.value, i, lba) && p.begin <= lba < p.end
    && forall x :: Contains(p.toc.value, i, x) && p.begin <= x < p.end ==> lba <= x
  }

  /** From `p` to `p'` the player stands at the first LBA of track `i` in the range; if there is none, nothing moves. */
  ghost predicate Reaches(p: Player, p': Player, i: nat)
    requires Placed(p) && i < |p.toc.value.tracks|
  {
    if exists x :: Contains(p.toc.value, i, x) && p.begin <= x < p.end then
      && p' == p.(index := i, track := p'.track, position := p'.position)
      && p'.track == Some(p.toc.value.tracks[0].number + i) && p'.position.Some? && FirstIn(p, i, p'.position.value)
    else p' == p
  }

  lemma SelectReaches(p: Player, i: nat)
    requires Placed(p) && i < |p.toc.value.tracks|
    ensures Reaches(p, SelectIndex(p, i), i)
  {
    if Playable(p, i) {
      assert Contains(p.toc.value, i, FirstPlayable(p, i));
    }
  }

  /** A number on the disc leads to that track, any other nowhere. */
  lemma SelectTrackReaches(p: Player, number: int)
    requires Placed(p)
    ensures var i := number - p.toc.value.tracks[0].number;
            if 0 <= i < |p.toc.value.tracks| then Reaches(p, SelectTrack(p, number), i) else SelectTrack(p, number) == p
  {
    var tracks := p.toc.value.tracks;
    var i := number - tracks[0].number;
    if 0 <= i < |tracks| {
      assert tracks[i].number == number;
      SelectReaches(p, i);
    }
  }

  /** Next leads to the track behind, if there is one and anything at all may be played. */
  lemma NextReaches(p: Player)
    requires Placed(p)
    ensures if p.index + 1 < |p.toc.value.tracks| && p.begin < p.end then Reaches(p, Next(p), p.index + 1)
            else Next(p) == p
  {
    if p.index + 1 < |p.toc.value.tracks| { SelectReaches(p, p.index + 1); }
  }

  /** Previous leads to the track before within three seconds of a track's start, and else back to that start. */
  lemma PreviousReaches(p: Player)
    requires Placed(p)
    ensures var within := p.position.value < p.toc.value.tracks[p.index].startLba + 225;
            Reaches(p, Previous(p), if within && p.index != 0 then p.index - 1 else p.index)
  {
    SelectReaches(p, p.index);
    if p.index != 0 { SelectReaches(p, p.index - 1); }
  }

  lemma SeekKeepsValid(p: Player, frames: int)
    requires Valid(p)
    ensures Valid(SeekRelative(p, frames))
  {
    if p.toc.Some? && p.begin < p.end {
      TrackAtContains(p.toc.value, SeekTarget(p, frames));
    }
  }

  lemma ApplyKeepsValid(p: Player, c: Command)
    requires Valid(p) && Allowed(p, c)
    ensures Valid(Apply(p, c))
  {
    match c
    case Load(toc) =>
      if WellFormed(toc) {
        EndsBelowLeadout(toc, 0);
        AtIsPlaced(LoadDisc(p, toc), 0, toc.tracks[0].startLba);
      }
    case Select(number) => SelectKeepsValid(p, FindNumber(if p.toc.Some? then p.toc.value.tracks else [], number));
    case NextCmd => SelectKeepsValid(p, p.index + 1);
    case PreviousCmd => SelectKeepsValid(p, p.index); if 0 < p.index { SelectKeepsValid(p, p.index - 1); }
    case Seek(frames) => SeekKeepsValid(p, frames);
    case Report(lba) => if p.position.Some? { SeekKeepsValid(p, lba - p.position.value); }
    case StopCmd => StopKeepsValid(p);
    case FinishedCmd => StopKeepsValid(p);
    case PlayCmd => if p.toc.Some? && Playable(p, p.index) { AtIsPlaced(p, p.index, Play(p).position.value); }
    case _ =>
  }

  lemma SelectKeepsValid(p: Player, i: nat)
    requires Valid(p)
    ensures p.toc.Some? && i < |p.toc.value.tracks| ==> Valid(SelectIndex(p, i))
  {
    if p.toc.Some? && i < |p.toc.value.tracks| && Playable(p, i) {
      AtIsPlaced(p, i, FirstPlayable(p, i));
    }
  }

  lemma StopKeepsValid(p: Player)
    requires Valid(p)
    ensures Valid(Stop(p))
  {
    if p.toc.Some? {
      AtIsPlaced(p.(playback := Stopped), 0, p.toc.value.tracks[0].startLba);
    }
  }

  /** The state after the commands, if the session's discipline was kept. */
  ghost function Run(p: Player, cs: seq<Command>): (end: Option<Player>)
    requires Valid(p)
    ensures end.Some? ==> Valid(end.value)
    decreases cs
  {
    if cs == [] then Some(p)
    else if !Allowed(p, cs[0]) then None
    else ApplyKeepsValid(p, cs[0]); Run(Apply(p, cs[0]), cs[1..])
  }

  // ------------------------------------------------------------ the promises

  /** After any commands, the named track is the only one containing the position, and playing stays in range. */
  lemma PositionIsInNamedTrack(cs: seq<Command>, i: nat)
    requires Run(EMPTY, cs).Some? && Run(EMPTY, cs).value.toc.Some?
    ensures var p := Run(EMPTY, cs).value;
            && p.position.Some? && p.track.Some?
            && (Contains(p.toc.value, i, p.position.value) <==> i == p.index)
            && (i < |p.toc.value.tracks| ==> (p.toc.value.tracks[i].number == p.track.value <==> i == p.index))
            && (p.playback == Playing || p.playback == Paused ==> p.begin <= p.position.value < p.end)
  {
    var p := Run(EMPTY, cs).value;
    TracksTile(p.toc.value, p.position.value);
  }

  /** Clamping the delta before the sum loses nothing: a seek lands where unbounded arithmetic would clamp it. */
  lemma SeekIsUnboundedClamp(p: Player, frames: int)
    requires Valid(p) && p.toc.Some? && p.begin < p.end
    ensures SeekRelative(p, frames).position == Some(Clamp(p.position.value + frames, p.begin, p.end - 1))
  {
  }

  /** For every 64-bit delta, no intermediate value of a seek leaves 64 bits; the naive sum can. */
  lemma SeekNeverOverflows(p: Player, frames: int)
    requires Valid(p) && p.toc.Some? && p.begin < p.end && IsI64(frames)
    ensures var current := p.position.value;
            var first := p.toc.value.tracks[0].startLba;
            var last := p.toc.value.leadoutLba - 1;
            && IsI64(first - current) && IsI64(last - current) && first - current <= last - current
            && IsI64(current + Clamp(frames, first - current, last - current))
            && 0 <= SeekTarget(p, frames) <= MAX_I32
    ensures 0 < p.position.value ==> !IsI64(p.position.value + MAX_I64)
  {
  }

  /** Progress reports never move the position backwards, and never change what is playing. */
  lemma ReportsNeverGoBack(p: Player, lba: int)
    requires Valid(p) && p.toc.Some?
    ensures var p' := PlaybackPosition(p, lba);
            && p.position.value <= p'.position.value && p'.playback == p.playback
            && (p.playback == Playing && p.position.value <= lba < p.end ==> p'.position == Some(lba))
            && (p.playback != Playing || lba < p.position.value ==> p' == p)
  {
    if p.playback == Playing && p.position.value <= lba < p.toc.value.leadoutLba {
      SeekIsUnboundedClamp(p, lba - p.position.value);
    }
  }

  // ------------------------------------------------------------ the daemon's snapshot

  datatype Snapshot = NoPosition | Located(relative: int, length: int)

  /** `make_daemon_snapshot`'s checks of the player against the disc (src/daemon_snapshot.cpp:17-34). */
  method MakeDaemonSnapshot(playback: Playback, track: Option<int>, position: Option<int>, disc: Option<DiscToc>)
    returns (r: Result<Snapshot, string>)
    ensures playback == NoDisc ==> (r.Success? <==> track.None? && position.None?)
    ensures playback == NoDisc && r.Success? ==> r.value == NoPosition
    ensures playback != NoDisc ==>
              (r.Success? <==>
               && disc.Some? && track.Some? && position.Some?
               && var i := FindNumber(disc.value.tracks, track.value);
               i < |disc.value.tracks| && Contains(disc.value, i, position.value))
    ensures playback != NoDisc && r.Success? ==>
              var t := disc.value.tracks[FindNumber(disc.value.tracks, track.value)];
              r.value == Located(position.value - t.startLba, t.lengthFrames)
  {
    if playback == NoDisc {
      if track.Some? || position.Some? { return Failure("NO_DISC player snapshot contains a position"); }
      return Success(NoPosition);
    }
    if disc.None? { return Failure("player snapshot has no TOC"); }
    if track.None? || position.None? { return Failure("player snapshot is missing track or position"); }
    var tracks := disc.value.tracks;
    ghost var found := FindNumber(tracks, track.value);
    for i := 0 to |tracks|
      invariant i <= found
    {
      if tracks[i].number == track.value {
        assert i == found;
        var relative := position.value - tracks[i].startLba;
        if relative < 0 || tracks[i].lengthFrames <= relative {
          return Failure("player position is outside current track");
        }
        return Success(Located(relative, tracks[i].lengthFrames));
      }
    }
    r := Failure("player track is absent from TOC");
  }

  /** No command sequence leads to a state the snapshot refuses. */
  lemma SnapshotNeverThrows(cs: seq<Command>)
    requires Run(EMPTY, cs).Some?
    ensures var p := Run(EMPTY, cs).value;
            if p.playback == NoDisc then p.track.None? && p.position.None?
            else
              && p.toc.Some? && p.track.Some? && p.position.Some?
              && var i := FindNumber(p.toc.value.tracks, p.track.value);
              i == p.index && Contains(p.toc.value, i, p.position.value)
  {
    var p := Run(EMPTY, cs).value;
    if p.toc.Some? {
      var i := FindNumber(p.toc.value.tracks, p.track.value);
      assert p.toc.value.tracks[p.index].number == p.track.value;
    }
  }
}
