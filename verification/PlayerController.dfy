/**
  The player controller's object (src/player_controller.cpp), proved against
  the value model: every command's whole new state is the model's.
*/
module PlayerControllers {
  import opened Basics
  import opened DiscTocs
  import opened PlayerModel

  class PlayerController {
    var toc: Option<DiscToc>
    var playback: Playback
    var track: Option<int>
    var position: Option<int>
    var index: nat
    var begin: int
    var end: int

    constructor ()
      ensures Model() == EMPTY
    {
      toc, playback, track, position, index, begin, end := None, NoDisc, None, None, 0, 0, 0;
    }

    function Model(): Player
      reads this
    {
      Player(toc, playback, track, position, index, begin, end)
    }

    /** `load_disc` rebuilds the table from its own starts and refuses one that disagrees. */
    method LoadDisc(disc: DiscToc) returns (loaded: bool)
      requires disc.leadoutLba <= MAX_I32
      modifies this
      ensures loaded == WellFormed(disc)
      ensures Model() == PlayerModel.LoadDisc(old(Model()), disc)
    {
      if |disc.tracks| == 0 { return false; }
      var starts := seq(|disc.tracks|, i requires 0 <= i < |disc.tracks| => disc.tracks[i].startLba);
      var built := MakeAudioToc(disc.tracks[0].number, starts, disc.leadoutLba);
      if built.Failure? {
        WellFormedStarts(disc, starts);
        return false;
      }
      var validated := built.value;
      for i := 0 to |disc.tracks|
        invariant forall j :: 0 <= j < i ==> disc.tracks[j] == validated.tracks[j]
        invariant Model() == old(Model())
      {
        if disc.tracks[i].number != validated.tracks[i].number
           || disc.tracks[i].lengthFrames != validated.tracks[i].lengthFrames {
          SameStartsSameToc(disc, validated);
          return false;
        }
      }
      assert disc == validated;
      toc := Some(validated);
      begin := validated.tracks[0].startLba;
      end := validated.leadoutLba;
      playback := Stopped;
      var selected := SelectIndexConstrained(0, false);
      loaded := true;
    }

    method RemoveDisc()
      modifies this
      ensures Model() == PlayerModel.RemoveDisc(old(Model()))
    {
      toc := None;
      playback, track, position := NoDisc, None, None;
      index := 0;
    }

    method SetPlaybackRange(first: int, last: int) returns (accepted: bool)
      requires toc.Some? ==> toc.value.tracks != []
      modifies this
      ensures accepted == ValidRange(old(Model()), first, last)
      ensures Model() == SetRange(old(Model()), first, last)
    {
      if toc.None? || first < toc.value.tracks[0].startLba || toc.value.leadoutLba < last
         || last < first
      {
        return false;
      }
      begin, end := first, last;
      accepted := true;
    }

    method SelectIndexConstrained(i: nat, constrain: bool) returns (selected: bool)
      requires toc.Some? && i < |toc.value.tracks|
      modifies this`track, this`position, this`index
      ensures selected == (!constrain || Playable(old(Model()), i))
      ensures Model() == if constrain then SelectIndex(old(Model()), i)
                         else At(old(Model()), i, old(toc).value.tracks[i].startLba)
    {
      var start := toc.value.tracks[i].startLba;
      if constrain {
        var first := Max(start, begin);
        var last := Min(start + toc.value.tracks[i].lengthFrames, end);
        if last <= first { return false; }
        start := first;
      }
      index := i;
      track := Some(toc.value.tracks[i].number);
      position := Some(start);
      selected := true;
    }

    method Play() returns (playing: bool)
      requires toc.Some? ==> HasDisc(Model())
      modifies this
      ensures Model() == PlayerModel.Play(old(Model()))
      ensures playing == (old(toc).Some? && Playable(old(Model()), old(index)))
    {
      if toc.None? { return false; }
      var t := toc.value.tracks[index];
      var first := Max(t.startLba, begin);
      var last := Min(t.startLba + t.lengthFrames, end);
      if last <= first { return false; }
      position := Some(Clamp(position.value, first, last - 1));
      playback := Playing;
      playing := true;
    }

    method Pause()
      modifies this
      ensures Model() == PlayerModel.Pause(old(Model()))
    {
      if playback == Playing { playback := Paused; }
    }

    method Stop()
      requires toc.Some? ==> HasDisc(Model())
      modifies this
      ensures Model() == PlayerModel.Stop(old(Model()))
    {
      if toc.None? { return; }
      playback := Stopped;
      var selected := SelectIndexConstrained(0, false);
    }

    /** Playback reached its end: the same rewind as a stop. */
    method Finished()
      requires toc.Some? ==> HasDisc(Model())
      modifies this
      ensures Model() == PlayerModel.Stop(old(Model()))
    {
      if toc.None? { return; }
      playback := Stopped;
      var selected := SelectIndexConstrained(0, false);
    }

    method SelectTrack(number: int) returns (selected: bool)
      modifies this
      ensures Model() == PlayerModel.SelectTrack(old(Model()), number)
    {
      if toc.None? { return false; }
      ghost var found := FindNumber(toc.value.tracks, number);
      var i := 0;
      while i < |toc.value.tracks| && toc.value.tracks[i].number != number
        invariant 0 <= i <= found
        invariant Model() == old(Model())
      {
        i := i + 1;
      }
      assert i == found;
      if i == |toc.value.tracks| { return false; }
      selected := SelectIndexConstrained(i, true);
    }

    method Next() returns (moved: bool)
      requires toc.Some? ==> HasDisc(Model())
      modifies this
      ensures Model() == PlayerModel.Next(old(Model()))
    {
      if toc.None? || end <= begin { return false; }
      if index + 1 == |toc.value.tracks| { return true; }
      moved := SelectIndexConstrained(index + 1, true);
    }

    method Previous() returns (moved: bool)
      requires toc.Some? ==> HasDisc(Model())
      modifies this
      ensures Model() == PlayerModel.Previous(old(Model()))
    {
      if toc.None? { return false; }
      var elapsed := position.value - toc.value.tracks[index].startLba;
      moved := SelectIndexConstrained(
        if index == 0 || RESTART_THRESHOLD_FRAMES <= elapsed then index else index - 1, true);
    }

    method SeekRelative(frames: int) returns (moved: bool)
      requires toc.Some? ==> Placed(Model())
      modifies this
      ensures Model() == PlayerModel.SeekRelative(old(Model()), frames)
      ensures moved == (old(toc).Some? && old(begin) < old(end))
    {
      if toc.None? || end <= begin { return false; }
      var current := position.value;
      var first := toc.value.tracks[0].startLba;
      var last := toc.value.leadoutLba - 1;
      var target := Clamp(current + Clamp(frames, first - current, last - current), begin, end - 1);
      var bound := UpperBound(toc.value.tracks, target);
      UpperBoundIsHolder(toc.value, target, bound);
      index := bound - 1;
      track := Some(toc.value.tracks[index].number);
      position := Some(target);
      moved := true;
    }

    method PlaybackPosition(lba: int)
      requires toc.Some? ==> Placed(Model())
      modifies this
      ensures Model() == PlayerModel.PlaybackPosition(old(Model()), lba)
    {
      if toc.None? || playback != Playing { return; }
      if lba < position.value || toc.value.leadoutLba <= lba { return; }
      var moved := SeekRelative(lba - position.value);
    }
  }

  /** `std::upper_bound` over the starts: the number of tracks up to the last one found starting by `lba`. */
  method UpperBound(tracks: seq<Track>, lba: int) returns (bound: nat)
    requires tracks != [] && tracks[0].startLba <= lba
    ensures 0 < bound <= |tracks| && tracks[bound - 1].startLba <= lba
    ensures bound < |tracks| ==> lba < tracks[bound].startLba
  {
    bound := 0;
    var high := |tracks|;
    while bound < high
      invariant 0 <= bound <= high <= |tracks|
      invariant 0 < bound ==> tracks[bound - 1].startLba <= lba
      invariant high < |tracks| ==> lba < tracks[high].startLba
    {
      var middle := (bound + high) / 2;
      if lba < tracks[middle].startLba { high := middle; } else { bound := middle + 1; }
    }
  }

  lemma UpperBoundIsHolder(toc: DiscToc, target: int, bound: nat)
    requires WellFormed(toc) && toc.tracks[0].startLba <= target
    requires 0 < bound <= |toc.tracks| && toc.tracks[bound - 1].startLba <= target
    requires bound < |toc.tracks| ==> target < toc.tracks[bound].startLba
    ensures TrackHolding(toc.tracks, target) == bound - 1
  {
    var i := TrackHolding(toc.tracks, target);
    if bound - 1 < i {
      StartsIncrease(toc, bound, i);
    }
  }
}
