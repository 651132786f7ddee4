/**
  What the sink was given since `synchronize`: accepted runs of absolute stereo
  frames, and the points where an underrun rewound the stream.
*/
module PlaybackLog {
  import opened Basics

  const MAXIMUM_UNDERRUN_RECOVERIES: nat := 3

  datatype Entry =
    | Accepted(first: int, end: int)
    | Recovered(position: int)

  /** The stereo frame the sink is to get next. */
  function Position(log: seq<Entry>, origin: int): int {
    if log == [] then origin
    else match log[|log| - 1]
      case Accepted(_, end) => end
      case Recovered(position) => position
  }

  function Recoveries(log: seq<Entry>): nat {
    if log == [] then 0
    else Recoveries(log[..|log| - 1]) + if log[|log| - 1].Recovered? then 1 else 0
  }

  /**
    Every run starts exactly where the log stands; a recovery steps back to the start of a CD frame, by at most 587
    stereo frames, and never before the origin.
  */
  ghost predicate WellFormed(log: seq<Entry>, origin: int) {
    log == [] ||
    (var front := log[..|log| - 1];
     var at := Position(front, origin);
     && WellFormed(front, origin)
     && match log[|log| - 1]
        case Accepted(first, end) => first == at < end
        case Recovered(position) =>
          at - STEREO_PER_FRAME < position <= at && origin <= position && position % STEREO_PER_FRAME == 0)
  }

  lemma Extend(log: seq<Entry>, origin: int, e: Entry)
    requires WellFormed(log, origin)
    requires match e
             case Accepted(first, end) => first == Position(log, origin) < end
             case Recovered(position) =>
               Position(log, origin) - STEREO_PER_FRAME < position <= Position(log, origin) && origin <= position
               && position % STEREO_PER_FRAME == 0
    ensures WellFormed(log + [e], origin)
    ensures Position(log + [e], origin) == if e.Accepted? then e.end else e.position
    ensures Recoveries(log + [e]) == Recoveries(log) + if e.Recovered? then 1 else 0
  {
    assert (log + [e])[..|log|] == log;
  }

  predicate Plays(log: seq<Entry>, frame: int) {
    exists i :: 0 <= i < |log| && log[i].Accepted? && log[i].first <= frame < log[i].end
  }

  /** No stereo frame between the origin and the log's position was skipped, and none before the origin was played. */
  lemma {:induction false} NothingSkipped(log: seq<Entry>, origin: int, frame: int)
    requires WellFormed(log, origin)
    ensures origin <= Position(log, origin)
    ensures origin <= frame < Position(log, origin) ==> Plays(log, frame)
    ensures frame < origin ==> !Plays(log, frame)
    decreases log
  {
    if log != [] {
      var front := log[..|log| - 1];
      NothingSkipped(front, origin, frame);
      assert Plays(log, frame) <==> Plays(front, frame) || PlaysLast(log, frame) by {
        if Plays(front, frame) {
          var i :| 0 <= i < |front| && front[i].Accepted? && front[i].first <= frame < front[i].end;
          assert log[i] == front[i];
        }
        if Plays(log, frame) && !PlaysLast(log, frame) {
          var i :| 0 <= i < |log| && log[i].Accepted? && log[i].first <= frame < log[i].end;
          assert front[i] == log[i];
        }
      }
    }
  }

  predicate PlaysLast(log: seq<Entry>, frame: int)
    requires log != []
  {
    log[|log| - 1].Accepted? && log[|log| - 1].first <= frame < log[|log| - 1].end
  }

  /** How many times the frame reached the sink. */
  function Times(log: seq<Entry>, frame: int): nat {
    if log == [] then 0
    else
      var last := log[|log| - 1];
      Times(log[..|log| - 1], frame) + if last.Accepted? && last.first <= frame < last.end then 1 else 0
  }

  /** A frame is repeated at most once per recovery. */
  lemma {:induction false} RepeatsAreRecoveries(log: seq<Entry>, origin: int, frame: int)
    requires WellFormed(log, origin)
    ensures Times(log, frame) <= Recoveries(log) + if Position(log, origin) <= frame then 0 else 1
    decreases log
  {
    if log != [] {
      RepeatsAreRecoveries(log[..|log| - 1], origin, frame);
    }
  }
}
