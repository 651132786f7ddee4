/**
  What the repeated reader reads from: a drive, or an offset reader over one
  (the readers src/complete_pcm_worker.cpp:273-281 stacks).
*/
module LowerReaders {
  import opened Basics
  import opened CddaReaders
  import opened ReadOffsets
  import opened Votings

  /** An answer the offset reader gives to a read of `range`, over some physical answer. */
  ghost predicate FromOffset(w: OffsetWindow, range: Window, s: Seen) {
    exists raw :: Shifted(w, range.start, range.frames, raw, s.result, s.pcm)
  }

  /** The range can be produced. */
  predicate Inside(w: OffsetWindow, range: Window) {
    w.playableBegin <= range.start && 0 < range.frames <= w.playableEnd - range.start
  }

  class LowerReader {
    const drive: InnerReader
    const shift: OffsetReader?
    /** Where it was last sent, every answer it gave since it was made, and how often it threw. */
    ghost var at: int
    ghost var answers: seq<Reply>
    ghost var throws: nat

    ghost predicate Valid()
      reads this, shift
    {
      shift != null ==> shift.Valid() && shift.inner == drive
    }

    /** An offset reader underneath answers as offset readers do. */
    ghost predicate Explains(range: Window, s: Seen) {
      shift != null && Inside(shift.window, range) ==> FromOffset(shift.window, range, s)
    }

    constructor Over(reader: InnerReader)
      ensures Valid() && answers == [] && drive == reader && shift == null
    {
      drive, shift, at, answers, throws := reader, null, 0, [], 0;
    }

    constructor OverOffset(reader: OffsetReader)
      requires reader.Valid()
      ensures Valid() && answers == [] && shift == reader && drive == reader.inner
    {
      drive, shift, at, answers, throws := reader.inner, reader, 0, [], 0;
    }

    method Seek(lba: int) returns (threw: bool)
      requires Valid()
      modifies this, shift, drive
      ensures Valid() && at == lba && answers == old(answers)
      ensures throws == old(throws) + if threw then 1 else 0
      ensures shift != null ==> (threw <==> !(shift.window.playableBegin <= lba < shift.window.playableEnd))
      ensures shift != null && !threw ==> shift.positioned && shift.position == lba
    {
      at := lba;
      if shift == null { threw := drive.Seek(lba); } else { threw := shift.Seek(lba); }
      if threw { throws := throws + 1; }
    }

    method Read(samples: nat) returns (a: Answer)
      requires Valid()
      modifies this, shift, drive
      ensures Valid() && at == old(at) && (a.Threw? ==> answers == old(answers))
      ensures throws == old(throws) + if a.Threw? then 1 else 0
      ensures a.Returned? ==> |a.pcm| == samples && answers == old(answers) + [Reply(at, a.result, a.pcm)]
      ensures a.Returned? && shift != null && old(shift.position) == at ==>
                Explains(Window(at, samples / 1176), Seen(a.result, a.pcm))
    {
      if shift == null {
        a := drive.Read(samples);
      } else {
        var buffer := new Sample[samples](_ => 0);
        var r;
        ghost var raw;
        r, raw := shift.Read(buffer);
        a := if r.Some? then Returned(r.value, buffer[..]) else Threw;
      }
      if a.Returned? { answers := answers + [Reply(at, a.result, a.pcm)]; } else { throws := throws + 1; }
    }
  }
}
