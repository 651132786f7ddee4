/**
  Types shared by the model of the CD-audio data path: optional values and
  results in place of C++ exceptions, the fixed-width ranges the sources rely
  on, and the units of CD audio.
*/
module Basics {
  datatype Option<+T> = None | Some(value: T)

  datatype Result<+T, +E> = Success(value: T) | Failure(error: E)

  /** Times are nanoseconds of the shared steady clock, which may also throw. */
  datatype ClockRead = Now(t: int) | ClockThrew

  /** A clock that may answer anything, and keeps on record what it answered. */
  class Clock {
    ghost var readings: seq<ClockRead>

    constructor ()
      ensures readings == []
    {
      readings := [];
    }

    method Read() returns (c: ClockRead)
      modifies this
      ensures readings == old(readings) + [c]
    {
      c := *;
      readings := readings + [c];
    }
  }

  const MAX_I32: int := 0x7fff_ffff
  const MIN_I64: int := -0x8000_0000_0000_0000
  const MAX_I64: int := 0x7fff_ffff_ffff_ffff

  /** Stereo sample frames in one CD frame (1/75 second). */
  const STEREO_PER_FRAME: int := 588
  /** Interleaved 16-bit samples in one CD frame. */
  const SAMPLES_PER_FRAME: int := 1176

  type Byte = x: int | 0 <= x < 256
  type Sample = x: int | -0x8000 <= x < 0x8000

  function Min(a: int, b: int): int { if a < b then a else b }

  function Max(a: int, b: int): int { if a < b then b else a }

  /** std::clamp */
  function Clamp(x: int, lo: int, hi: int): int
    requires lo <= hi
  {
    if x < lo then lo else if hi < x then hi else x
  }

  predicate IsI64(x: int) { MIN_I64 <= x <= MAX_I64 }
}
