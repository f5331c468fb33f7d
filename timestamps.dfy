/** The timestamp collaborator, kept abstract: it turns one 8-byte raw
    timestamp into a calendar time, or reports that it could not. */
module Timestamps {
  import opened Bytes

  /** A calendar time as the collaborator produces it. `ZeroTime` is Go's
      zero `time.Time`, the value of a field nobody wrote; `Instant` carries
      the 100-nanosecond tick count the time was converted from. */
  datatype Time = ZeroTime | Instant(ticks: nat)

  /** The collaborator's `(time.Time, error)` pair: `ok` is false when it
      returned a non-nil error. */
  datatype TimeParse = TimeParse(time: Time, ok: bool)

  /** The Go convention for a failing call: the value it returns beside a
      non-nil error is the zero value. */
  ghost predicate ZeroOnFailure(convert: seq<byte> -> TimeParse)
  {
    forall raw :: !convert(raw).ok ==> convert(raw).time == ZeroTime
  }
}
