/**
 The rows of a CPAP device's event log once they have been read and parsed:
 one record per row, with the timestamp in whole seconds and the numeric
 payload as an exact (decimal) value.
 */
module Records {

  datatype Option<T> = None | Some(value: T)

  /** One row of the log: `DateTime`, `Event`, `Session` and `Data/Duration`. */
  datatype Rec = Rec(time: int, event: string, session: string, value: real)

  /** The event name that marks a pressure reading. */
  const PressureEvent: string := "Pressure"

  predicate IsPressure(r: Rec)
  {
    r.event == PressureEvent
  }

  /**
   The sort key: the timestamp followed by a discriminant digit, 1 for a
   pressure reading and 0 for anything else, read as one integer.
   */
  function Key(r: Rec): (k: int)
    ensures k / 2 == r.time && (k % 2 == 1 <==> IsPressure(r))
  {
    2 * r.time + (if IsPressure(r) then 1 else 0)
  }

  /**
   Comparing keys is comparing timestamps first and, at an identical
   timestamp, putting every non-pressure record before every pressure record.
   */
  lemma KeyOrder(r1: Rec, r2: Rec)
    ensures Key(r1) <= Key(r2) <==>
              r1.time < r2.time || (r1.time == r2.time && (IsPressure(r1) ==> IsPressure(r2)))
    ensures Key(r1) == Key(r2) <==> r1.time == r2.time && (IsPressure(r1) <==> IsPressure(r2))
  {
  }
}
