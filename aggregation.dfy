/**
 The aggregator: one pass over the chronologically sorted records that
 credits the time between consecutive pressure readings of a session to the
 earlier reading's bin, and counts every other event of the session in the
 bin of the pressure reading in force. Events outside the tracked session are
 dropped with a warning.

 `Step` and `Fold` state the pass on values; `Aggregate` is the loop itself,
 with the three cursors and the bin map as variables, proved equal to `Run`.
 */
module Aggregation {
  import opened Records
  import opened Binning

  /** One entry of the bin map: the time credited to the bin, in seconds, and a counter per event type. */
  datatype Bucket = Bucket(duration: int, counts: map<string, nat>)

  type Bins = map<real, Bucket>

  /**
   The three cursors `current_pressure_bin`, `current_pressure_time` and
   `current_session`, which are always assigned together.
   */
  datatype Cursor = Cursor(bin: real, time: int, session: string)

  datatype State = State(bins: Bins, cur: Option<Cursor>, dropped: seq<Rec>)

  /** What the pass yields: the bin map and the records it warned about, or the abort a zero bin size causes. */
  datatype Outcome = Summary(bins: Bins, dropped: seq<Rec>) | ZeroBinSize

  /** All cursors unset, no bins, nothing dropped. */
  const Start: State := State(map[], None, [])

  /** A bin as the default dictionary reads it: a missing bin is an empty bucket. */
  function Lookup(bins: Bins, b: real): Bucket
  {
    if b in bins then bins[b] else Bucket(0, map[])
  }

  /** A counter entry as `Counter` reads it: a missing event type counts zero. */
  function CountOf(counts: map<string, nat>, e: string): nat
  {
    if e in counts then counts[e] else 0
  }

  /** The record belongs to the tracked session (never so before the first pressure reading). */
  predicate InSession(cur: Option<Cursor>, r: Rec)
  {
    cur.Some? && cur.value.session == r.session
  }

  /** Adds `d` seconds to the duration of bin `b`. */
  function Credit(bins: Bins, b: real, d: int): Bins
  {
    bins[b := Lookup(bins, b).(duration := Lookup(bins, b).duration + d)]
  }

  /** Adds one to the counter of event type `e` in bin `b`. */
  function Tally(bins: Bins, b: real, e: string): Bins
  {
    var bk := Lookup(bins, b);
    bins[b := bk.(counts := bk.counts[e := CountOf(bk.counts, e) + 1])]
  }

  /** The loop body, applied to one record. */
  function Step(st: State, r: Rec, binSize: real): State
    requires IsPressure(r) ==> binSize != 0.0
  {
    if IsPressure(r) then
      var bins := if InSession(st.cur, r) then Credit(st.bins, st.cur.value.bin, r.time - st.cur.value.time) else st.bins;
      State(bins, Some(Cursor(BinPressure(r.value, binSize), r.time, r.session)), st.dropped)
    else if InSession(st.cur, r) then
      st.(bins := Tally(st.bins, st.cur.value.bin, r.event))
    else
      st.(dropped := st.dropped + [r])
  }

  /** Every pressure reading can be binned: the bin size is not zero, or there is no pressure reading. */
  predicate Binnable(data: seq<Rec>, binSize: real)
  {
    binSize != 0.0 || forall i :: 0 <= i < |data| ==> !IsPressure(data[i])
  }

  /** The state after the loop has handled every record of `data`, in order. */
  function Fold(data: seq<Rec>, binSize: real): State
    requires Binnable(data, binSize)
    decreases |data|
  {
    if data == [] then Start
    else Step(Fold(data[..|data| - 1], binSize), data[|data| - 1], binSize)
  }

  /** The whole pass: `bin_pressure` raises on the first pressure reading when the bin size is zero. */
  function Run(data: seq<Rec>, binSize: real): Outcome
  {
    if Binnable(data, binSize) then Summary(Fold(data, binSize).bins, Fold(data, binSize).dropped)
    else ZeroBinSize
  }

  /** The cursor datatype read off the three loop variables. */
  function Cursors(bin: Option<real>, time: Option<int>, session: Option<string>): Option<Cursor>
  {
    if bin.Some? && time.Some? && session.Some? then Some(Cursor(bin.value, time.value, session.value)) else None
  }

  /** The aggregation loop of `main`, over the sorted records. */
  method Aggregate(data: seq<Rec>, binSize: real) returns (out: Outcome)
    ensures out == Run(data, binSize)
  {
    var eventsPerPressures: Bins := map[];
    var currentPressureBin: Option<real> := None;
    var currentPressureTime: Option<int> := None;
    var currentSession: Option<string> := None;
    var dropped: seq<Rec> := [];
    for i := 0 to |data|
      invariant Binnable(data[..i], binSize)
      invariant currentSession.Some? <==> currentPressureBin.Some?
      invariant currentSession.Some? <==> currentPressureTime.Some?
      invariant Fold(data[..i], binSize) ==
                State(eventsPerPressures, Cursors(currentPressureBin, currentPressureTime, currentSession), dropped)
    {
      var row := data[i];
      assert data[..i + 1] == data[..i] + [row];
      assert data[..i + 1][..i] == data[..i];
      if IsPressure(row) {
        if binSize == 0.0 {
          return ZeroBinSize;
        }
        var pressureBin := BinPressure(row.value, binSize);
        if currentSession == Some(row.session) {
          var bk := Lookup(eventsPerPressures, currentPressureBin.value);
          eventsPerPressures := eventsPerPressures[currentPressureBin.value :=
                                  bk.(duration := bk.duration + (row.time - currentPressureTime.value))];
        }
        currentPressureBin := Some(pressureBin);
        currentPressureTime := Some(row.time);
        currentSession := Some(row.session);
      } else if currentSession == Some(row.session) {
        var bk := Lookup(eventsPerPressures, currentPressureBin.value);
        eventsPerPressures := eventsPerPressures[currentPressureBin.value :=
                                bk.(counts := bk.counts[row.event := CountOf(bk.counts, row.event) + 1])];
      } else {
        dropped := dropped + [row];
      }
    }
    assert data[..|data|] == data;
    return Summary(eventsPerPressures, dropped);
  }
}
