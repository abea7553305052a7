/**
 What one step of the aggregation loop does to the bin map, the cursors and
 the warnings, and what the whole pass conserves.
 */
module AggregationProperties {
  import opened Records
  import opened Binning
  import opened MapSum
  import opened Aggregation
  import Chronology

  // ---------------------------------------------------------------------------
  // One record at a time

  /**
   A pressure reading of the tracked session credits exactly the time since
   the previous reading to the previous reading's bin, creating that bin if
   it is missing; no other bin and no counter changes. A pressure reading of
   any other session changes no bin at all. Either way nothing is dropped.
   */
  lemma StepPressureCredit(st: State, r: Rec, binSize: real)
    requires IsPressure(r) && binSize != 0.0
    ensures Step(st, r, binSize).dropped == st.dropped
    ensures !InSession(st.cur, r) ==> Step(st, r, binSize).bins == st.bins
    ensures InSession(st.cur, r) ==>
              var prev, bins' := st.cur.value.bin, Step(st, r, binSize).bins;
              && bins'.Keys == st.bins.Keys + {prev}
              && Lookup(bins', prev).duration == Lookup(st.bins, prev).duration + (r.time - st.cur.value.time)
              && Lookup(bins', prev).counts == Lookup(st.bins, prev).counts
              && forall b :: b in st.bins && b != prev ==> bins'[b] == st.bins[b]
  {
  }

  /**
   After any pressure reading the cursors hold that reading's bin, timestamp
   and session, whatever they held before.
   */
  lemma StepPressureCursor(st: State, r: Rec, binSize: real)
    requires IsPressure(r) && binSize != 0.0
    ensures Step(st, r, binSize).cur == Some(Cursor(BinPressure(r.value, binSize), r.time, r.session))
  {
  }

  /**
   An event of the tracked session adds one to its own counter in the
   current bin and to nothing else; durations, cursors and warnings stay.
   */
  lemma StepEventCount(st: State, r: Rec, binSize: real)
    requires !IsPressure(r) && InSession(st.cur, r)
    ensures var cb, bins' := st.cur.value.bin, Step(st, r, binSize).bins;
            && bins'.Keys == st.bins.Keys + {cb}
            && Lookup(bins', cb).duration == Lookup(st.bins, cb).duration
            && CountOf(Lookup(bins', cb).counts, r.event) == CountOf(Lookup(st.bins, cb).counts, r.event) + 1
            && Lookup(bins', cb).counts.Keys == Lookup(st.bins, cb).counts.Keys + {r.event}
            && (forall e :: e != r.event ==> CountOf(Lookup(bins', cb).counts, e) == CountOf(Lookup(st.bins, cb).counts, e))
            && (forall b :: b in st.bins && b != cb ==> bins'[b] == st.bins[b])
    ensures Step(st, r, binSize).cur == st.cur && Step(st, r, binSize).dropped == st.dropped
  {
  }

  /**
   A record is dropped with a warning exactly when it is not a pressure
   reading and not of the tracked session; a dropped record changes nothing else.
   */
  lemma StepDrop(st: State, r: Rec, binSize: real)
    requires IsPressure(r) ==> binSize != 0.0
    ensures Step(st, r, binSize).dropped == st.dropped + [r] <==> !IsPressure(r) && !InSession(st.cur, r)
    ensures Step(st, r, binSize).dropped != st.dropped ==> Step(st, r, binSize).dropped == st.dropped + [r]
    ensures !IsPressure(r) && !InSession(st.cur, r) ==>
              Step(st, r, binSize).bins == st.bins && Step(st, r, binSize).cur == st.cur
  {
    if IsPressure(r) || InSession(st.cur, r) {
      assert |Step(st, r, binSize).dropped| == |st.dropped|;
    }
  }

  /** No bin is ever removed, and a bin is added only when a credit or a count touches it. */
  lemma StepKeys(st: State, r: Rec, binSize: real)
    requires IsPressure(r) ==> binSize != 0.0
    ensures st.bins.Keys <= Step(st, r, binSize).bins.Keys
    ensures Step(st, r, binSize).bins.Keys == st.bins.Keys + (if InSession(st.cur, r) then {st.cur.value.bin} else {})
  {
  }

  // ---------------------------------------------------------------------------
  // The whole pass

  lemma FoldPrefix(data: seq<Rec>, binSize: real)
    requires Binnable(data, binSize) && data != []
    ensures Binnable(data[..|data| - 1], binSize)
    ensures Fold(data, binSize) == Step(Fold(data[..|data| - 1], binSize), data[|data| - 1], binSize)
  {
  }

  /** Keys only accumulate over the pass: every bin of a prefix is a bin of the whole. */
  lemma {:induction false} FoldKeysGrow(data: seq<Rec>, binSize: real, i: nat)
    requires Binnable(data, binSize) && i <= |data|
    ensures Binnable(data[..i], binSize)
    ensures Fold(data[..i], binSize).bins.Keys <= Fold(data, binSize).bins.Keys
    decreases |data|
  {
    if i < |data| {
      var init := data[..|data| - 1];
      FoldPrefix(data, binSize);
      assert init[..i] == data[..i];
      FoldKeysGrow(init, binSize, i);
      StepKeys(Fold(init, binSize), data[|data| - 1], binSize);
    } else {
      assert data[..i] == data;
    }
  }

  /** A bin is some pressure reading's bin: events never create a bin of their own. */
  ghost predicate IsReadingBin(data: seq<Rec>, binSize: real, b: real)
    requires binSize != 0.0
  {
    exists j :: 0 <= j < |data| && IsPressure(data[j]) && BinPressure(data[j].value, binSize) == b
  }

  lemma {:induction false} FoldKeysAreReadingBins(data: seq<Rec>, binSize: real)
    requires binSize != 0.0
    ensures forall b :: b in Fold(data, binSize).bins ==> IsReadingBin(data, binSize, b)
    ensures Fold(data, binSize).cur.Some? ==> IsReadingBin(data, binSize, Fold(data, binSize).cur.value.bin)
    decreases |data|
  {
    if data != [] {
      var init, r := data[..|data| - 1], data[|data| - 1];
      FoldKeysAreReadingBins(init, binSize);
      forall b | IsReadingBin(init, binSize, b) ensures IsReadingBin(data, binSize, b) {
        var j :| 0 <= j < |init| && IsPressure(init[j]) && BinPressure(init[j].value, binSize) == b;
        assert data[j] == init[j];
      }
      if IsPressure(r) {
        assert IsReadingBin(data, binSize, BinPressure(r.value, binSize)) by {
          assert data[|data| - 1] == r;
        }
      }
    }
  }

  /** Before the first pressure reading every cursor is unset. */
  lemma {:induction false} FoldCursorUnset(data: seq<Rec>, binSize: real)
    requires forall i :: 0 <= i < |data| ==> !IsPressure(data[i])
    ensures Fold(data, binSize).cur == None
    ensures Fold(data, binSize).bins == map[]
    ensures Fold(data, binSize).dropped == data
    decreases |data|
  {
    if data != [] {
      var init := data[..|data| - 1];
      FoldPrefix(data, binSize);
      FoldCursorUnset(init, binSize);
      assert data == init + [data[|data| - 1]];
    }
  }

  /** The cursors always hold the bin, timestamp and session of the latest pressure reading. */
  lemma {:induction false} FoldCursorLatest(data: seq<Rec>, binSize: real, j: nat)
    requires binSize != 0.0 && j < |data| && IsPressure(data[j])
    requires forall i :: j < i < |data| ==> !IsPressure(data[i])
    ensures Fold(data, binSize).cur == Some(Cursor(BinPressure(data[j].value, binSize), data[j].time, data[j].session))
    decreases |data|
  {
    var init, r := data[..|data| - 1], data[|data| - 1];
    if j < |data| - 1 {
      assert init[j] == data[j];
      FoldCursorLatest(init, binSize, j);
    }
  }

  /** Whenever the cursors are set, they hold the bin, timestamp and session of some pressure reading already handled. */
  lemma {:induction false} FoldCursorFromReading(data: seq<Rec>, binSize: real)
    requires binSize != 0.0
    ensures Fold(data, binSize).cur.Some? ==>
              exists j :: 0 <= j < |data| && IsPressure(data[j]) &&
                Fold(data, binSize).cur.value == Cursor(BinPressure(data[j].value, binSize), data[j].time, data[j].session)
    decreases |data|
  {
    if data != [] {
      var init, r := data[..|data| - 1], data[|data| - 1];
      FoldCursorFromReading(init, binSize);
      if IsPressure(r) {
        assert data[|data| - 1] == r;
      } else if Fold(init, binSize).cur.Some? {
        var j :| 0 <= j < |init| && IsPressure(init[j]) &&
          Fold(init, binSize).cur.value == Cursor(BinPressure(init[j].value, binSize), init[j].time, init[j].session);
        assert data[j] == init[j];
      }
    }
  }

  // ---------------------------------------------------------------------------
  // Conservation

  /** The time credited to all bins together. */
  ghost function TotalDuration(bins: Bins): (total: int)
    ensures bins == map[] ==> total == 0
  {
    var m := map b | b in bins :: bins[b].duration;
    assert bins == map[] ==> m == map[];
    Sum(m)
  }

  /** The events counted in one bin. */
  ghost function CountTotal(counts: map<string, nat>): (total: int)
    ensures counts == map[] ==> total == 0
  {
    var m := map e | e in counts :: counts[e] as int;
    assert counts == map[] ==> m == map[];
    Sum(m)
  }

  /** The events counted in all bins together. */
  ghost function TotalEvents(bins: Bins): (total: int)
    ensures bins == map[] ==> total == 0
  {
    var m := map b | b in bins :: CountTotal(bins[b].counts);
    assert bins == map[] ==> m == map[];
    Sum(m)
  }

  /** The records that are not pressure readings. */
  function EventRecords(data: seq<Rec>): nat
  {
    if data == [] then 0
    else EventRecords(data[..|data| - 1]) + (if IsPressure(data[|data| - 1]) then 0 else 1)
  }

  /** Replacing one bin's bucket changes each total by the difference of the two buckets. */
  lemma TotalsAfterUpdate(bins: Bins, b: real, nb: Bucket)
    ensures TotalDuration(bins[b := nb]) == TotalDuration(bins) - Lookup(bins, b).duration + nb.duration
    ensures TotalEvents(bins[b := nb]) == TotalEvents(bins) - CountTotal(Lookup(bins, b).counts) + CountTotal(nb.counts)
  {
    DurationAfterUpdate(bins, b, nb);
    EventsAfterUpdate(bins, b, nb);
  }

  lemma DurationAfterUpdate(bins: Bins, b: real, nb: Bucket)
    ensures TotalDuration(bins[b := nb]) == TotalDuration(bins) - Lookup(bins, b).duration + nb.duration
  {
    var durs := map k | k in bins :: bins[k].duration;
    var bins' := bins[b := nb];
    assert (map k | k in bins' :: bins'[k].duration) == durs[b := nb.duration];
    SumUpdate(durs, b, nb.duration);
  }

  lemma EventsAfterUpdate(bins: Bins, b: real, nb: Bucket)
    ensures TotalEvents(bins[b := nb]) == TotalEvents(bins) - CountTotal(Lookup(bins, b).counts) + CountTotal(nb.counts)
  {
    var evs := map k | k in bins :: CountTotal(bins[k].counts);
    var bins' := bins[b := nb];
    assert (map k | k in bins' :: CountTotal(bins'[k].counts)) == evs[b := CountTotal(nb.counts)];
    SumUpdate(evs, b, CountTotal(nb.counts));
  }

  lemma TotalsAfterCredit(bins: Bins, b: real, d: int)
    ensures TotalDuration(Credit(bins, b, d)) == TotalDuration(bins) + d
    ensures TotalEvents(Credit(bins, b, d)) == TotalEvents(bins)
  {
    TotalsAfterUpdate(bins, b, Lookup(bins, b).(duration := Lookup(bins, b).duration + d));
  }

  lemma CountTotalAfterIncrement(counts: map<string, nat>, e: string)
    ensures CountTotal(counts[e := CountOf(counts, e) + 1]) == CountTotal(counts) + 1
  {
    var cs := map x | x in counts :: counts[x] as int;
    var counts' := counts[e := CountOf(counts, e) + 1];
    assert (map x | x in counts' :: counts'[x] as int) == cs[e := CountOf(counts, e) + 1];
    SumUpdate(cs, e, CountOf(counts, e) + 1);
  }

  lemma TotalsAfterTally(bins: Bins, b: real, e: string)
    ensures TotalDuration(Tally(bins, b, e)) == TotalDuration(bins)
    ensures TotalEvents(Tally(bins, b, e)) == TotalEvents(bins) + 1
  {
    var bk := Lookup(bins, b);
    TotalsAfterUpdate(bins, b, bk.(counts := bk.counts[e := CountOf(bk.counts, e) + 1]));
    CountTotalAfterIncrement(bk.counts, e);
  }

  /**
   Every event record is either counted in exactly one bin or dropped with a
   warning: the counts over all bins plus the warnings equal the number of
   event records.
   */
  lemma {:induction false} EventsConserved(data: seq<Rec>, binSize: real)
    requires Binnable(data, binSize)
    ensures TotalEvents(Fold(data, binSize).bins) + |Fold(data, binSize).dropped| == EventRecords(data)
    decreases |data|
  {
    if data != [] {
      var init, r := data[..|data| - 1], data[|data| - 1];
      FoldPrefix(data, binSize);
      EventsConserved(init, binSize);
      var st := Fold(init, binSize);
      if IsPressure(r) {
        if InSession(st.cur, r) {
          TotalsAfterCredit(st.bins, st.cur.value.bin, r.time - st.cur.value.time);
        }
      } else if InSession(st.cur, r) {
        TotalsAfterTally(st.bins, st.cur.value.bin, r.event);
      }
    }
  }

  /**
   Telescoping: for pressure readings of one session the credited time adds up
   to the span from the first reading to the last, however it is spread
   over the bins.
   */
  lemma {:induction false} OneSessionSpan(data: seq<Rec>, binSize: real, session: string)
    requires binSize != 0.0 && data != []
    requires forall i :: 0 <= i < |data| ==> IsPressure(data[i]) && data[i].session == session
    ensures TotalDuration(Fold(data, binSize).bins) == data[|data| - 1].time - data[0].time
    decreases |data|
  {
    var init, r := data[..|data| - 1], data[|data| - 1];
    if init == [] {
      assert Fold(init, binSize) == Start;
    } else {
      assert init[0] == data[0];
      OneSessionSpan(init, binSize, session);
      SpanStep(data, binSize, session);
    }
  }

  /** The last of several readings of one session credits the time since the reading before it. */
  lemma SpanStep(data: seq<Rec>, binSize: real, session: string)
    requires binSize != 0.0 && |data| >= 2
    requires forall i :: 0 <= i < |data| ==> IsPressure(data[i]) && data[i].session == session
    ensures TotalDuration(Fold(data, binSize).bins)
         == TotalDuration(Fold(data[..|data| - 1], binSize).bins) + (data[|data| - 1].time - data[|data| - 2].time)
  {
    var init, r := data[..|data| - 1], data[|data| - 1];
    FoldPrefix(data, binSize);
    FoldCursorLatest(init, binSize, |init| - 1);
    var st := Fold(init, binSize);
    assert init[|init| - 1] == data[|data| - 2];
    assert InSession(st.cur, r);
    TotalsAfterCredit(st.bins, st.cur.value.bin, r.time - st.cur.value.time);
  }

  /**
   On chronologically sorted records no credited time is negative: every bin's
   duration is at least zero, and the cursor's timestamp is not later than the
   last record handled.
   */
  lemma {:induction false} SortedDurationsNonnegative(data: seq<Rec>, binSize: real)
    requires Binnable(data, binSize) && Chronology.Sorted(data)
    ensures forall b :: b in Fold(data, binSize).bins ==> Fold(data, binSize).bins[b].duration >= 0
    ensures Fold(data, binSize).cur.Some? ==> data != [] && Fold(data, binSize).cur.value.time <= data[|data| - 1].time
    decreases |data|
  {
    if data != [] {
      var init, r := data[..|data| - 1], data[|data| - 1];
      FoldPrefix(data, binSize);
      assert Chronology.Sorted(init);
      SortedDurationsNonnegative(init, binSize);
      var st := Fold(init, binSize);
      if st.cur.Some? {
        KeyOrder(init[|init| - 1], r);
        assert st.cur.value.time <= r.time;
      }
    }
  }

  /**
   On chronologically sorted records the time a pressure reading of the
   tracked session credits to the previous bin is never negative.
   */
  lemma SortedCreditNonnegative(data: seq<Rec>, binSize: real, i: nat)
    requires binSize != 0.0 && Chronology.Sorted(data) && i < |data|
    requires IsPressure(data[i]) && InSession(Fold(data[..i], binSize).cur, data[i])
    ensures data[i].time - Fold(data[..i], binSize).cur.value.time >= 0
  {
    var init := data[..i];
    assert Chronology.Sorted(init);
    SortedDurationsNonnegative(init, binSize);
    KeyOrder(init[i - 1], data[i]);
  }
}
