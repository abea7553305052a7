/**
 `main` of the CPAP log summariser, minus reading the file and printing the
 report: sort the records in place, then run the aggregation pass over them.
 */
module Cpap {
  import opened Records
  import opened Chronology
  import opened Binning
  import opened Aggregation
  import opened AggregationProperties

  /** Sorts `data` in place and aggregates the sorted records. */
  method Summarize(data: array<Rec>, binSize: real) returns (out: Outcome)
    modifies data
    ensures data[..] == Sort(old(data[..]))
    ensures out == SummaryOf(old(data[..]), binSize)
  {
    SortByTime(data);
    out := Aggregate(data[..], binSize);
  }

  /** The summary of a log as `main` computes it: its records sorted, then aggregated. */
  function SummaryOf(log: seq<Rec>, binSize: real): Outcome
  {
    Run(Sort(log), binSize)
  }

  /**
   An event of the tracked session is counted in the bin of a pressure
   reading strictly earlier than the event: every pressure reading with the
   event's timestamp comes after it once the log is sorted, so a pressure
   change at the same instant has not yet taken effect.
   */
  lemma SameInstantEventInEarlierBin(log: seq<Rec>, binSize: real, i: nat)
    requires binSize != 0.0 && i < |Sort(log)|
    requires !IsPressure(Sort(log)[i]) && InSession(Fold(Sort(log)[..i], binSize).cur, Sort(log)[i])
    ensures forall j :: 0 <= j < |Sort(log)| && IsPressure(Sort(log)[j]) && Sort(log)[j].time == Sort(log)[i].time ==> i < j
    ensures Fold(Sort(log)[..i], binSize).cur.value.time < Sort(log)[i].time
    ensures var cb, e := Fold(Sort(log)[..i], binSize).cur.value.bin, Sort(log)[i].event;
            CountOf(Lookup(Fold(Sort(log)[..i + 1], binSize).bins, cb).counts, e)
              == CountOf(Lookup(Fold(Sort(log)[..i], binSize).bins, cb).counts, e) + 1
  {
    var s := Sort(log);
    SortChronological(log);
    SortSorted(log);
    // The cursors were set by a pressure reading j before the event, at an earlier time.
    FoldCursorFromReading(s[..i], binSize);
    var j :| 0 <= j < i && IsPressure(s[..i][j]) && Fold(s[..i], binSize).cur.value.time == s[..i][j].time;
    assert s[..i][j] == s[j];
    KeyOrder(s[j], s[i]);
    // The event itself is counted by the step that handles it.
    assert s[..i + 1][..i] == s[..i];
    StepEventCount(Fold(s[..i], binSize), s[i], binSize);
  }

  /**
   An event logged at the same instant as a pressure change is counted in the
   bin in force before the change, even when the file lists it after the
   pressure reading.
   */
  lemma SameInstantGoesToPreviousBin()
    ensures SummaryOf([Rec(0, "Pressure", "1", 5.2), Rec(600, "Pressure", "1", 6.2), Rec(600, "Apnea", "1", 0.0)], 0.5)
         == Aggregation.Summary(map[5.0 := Bucket(600, map["Apnea" := 1])], [])
  {
    var p0, p1, e := Rec(0, "Pressure", "1", 5.2), Rec(600, "Pressure", "1", 6.2), Rec(600, "Apnea", "1", 0.0);
    var log := [p0, p1, e];
    // The sort moves the apnea ahead of the pressure reading with the same timestamp.
    assert Key(p0) == 1 && Key(p1) == 1201 && Key(e) == 1200;
    assert log[..2] == [p0, p1] && [p0, p1][..1] == [p0] && [p0][..0] == [];
    assert Sort([p0]) == [p0];
    assert Sort([p0, p1]) == Insert([p0], p1) == [p0, p1];
    assert Insert([p0, p1], e) == Insert([p0], e) + [p1] == [p0, e, p1];
    var sorted := [p0, e, p1];
    assert Sort(log) == sorted;
    // Bin 5.0 holds 5.2 for a bin size of 0.5.
    assert 5.2 / 0.5 == 10.4 && (10.4).Floor == 10;
    assert BinPressure(5.2, 0.5) == 5.0;
    // The pass, one record at a time.
    assert sorted[..2] == [p0, e] && [p0, e][..1] == [p0] && [p0][..0] == [];
    var st1 := State(map[], Some(Cursor(5.0, 0, "1")), []);
    assert Fold([p0], 0.5) == Step(Start, p0, 0.5) == st1;
    var st2 := State(map[5.0 := Bucket(0, map["Apnea" := 1])], Some(Cursor(5.0, 0, "1")), []);
    assert Fold([p0, e], 0.5) == Step(st1, e, 0.5) == st2;
    assert Fold(sorted, 0.5) == Step(st2, p1, 0.5);
    assert Step(st2, p1, 0.5).bins == map[5.0 := Bucket(600, map["Apnea" := 1])];
  }

  /**
   Two sessions: the first credits ten minutes to bin 5.0 and counts its
   apnea there; the second session starts without crediting the gap between
   the sessions; an event of a session that has no pressure reading is dropped.
   */
  lemma TwoSessions()
    ensures SummaryOf([Rec(0, "Pressure", "1", 5.0), Rec(300, "Apnea", "1", 0.0), Rec(600, "Pressure", "1", 5.0),
                       Rec(90000, "Pressure", "2", 7.3), Rec(90100, "Hypopnea", "3", 0.0)], 0.5)
         == Aggregation.Summary(map[5.0 := Bucket(600, map["Apnea" := 1])], [Rec(90100, "Hypopnea", "3", 0.0)])
  {
    var p0, e1, p2 := Rec(0, "Pressure", "1", 5.0), Rec(300, "Apnea", "1", 0.0), Rec(600, "Pressure", "1", 5.0);
    var p3, e4 := Rec(90000, "Pressure", "2", 7.3), Rec(90100, "Hypopnea", "3", 0.0);
    var log := [p0, e1, p2, p3, e4];
    assert Sorted(log) by {
      assert Key(p0) < Key(e1) < Key(p2) < Key(p3) < Key(e4);
    }
    SortOfSorted(log);
    TwoSessionsPass(log);
  }

  /** The aggregation pass over the (already sorted) records of `TwoSessions`, one record at a time. */
  lemma TwoSessionsPass(log: seq<Rec>)
    requires log == [Rec(0, "Pressure", "1", 5.0), Rec(300, "Apnea", "1", 0.0), Rec(600, "Pressure", "1", 5.0),
                     Rec(90000, "Pressure", "2", 7.3), Rec(90100, "Hypopnea", "3", 0.0)]
    ensures Fold(log, 0.5) == State(map[5.0 := Bucket(600, map["Apnea" := 1])], Some(Cursor(7.0, 90000, "2")),
                                    [Rec(90100, "Hypopnea", "3", 0.0)])
  {
    var p0, e1, p2, p3, e4 := log[0], log[1], log[2], log[3], log[4];
    assert 5.0 / 0.5 == 10.0 && (10.0).Floor == 10 && BinPressure(5.0, 0.5) == 5.0;
    assert 7.3 / 0.5 == 14.6 && (14.6).Floor == 14 && BinPressure(7.3, 0.5) == 7.0;
    assert log[..4] == [p0, e1, p2, p3] && [p0, e1, p2, p3][..3] == [p0, e1, p2];
    assert [p0, e1, p2][..2] == [p0, e1] && [p0, e1][..1] == [p0] && [p0][..0] == [];
    var bins := map[5.0 := Bucket(600, map["Apnea" := 1])];
    var st1 := State(map[], Some(Cursor(5.0, 0, "1")), []);
    var st2 := State(map[5.0 := Bucket(0, map["Apnea" := 1])], Some(Cursor(5.0, 0, "1")), []);
    var st3 := State(bins, Some(Cursor(5.0, 600, "1")), []);
    var st4 := State(bins, Some(Cursor(7.0, 90000, "2")), []);
    assert Fold([p0], 0.5) == Step(Start, p0, 0.5) == st1;
    assert Fold([p0, e1], 0.5) == Step(st1, e1, 0.5) == st2;
    assert Fold([p0, e1, p2], 0.5) == Step(st2, p2, 0.5) == st3;
    assert Fold([p0, e1, p2, p3], 0.5) == Step(st3, p3, 0.5) == st4;
    assert Fold(log, 0.5) == Step(st4, e4, 0.5);
  }
}
