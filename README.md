# CPAP event-log summariser, modelled in Dafny

`cpap.py` reads a CPAP device's exported event log and reports, for each
pressure bin, how long the device spent at that pressure and how many
clinical events (apneas, hypopneas, ...) occurred there. Its logic is one
function, `main`, plus the helper `bin_pressure`:

1. **Chronological ordering.** The records are sorted in place by timestamp.
   At an identical timestamp every non-`Pressure` record goes before every
   `Pressure` record. The code does this by appending the digit `0` or `1`
   to the timestamp string. Python's sort is stable.
2. **Aggregation.** One pass over the sorted records. It keeps three cursors
   (current bin, time of the last pressure reading, current session) and a
   default dictionary that maps each bin to a duration and a counter per
   event type.
   - A `Pressure` record of the current session credits the elapsed time to
     the *previous* bin.
   - Every `Pressure` record then resets all three cursors.
   - Any other record of the current session adds one to its event type's
     counter in the current bin.
   - Any other record is logged as a warning and dropped.
3. **Binning.** `bin_pressure` computes `(p // bin_size) * bin_size` in exact
   decimal arithmetic. Decimal `//` truncates toward zero.

The Dafny project has one module per part:

- `records.dfy` (`Records`): the parsed record and the sort key. The key is
  the integer `2 * time + (1 if Pressure else 0)`, which orders records the
  same way as the timestamp-plus-digit string.
- `binning.dfy` (`Binning`): `BinPressure` and its properties.
- `chronology.dfy` (`Chronology`): `SortByTime`, an in-place stable insertion
  sort on an `array`. It is specified by the function `Sort`, and the
  properties are proved about `Sort`.
- `aggregation.dfy` (`Aggregation`): `Aggregate`, the loop with its three
  cursors and the bin map as local variables. It is proved equal to `Run`,
  a fold of the single-record function `Step`.
- `aggregation_properties.dfy` (`AggregationProperties`): what one step does,
  and what the whole pass conserves.
- `mapsum.dfy` (`MapSum`): sums over finite maps, used for the totals.
- `cpap.dfy` (`Cpap`): `Summarize`, the part of `main` between reading the
  file and printing: sort in place, then aggregate.

Timestamps are whole seconds (`int`). Pressures and bin sizes are exact
values (`real`), as Python's `Decimal` values are. The warning log becomes
the list of dropped records that the pass returns. A zero bin size makes
`Decimal //` raise on the first pressure reading. The model returns
`ZeroBinSize` in that case, and `BinPressure` itself requires a non-zero
bin size.

## Model

| member | source | states |
|---|---|---|
| `Records.Key` | cpap.py:20 | the sort key of a record: half the key is the timestamp, and the key is odd exactly for a pressure reading; its order is stated by `KeyOrder` |
| `Records.KeyOrder` | cpap.py:18-20 | comparing sort keys compares timestamps first; at an equal timestamp a non-pressure record sorts before a pressure record; keys are equal exactly when both the time and the class are equal |
| `Binning.Trunc` | cpap.py:47 | the Decimal `//` quotient: the integer part of `x`, truncated toward zero, within one of `x` on the side of zero |
| `Binning.BinPressure` | cpap.py:45-47 | `bin_pressure`, for `binSize != 0.0` (a zero bin size is the `ZeroBinSize` outcome of `Run`); it has no contract of its own and is specified by `BinIsMultiple`, `BinBounds`, `BinIdempotent`, `BinMonotone` and `BinInterval` |
| `Binning.BinIsMultiple` | cpap.py:45-47 | a bin divided by the bin size is a whole number, the truncated quotient |
| `Binning.BinBounds` | cpap.py:45-47 | a non-negative pressure lies in `[bin, bin + abs(binSize))`; a negative one lies in `(bin - abs(binSize), bin]` |
| `Binning.BinIdempotent` | cpap.py:45-47 | binning a bin returns the same bin |
| `Binning.BinMonotone` | cpap.py:45-47 | a larger pressure never gets a lower bin, for any non-zero bin size |
| `Binning.BinInterval` | cpap.py:45-47 | for a positive bin size and a non-negative pressure, the bin is `k * binSize` if and only if the pressure lies in `[k * binSize, (k + 1) * binSize)` |
| `Chronology.Insert` | cpap.py:20 | one insertion step of the stable sort, on sequences; specified by `InsertPermutes`, `InsertSorted`, `InsertStable` and `InsertAt` |
| `Chronology.Sort` | cpap.py:20 | the order `data.sort` leaves the records in; specified by `SortPermutes`, `SortSorted`, `SortChronological`, `SortStable` and `SortIsTheStableSort`, and computed in place by `SortByTime` |
| `Chronology.SortByTime` | cpap.py:20 | the in-place sort leaves the array equal to `Sort` of its old contents |
| `Chronology.InsertLast` | cpap.py:20 | one pass of the in-place insertion: the prefix up to `i` becomes `Insert` of the old prefix and the old `a[i]`; the rest of the array does not change |
| `Chronology.InsertPermutes` | cpap.py:20 | inserting adds exactly one record to the multiset |
| `Chronology.InsertSorted` | cpap.py:20 | inserting into a sorted sequence keeps it sorted |
| `Chronology.InsertStable` | cpap.py:20 | the inserted record goes after every record of its own key |
| `Chronology.InsertAt` | cpap.py:20 | `Insert` puts the record directly after the last record whose key is not larger than its own |
| `Chronology.SortPermutes` | cpap.py:20 | the sorted sequence is a permutation of the input |
| `Chronology.SortSorted` | cpap.py:20 | the sorted sequence has non-decreasing keys |
| `Chronology.SortChronological` | cpap.py:18-20 | the sorted sequence has non-decreasing timestamps; at an equal timestamp no pressure record comes before a non-pressure record |
| `Chronology.SortStable` | cpap.py:20 | the records sharing a key (same timestamp and same class) appear in their input order |
| `Chronology.SortedUnique` | cpap.py:20 | two sorted sequences with the same records, in the same order within each key, are equal |
| `Chronology.SortIsTheStableSort` | cpap.py:20 | any sorted arrangement that keeps the input order within each key is `Sort` of the input; so `Sort` is the stable sort Python performs |
| `Chronology.SortOfSorted` | cpap.py:20 | sorting records that are already in key order leaves them unchanged |
| `Aggregation.Step` | cpap.py:27-39 | the loop body on one record, for `IsPressure(r) ==> binSize != 0.0`; specified by `StepPressureCredit`, `StepPressureCursor`, `StepEventCount`, `StepDrop` and `StepKeys` |
| `Aggregation.Fold` | cpap.py:22-39 | the state after the loop has handled every record, for `Binnable(data, binSize)`: the cursors start unset and the map empty (lines 22-25); specified by `FoldKeysGrow`, `FoldKeysAreReadingBins`, `FoldCursorUnset`, `FoldCursorLatest`, `FoldCursorFromReading`, `EventsConserved`, `OneSessionSpan` and `SortedDurationsNonnegative` |
| `Aggregation.Run` | cpap.py:22-39 | the whole pass, for any input: `ZeroBinSize` exactly when a pressure reading meets a zero bin size (where `Decimal //` raises at line 47), otherwise the bin map and dropped records of `Fold`; computed by `Aggregate` |
| `Aggregation.Aggregate` | cpap.py:22-39 | the loop, with three separate cursors and the mutable bin map, returns `Run` of the records: the bin map and the dropped records of the fold, or `ZeroBinSize` if a pressure reading meets a zero bin size |
| `AggregationProperties.StepPressureCredit` | cpap.py:31-32 | a pressure record of the tracked session adds exactly `time - cursor time` to the previous bin's duration, creating that bin if it is missing; the bin's counts and every other bin are unchanged; a pressure record of another session changes no bin; nothing is dropped |
| `AggregationProperties.StepPressureCursor` | cpap.py:33-35 | after any pressure record the cursors are that record's bin, timestamp and session, whatever they were before |
| `AggregationProperties.StepEventCount` | cpap.py:36-37 | an event of the tracked session adds one to its own counter in the current bin; no other counter, duration, bin, cursor or warning changes |
| `AggregationProperties.StepDrop` | cpap.py:36-39 | a record is dropped if and only if it is not a pressure reading and not of the tracked session; a drop adds exactly that record and changes no bin and no cursor |
| `AggregationProperties.StepKeys` | cpap.py:22-37 | no bin is ever removed; the only bin a step can add is the current bin, and only for a record of the tracked session |
| `AggregationProperties.FoldKeysGrow` | cpap.py:27-39 | every bin present after a prefix of the records is still present at the end |
| `AggregationProperties.FoldKeysAreReadingBins` | cpap.py:30-37 | every bin in the map, and the cursor's bin, is the bin of some pressure reading of the input |
| `AggregationProperties.FoldCursorUnset` | cpap.py:23-39 | before the first pressure reading the cursors stay unset, no bin exists, and every record is dropped |
| `AggregationProperties.FoldCursorLatest` | cpap.py:27-35 | after the pass the cursors hold the bin, timestamp and session of the last pressure reading |
| `AggregationProperties.FoldCursorFromReading` | cpap.py:33-35 | whenever the cursors are set they hold the bin, timestamp and session of some pressure reading already handled |
| `AggregationProperties.TotalsAfterCredit` | cpap.py:32 | a credit of `d` raises the total duration over all bins by exactly `d` and leaves the total event count unchanged |
| `AggregationProperties.TotalsAfterTally` | cpap.py:37 | counting one event raises the total event count by exactly one and leaves the total duration unchanged |
| `AggregationProperties.EventsConserved` | cpap.py:27-39 | the counts over all bins plus the number of dropped records equal the number of non-pressure records |
| `AggregationProperties.OneSessionSpan` | cpap.py:27-35 | for pressure readings of one session, the durations over all bins add up to the last timestamp minus the first |
| `AggregationProperties.SortedDurationsNonnegative` | cpap.py:20-32 | on chronologically sorted records every bin's duration is non-negative, and the cursor time is not later than the last record |
| `AggregationProperties.SpanStep` | cpap.py:31-32 | among readings of one session, the last reading credits exactly the time since the reading before it |
| `AggregationProperties.SortedCreditNonnegative` | cpap.py:20-32 | on chronologically sorted records, the time a pressure reading of the tracked session credits to the previous bin is never negative |
| `Cpap.SummaryOf` | cpap.py:18-39 | `main` on a log, minus I/O: `Run` of `Sort` of the records; computed in place by `Summarize`, illustrated by `SameInstantGoesToPreviousBin` and `TwoSessions` |
| `Cpap.Summarize` | cpap.py:18-39 | `main` without I/O: the array ends up sorted as `Sort` says, and the result is the aggregation of the sorted records |
| `Cpap.SameInstantEventInEarlierBin` | cpap.py:18-37 | for every log: once sorted, every pressure reading at an event's timestamp comes after the event; an event of the tracked session is counted, by exactly one, in the bin of a pressure reading strictly earlier in time |
| `Cpap.SameInstantGoesToPreviousBin` | cpap.py:18-37 | an apnea logged at the same second as a pressure change, but listed after it in the file, is counted in the bin in force before the change |
| `Cpap.TwoSessions` | cpap.py:27-39 | a worked log of two sessions: ten minutes and one apnea in bin 5.0; the gap before the second session is not credited; the event of a session with no pressure reading is dropped |

## Left out

- Reading the CSV file (cpap.py:13-16) is I/O. The input is a given sequence of records.
- Timestamp parsing with `strptime` (cpap.py:29) and `Decimal` parsing of the pressure text (cpap.py:46) are library calls. Timestamps arrive as integer seconds and pressures as exact values. The fatal errors for malformed text are not modelled.
- The sort key is the string `DateTime + '0'/'1'` (cpap.py:20). The model uses the integer `2 * time + digit`. The two orders agree because the timestamps have a fixed width.
- Python's sort algorithm itself is not modelled. `SortIsTheStableSort` proves that any stable sort produces the same sequence as `Sort`.
- Logging (cpap.py:39) becomes the list of dropped records.
- Run: when the bin size is zero, the warnings logged before the abort are not part of the `ZeroBinSize` outcome.
- Printing the report (cpap.py:41-42) is output. This includes unordered dictionary iteration and the division to minutes.
- Argument parsing (cpap.py:50-55) is left out, including the default bin size of 0.5. The bin size is a parameter.
- `Decimal` context precision (28 significant digits) is not modelled. The arithmetic is exact at any magnitude.
- A short CSV row, for which `DictReader` gives `None` as the session, is not modelled. Sessions are always strings.
- OneSessionSpan: the telescoping sum is stated for one session only. Across sessions, the gap between the last reading of one session and the first reading of the next is never credited (`StepPressureCredit`).
