# Charge-cycle engine of the asset tracker, in Dafny

The asset tracker imports GPS telemetry from CSV files. Each row has a
device, a timestamp and a battery voltage. From that telemetry it derives the
device's **charge cycles**.

A detection loop walks one device's time-sorted series. It compares the
voltage at a cursor with the voltage `window` samples ahead (3 by default).
When the voltage rises by at least the threshold (0.15 V by default), the loop
emits a raw candidate that runs from the cursor to the first peak of the
window, and the cursor jumps to that peak.

A merge loop then folds each candidate that starts at most sixty minutes after
the previous cycle ends into that cycle. It widens the cycle's span and
voltage range and recomputes its duration and its long-offline flag. A cycle
spanning two days or more is read as an offline gap.

A formatting loop adds the presentation fields:
- the 12-hour clock times;
- the duration as `{days} days {hours} hrs {minutes} mins`;
- for long-offline cycles only, the same text written over `days_offline`.

The activity chart is built from the same data:
- per-day ping counts;
- two markers per cycle (its start and its peak);
- an x-axis style chosen from the span of the pings.

The upload filter accepts only names ending in `.csv`, in any case.

Encoding used throughout:
- Instants are whole seconds on a zone-naive clock.
- Calendar days are day numbers (`t / 86400`).
- Voltages are whole millivolts, so the default threshold is `150`.

Modules:
- `Telemetry`: samples, charge records and the long-offline rule.
- `Detection`: the detection loop (`DetectRaw`), proved against the recursive
  specification `Scan`.
- `Merging`: the merge loop (`MergeNearby`), proved against the left fold `Merge`.
- `Text`: decimal rendering and `split(' ')`, each with its parse.
- `Formatting`: the formatting loop (`FormatAll`), with round trips for the
  duration and clock texts.
- `Engine`: the three loops in sequence (`DetectCharges`) and the facts that
  hold of the reported cycles.
- `Charting`: the ping histogram, the markers, the axis choice, and the
  no-chart case.
- `Upload`: the file-name filter.

## Model

| member | source | states |
|---|---|---|
| Detection.FirstMaxIndex | app.py:679-681 | the index lies in the window, holds the window's highest voltage, and every earlier index in the window is strictly lower (the first maximum, as `list.index(max(...))`) |
| Detection.NextCursor | app.py:674-701 | after a rise the cursor moves to the window's peak, otherwise one step; with a positive threshold it always moves strictly forward |
| Detection.Scan | app.py:674-701 | the detections from cursor `i` start at or after `i`, each peaks strictly after its start and within its window, and each starts no earlier than the previous one's peak |
| Detection.ScanHitsValid | app.py:678-681 | every detection is a position where the rise test holds, and its peak is the first maximum of that window |
| Detection.ScanEmitsExactlyAtRises | app.py:674-701 | at every position the loop visits (every position not jumped over), a candidate starts exactly when the voltage `window` samples ahead exceeds it by at least the threshold |
| Detection.FlatWindowStallsWithoutPositiveThreshold | app.py:678-699 | with a threshold of zero or less, a window of equal voltages passes the rise test and sends the cursor back to itself, so the loop cannot advance |
| Detection.RawCharges | app.py:671-701 | every raw candidate has derived fields that agree with its span and a maximum at least the threshold above its start voltage, and a series no longer than the window has none |
| Detection.DetectRaw | app.py:671-701 | the detection loop yields exactly the candidates of the specification `RawCharges`, and nothing for a series no longer than the window |
| Detection.RawChargesShape | app.py:683-697 | each raw candidate spans from its start sample to its peak sample, has derived fields that agree with that span, rises by at least the threshold, and has a maximum that is the highest voltage of its window; on a sorted series its span does not run backwards and it ends no later than the next candidate starts |
| Telemetry.MakeCharge | app.py:685-696 | a record's duration is its end minus its start, and it is flagged long offline exactly when it spans at least two days |
| Merging.Absorb | app.py:711-717 | a widened cycle keeps its start time, ends at the later end, keeps the lower start voltage and the higher maximum (each taken from one of the two), and recomputes its duration and flag |
| Merging.MergeNearby | app.py:704-719 | the merge loop, updating the last cycle in place, yields exactly the left fold `Merge` |
| Merging.MergeStep | app.py:706-719 | one fold step grows the list by one exactly when the candidate does not join the last cycle; every cycle keeps its start time, all but the last are untouched, and the last reaches to at least the candidate's end and spans at least its voltage range |
| Merging.Merge | app.py:704-719 | merging never lengthens the list, is empty exactly for empty input, and keeps the first candidate's start |
| Merging.MergeSeparates | app.py:711 | consecutive merged cycles lie more than sixty minutes apart |
| Merging.MergeKeepsShape | app.py:711-717 | when every candidate is consistent, runs forwards and rises by at least the threshold, so does every merged cycle |
| Merging.MergeStartsBounded | app.py:711-719 | no merged cycle starts later than the latest candidate start |
| Merging.MergeStepCovers | app.py:706-719 | one merge step keeps every earlier candidate inside some cycle and puts the new one inside one too |
| Merging.MergeCoversEveryCandidate | app.py:704-719 | on candidates in start order, every raw candidate lies inside some merged cycle, both in time span and in voltage range |
| Merging.MergeOfSeparatedIsIdentity | app.py:711-719 | a list whose cycles are already more than an hour apart is left unchanged |
| Merging.MergeIdempotent | app.py:704-719 | merging the merged list again changes nothing |
| Text.NatTextRoundTrip | app.py:731 | the decimal digits of a natural number read back to that number |
| Text.IntTextRoundTrip | app.py:731 | an integer printed as Python prints it reads back to the integer |
| Text.SplitFirstWord | app.py:731 | a word without spaces followed by a space splits off as the first piece of `split(' ')` |
| Text.SplitJoined | app.py:731 | words without spaces joined by single spaces come back word for word from `split(' ')` |
| Formatting.Decompose | app.py:727-730 | the whole days, hours (below 24) and minutes (below 60) of a duration account for it to within less than a minute |
| Formatting.SpanTextRoundTrip | app.py:731 | the text `{days} days {hours} hrs {minutes} mins` of a span reads back to that span |
| Formatting.DurationText | app.py:727-731 | the duration text of a number of seconds; its contract is stated by `Formatting.DurationTextRoundTrip` |
| Formatting.DurationTextRoundTrip | app.py:727-731 | the duration text carries exactly the day/hour/minute decomposition of the duration |
| Formatting.TimeOfDay | app.py:723-724 | the time of day has hour below 24 and minute and second below 60, and adds up to the instant's seconds since midnight |
| Formatting.Hour12 | app.py:723-724 | the 12-hour clock hour lies in 1..12 and agrees with the 24-hour hour modulo 12 |
| Formatting.ClockText | app.py:723-724 | the clock text is eleven characters; that it reads back to the time of day is stated by `Formatting.ClockTextRoundTrip` |
| Formatting.ClockTextRoundTrip | app.py:723-724 | the `%I:%M:%S %p` text of an instant, its hour written 01..12, reads back to its exact time of day |
| Formatting.Format | app.py:722-734 | the loop body on one cycle; its contract is stated by `Formatting.FormatTimes` and `Formatting.FormatFaithful` |
| Formatting.FormatTimes | app.py:722-725 | a formatted cycle keeps its instants, voltages and start day, and its two clock texts read back to the exact start and end times of day |
| Formatting.FormatFaithful | app.py:727-734 | on a consistent record the formatted duration reads back to the span's days, hours and minutes, and `days_offline` becomes the duration text exactly when the cycle spans two days or more, the span in seconds otherwise |
| Formatting.FormatAll | app.py:722-736 | the formatting loop yields each merged cycle formatted, in merge order |
| Engine.DetectCharges | app.py:664-736 | on a time-sorted series, the three loops yield the merged and formatted candidates, and an empty list when the series is empty or no longer than the window |
| Engine.RawStartsAscending | app.py:668-699 | on a sorted series the raw candidates start in non-decreasing time order |
| Engine.ChargeCyclesFacts | app.py:664-736 | the reported cycles are no more than the raw candidates and lie more than an hour apart, and every raw candidate lies inside a reported cycle |
| Engine.ChargeCycleShape | app.py:664-736 | each reported cycle runs forwards and rises by at least the threshold, and its `days_offline` is replaced by text exactly when it spans two days or more |
| Charting.AddPing | app.py:775 | counting one more ping on a day keeps the bars in ascending day order, raises that day's count by one and leaves every other count unchanged |
| Charting.PingCounts | app.py:775-780 | the bars are in strictly ascending day order with positive heights, each day's count is the number of pings on that day, and the heights sum to the number of pings |
| Charting.PingCountsExact | app.py:775-780 | each bar's height is the number of pings on its day, and a day has a bar exactly when some ping fell on it |
| Charting.Parsed | app.py:746 | the parsed pings are the entries that parse: each instant occurs as often as the series holds it, and there are as many pings as entries that are not `None` |
| Charting.ParsedConcat | app.py:746 | parsing keeps the order of the entries: parsing a concatenation concatenates the parses |
| Charting.MinOf | app.py:807 | the earliest ping is one of the pings and no ping is earlier |
| Charting.MaxOf | app.py:808 | the latest ping is one of the pings and no ping is later |
| Charting.AxisFor | app.py:807-815 | the axis is by month exactly when two pings lie at least 61 days apart (whole days of span above 60) |
| Charting.MarkersOf | app.py:755-771 | there are two markers per cycle, in cycle order: the start instant at the start voltage, then the peak instant at the maximum voltage |
| Charting.ChargeMarkers | app.py:751-773 | the marker loop yields exactly `MarkersOf` the cycles |
| Charting.CombinedChart | app.py:742-815 | there is no chart exactly when no ping entry parses; otherwise the chart holds the per-day counts of the parsed pings, summing to the number of entries that parse, the voltage series, the markers of the cycles and the axis chosen from the pings' span |
| Upload.LastDot | app.py:587 | the position is -1 or holds a dot, and no dot follows it |
| Upload.AllowedFile | app.py:586-587 | a name is accepted exactly when it ends in a dot followed by c, s and v, each in either case |
| Upload.CsvExtensionIff | app.py:587 | the text after the last dot lowers to "csv" exactly when the name ends in `.csv` in any case |

## Left out

- The Flask routes, sessions, templates, the SQLite store, CSV import and column normalisation, and the region summary are outside the charge-cycle core and are not modelled.
- Timestamp parsing and day-first/month-first formats are not modelled. A ping entry is given as an already parsed instant or as `None`, and a sample as an instant.
- The sort by timestamp at the entry of the detector is not an operation of the model. It is the precondition `SortedByTime` of `Engine.DetectCharges`, and the detection loop itself runs on any order.
- Engine.DetectCharges: requires a positive rise threshold, which the source does not demand. With a threshold of zero or less the source loop can stop advancing and never end (see `FlatWindowStallsWithoutPositiveThreshold`).
- Voltages are whole millivolts and instants whole seconds. Floating-point rounding at the threshold (a 0.15 V rise computed as 3.15 - 3.0 falls just short in binary floating point) and sub-second timestamps are not modelled.
- NaN voltages are dropped at import, so the `pd.notna` guards of the rise test always hold and are not modelled.
- A negative window is excluded by the type `nat`.
- The `date` field is a day number (`t / 86400`), not the text `%d-%m-%Y`. The chart's day normalisation is modelled the same way.
- Formatting.Format: `days_offline` is modelled as the span in seconds rather than the floating-point number of days.
- The merged records are values. In the source the first record of each merged cycle is the same dictionary as the raw record, so widening it also changes the raw list; the raw list is not read again afterwards.
- The marker hover texts (`%.2f` voltages and `%d-%m-%Y %I:%M %p` dates), the chart title, the trace styling and the Plotly figure itself are not modelled. The voltage trace is carried through unchanged.
- The per-cycle `try/except` in the marker loop never fires on records produced by the detector, so it is not modelled. The list `charge_dates` is built but never read, so it is left out too.
- The outer `try/except` of the chart builder, which returns no chart on any exception, is not modelled.
- Upload.LowerChar: lower-casing covers ASCII letters only. No other character lower-cases to `c`, `s` or `v`, so the comparison with "csv" comes out the same.
