/**
 * The data behind the activity chart: pings counted per day in ascending
 * day order, the full voltage series, two markers per charge cycle (its
 * start and its peak), and the x-axis style chosen from the span of the
 * pings. With no parseable ping there is no chart at all.
 */
module Charting {
  import opened Telemetry
  import opened Formatting

  /** One bar of the ping histogram: a day and the number of pings on it. */
  datatype Bar = Bar(day: int, pings: nat)

  predicate StrictlyAscending(bars: seq<Bar>) {
    forall i, j :: 0 <= i < j < |bars| ==> bars[i].day < bars[j].day
  }

  predicate AllPositive(bars: seq<Bar>) {
    forall i :: 0 <= i < |bars| ==> bars[i].pings > 0
  }

  /** The pings the bars record for day `d`. */
  function PingsOn(bars: seq<Bar>, d: int): nat {
    if bars == [] then 0 else (if bars[0].day == d then bars[0].pings else 0) + PingsOn(bars[1..], d)
  }

  /** The pings the bars record in all. */
  function Total(bars: seq<Bar>): nat {
    if bars == [] then 0 else bars[0].pings + Total(bars[1..])
  }

  /** Some bar stands for day `d`. */
  predicate HasBar(bars: seq<Bar>, d: int) {
    exists i :: 0 <= i < |bars| && bars[i].day == d
  }

  /**
   * Counts one more ping on day `d`, keeping the bars in ascending day
   * order: the count of `d` goes up by one and no other count changes.
   */
  function AddPing(bars: seq<Bar>, d: int): (r: seq<Bar>)
    requires StrictlyAscending(bars) && AllPositive(bars)
    ensures StrictlyAscending(r) && AllPositive(r)
    ensures |r| > 0 && r[0].day == (if bars == [] || d < bars[0].day then d else bars[0].day)
    ensures forall e :: PingsOn(r, e) == PingsOn(bars, e) + (if e == d then 1 else 0)
    ensures Total(r) == Total(bars) + 1
    ensures forall i :: 0 <= i < |r| ==> r[i].day == d || HasBar(bars, r[i].day)
  {
    if bars == [] then [Bar(d, 1)]
    else if d < bars[0].day then [Bar(d, 1)] + bars
    else if d == bars[0].day then [Bar(d, bars[0].pings + 1)] + bars[1..]
    else
      var rest := AddPing(bars[1..], d);
      assert forall i :: 0 <= i < |rest| ==> rest[i].day == d || HasBar(bars, rest[i].day) by {
        forall i | 0 <= i < |rest| && rest[i].day != d ensures HasBar(bars, rest[i].day) {
          var j :| 0 <= j < |bars[1..]| && bars[1..][j].day == rest[i].day;
          assert bars[j + 1].day == rest[i].day;
        }
      }
      [bars[0]] + rest
  }

  /**
   * The per-day ping counts of a list of ping days (`value_counts` then
   * `sort_index`): ascending days, every count positive, the count of
   * each day the number of pings on it, and the counts summing to the
   * number of pings.
   */
  function PingCounts(days: seq<int>): (bars: seq<Bar>)
    ensures StrictlyAscending(bars) && AllPositive(bars)
    ensures forall e :: PingsOn(bars, e) == multiset(days)[e]
    ensures Total(bars) == |days|
    ensures forall i :: 0 <= i < |bars| ==> bars[i].day in days
    decreases |days|
  {
    if days == [] then []
    else
      var prefix := days[..|days| - 1];
      var d := days[|days| - 1];
      assert days == prefix + [d];
      var before := PingCounts(prefix);
      var bars := AddPing(before, d);
      assert forall i :: 0 <= i < |bars| ==> bars[i].day in days by {
        forall i | 0 <= i < |bars| ensures bars[i].day in days {
          if bars[i].day != d {
            var j :| 0 <= j < |before| && before[j].day == bars[i].day;
            assert before[j].day in prefix;
          }
        }
      }
      bars
  }

  /** In ascending bars, each bar holds the whole count of its day. */
  lemma {:induction false} PingsOnBar(bars: seq<Bar>, i: nat)
    requires StrictlyAscending(bars) && i < |bars|
    ensures PingsOn(bars, bars[i].day) == bars[i].pings
  {
    if i == 0 {
      if |bars| > 1 {
        PingsOnAbsent(bars[1..], bars[0].day);
      } else {
        assert bars[1..] == [];
      }
    } else {
      PingsOnBar(bars[1..], i - 1);
    }
  }

  /** Ascending bars whose days all exceed `d` record nothing for `d`. */
  lemma {:induction false} PingsOnAbsent(bars: seq<Bar>, d: int)
    requires StrictlyAscending(bars) && bars != [] && d < bars[0].day
    ensures PingsOn(bars, d) == 0
  {
    if |bars| > 1 {
      PingsOnAbsent(bars[1..], d);
    } else {
      assert bars[1..] == [];
    }
  }

  /**
   * The histogram is exact: each bar's height is the number of pings on its
   * day, and a day has a bar exactly when some ping fell on it.
   */
  lemma PingCountsExact(days: seq<int>)
    ensures forall i :: 0 <= i < |PingCounts(days)| ==> PingCounts(days)[i].pings == multiset(days)[PingCounts(days)[i].day]
    ensures forall e :: HasBar(PingCounts(days), e) <==> e in days
  {
    var bars := PingCounts(days);
    forall i | 0 <= i < |bars| ensures bars[i].pings == multiset(days)[bars[i].day] {
      PingsOnBar(bars, i);
    }
    forall e ensures HasBar(bars, e) <==> e in days {
      if e in days {
        assert PingsOn(bars, e) > 0;
        if !HasBar(bars, e) {
          PingsOnNoBar(bars, e);
        }
      }
    }
  }

  /** Bars with no bar for day `d` record nothing for it. */
  lemma {:induction false} PingsOnNoBar(bars: seq<Bar>, d: int)
    requires !HasBar(bars, d)
    ensures PingsOn(bars, d) == 0
  {
    if bars != [] {
      assert bars[0].day != d;
      assert !HasBar(bars[1..], d);
      PingsOnNoBar(bars[1..], d);
    }
  }

  /** The days of the pings, each normalised to its midnight. */
  function PingDays(pings: seq<int>): (days: seq<int>)
    ensures |days| == |pings| && forall i :: 0 <= i < |pings| ==> days[i] == Day(pings[i])
  {
    seq(|pings|, i requires 0 <= i < |pings| => Day(pings[i]))
  }

  /**
   * The ping entries that parse as instants, in order, the others dropped:
   * each instant occurs as often as the series holds it, so there are as
   * many pings as entries that are not `None`.
   */
  function Parsed(series: seq<Option<int>>): (pings: seq<int>)
    ensures forall t :: multiset(pings)[t] == multiset(series)[Some(t)]
    ensures |pings| == |series| - multiset(series)[None]
    ensures forall t :: t in pings <==> Some(t) in series
    decreases |series|
  {
    if series == [] then []
    else
      var rest := Parsed(series[1..]);
      assert series == [series[0]] + series[1..];
      assert multiset(series) == multiset{series[0]} + multiset(series[1..]);
      match series[0]
      case Some(t) => [t] + rest
      case None => rest
  }

  /** Parsing keeps the order of the entries: it distributes over concatenation. */
  lemma {:induction false} ParsedConcat(a: seq<Option<int>>, b: seq<Option<int>>)
    ensures Parsed(a + b) == Parsed(a) + Parsed(b)
    decreases |a|
  {
    if a != [] {
      assert (a + b)[1..] == a[1..] + b;
      ParsedConcat(a[1..], b);
    } else {
      assert a + b == b;
    }
  }

  /** The earliest of a non-empty list of instants. */
  function MinOf(s: seq<int>): (m: int)
    requires s != []
    ensures m in s && forall i :: 0 <= i < |s| ==> m <= s[i]
  {
    if |s| == 1 then s[0] else var r := MinOf(s[1..]); if s[0] <= r then s[0] else r
  }

  /** The latest of a non-empty list of instants. */
  function MaxOf(s: seq<int>): (m: int)
    requires s != []
    ensures m in s && forall i :: 0 <= i < |s| ==> s[i] <= m
  {
    if |s| == 1 then s[0] else var r := MaxOf(s[1..]); if s[0] >= r then s[0] else r
  }

  /** The x-axis style: by month for a span over sixty days, by date otherwise. */
  datatype Axis = ByMonth | ByDate

  /**
   * The axis for a non-empty ping list, by month when its whole days of
   * span exceed sixty: exactly when two pings lie at least 61 days apart.
   */
  function AxisFor(pings: seq<int>): (axis: Axis)
    requires pings != []
    ensures axis == ByMonth <==> FarApart(pings)
  {
    var dateRange := (MaxOf(pings) - MinOf(pings)) / SecondsPerDay;
    if dateRange > 60 then ByMonth else ByDate
  }

  /** Two pings lie at least 61 days apart. */
  predicate FarApart(pings: seq<int>) {
    exists i, j :: 0 <= i < |pings| && 0 <= j < |pings| && pings[j] - pings[i] >= 61 * 86400
  }

  datatype MarkerKind = StartPoint | PeakPoint

  /** One charge marker: where it stands on the time axis and the voltage axis. */
  datatype Marker = Marker(time: int, voltage: int, kind: MarkerKind)

  function StartMarker(c: Cycle): Marker {
    Marker(c.startInstant, c.startVoltage, StartPoint)
  }

  function PeakMarker(c: Cycle): Marker {
    Marker(c.endInstant, c.maxVoltage, PeakPoint)
  }

  /**
   * The markers of a list of cycles: two per cycle, in cycle order, the
   * start instant at the start voltage, then the end instant at the
   * maximum voltage.
   */
  function MarkersOf(cycles: seq<Cycle>): (markers: seq<Marker>)
    ensures |markers| == 2 * |cycles|
    ensures forall k :: 0 <= k < |cycles| ==>
      markers[2 * k] == Marker(cycles[k].startInstant, cycles[k].startVoltage, StartPoint)
      && markers[2 * k + 1] == Marker(cycles[k].endInstant, cycles[k].maxVoltage, PeakPoint)
    decreases |cycles|
  {
    if cycles == [] then []
    else
      var prefix := cycles[..|cycles| - 1];
      assert forall k :: 0 <= k < |prefix| ==> cycles[k] == prefix[k];
      MarkersOf(prefix) + [StartMarker(cycles[|cycles| - 1]), PeakMarker(cycles[|cycles| - 1])]
  }

  /** The marker loop: appends the two points of each cycle in turn. */
  method ChargeMarkers(cycles: seq<Cycle>) returns (markers: seq<Marker>)
    ensures markers == MarkersOf(cycles)
  {
    markers := [];
    for n := 0 to |cycles|
      invariant markers == MarkersOf(cycles[..n])
    {
      assert cycles[..n + 1][..n] == cycles[..n];
      var charge := cycles[n];
      markers := markers + [Marker(charge.startInstant, charge.startVoltage, StartPoint)];
      markers := markers + [Marker(charge.endInstant, charge.maxVoltage, PeakPoint)];
    }
    assert cycles[..|cycles|] == cycles;
  }

  /** The chart's data: the bars, the voltage line, the markers and the axis style. */
  datatype Chart = Chart(bars: seq<Bar>, voltage: seq<Sample>, markers: seq<Marker>, axis: Axis)

  /**
   * The combined chart: nothing when no ping entry parses; otherwise the
   * per-day counts of the parsed pings, the voltage series as given, the
   * markers of the cycles, and the axis chosen from the pings' span.
   */
  method CombinedChart(pingSeries: seq<Option<int>>, cycles: seq<Cycle>, voltage: seq<Sample>) returns (chart: Option<Chart>)
    ensures chart.None? <==> forall i :: 0 <= i < |pingSeries| ==> pingSeries[i].None?
    ensures chart.Some? ==> Total(chart.value.bars) == |pingSeries| - multiset(pingSeries)[None]
    ensures chart.Some? ==> Parsed(pingSeries) != [] && chart.value == Chart(
      PingCounts(PingDays(Parsed(pingSeries))), voltage, MarkersOf(cycles), AxisFor(Parsed(pingSeries)))
  {
    var pings := Parsed(pingSeries);
    if pings == [] {
      return None;
    }
    assert pings[0] in pings;
    var markers := ChargeMarkers(cycles);
    var bars := PingCounts(PingDays(pings));
    chart := Some(Chart(bars, voltage, markers, AxisFor(pings)));
  }
}
