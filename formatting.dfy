/**
 * The presentation fields of a consolidated cycle: the start day, the start
 * and end clock times in 12-hour form, the duration as
 * "{days} days {hours} hrs {minutes} mins", and the dual-use
 * `days_offline` field, overwritten with the duration text only for cycles
 * flagged as long offline periods.
 */
module Formatting {
  import opened Telemetry
  import opened Text

  /** A duration broken into whole days, hours and minutes. */
  datatype Span = Span(days: int, hours: int, minutes: int)

  /**
   * The decomposition of a number of seconds by floor division and
   * remainder: the whole days, then the hours and minutes left over, with
   * fewer than sixty seconds unaccounted for.
   */
  function Decompose(totalSeconds: int): (sp: Span)
    ensures 0 <= sp.hours < 24 && 0 <= sp.minutes < 60
    ensures sp.days * 86400 + sp.hours * 3600 + sp.minutes * 60 <= totalSeconds
    ensures totalSeconds < sp.days * 86400 + sp.hours * 3600 + sp.minutes * 60 + 60
  {
    var days := totalSeconds / 86400;
    var hours := (totalSeconds % 86400) / 3600;
    var minutes := (totalSeconds % 3600) / 60;
    assert totalSeconds % 86400 == hours * 3600 + totalSeconds % 3600 by {
      var r := totalSeconds % 86400;
      assert totalSeconds == days * 86400 + r;
      assert totalSeconds == (days * 24 + r / 3600) * 3600 + r % 3600;
    }
    Span(days, hours, minutes)
  }

  /** The six words of a span's text: each count followed by its unit. */
  function SpanWords(sp: Span): seq<string> {
    [IntText(sp.days), "days", IntText(sp.hours), "hrs", IntText(sp.minutes), "mins"]
  }

  /** A span as `{days} days {hours} hrs {minutes} mins`. */
  function SpanText(sp: Span): string {
    Joined(SpanWords(sp))
  }

  /** The duration text of a number of seconds. */
  function DurationText(totalSeconds: int): string {
    SpanText(Decompose(totalSeconds))
  }

  /** Reads a duration text back into its days, hours and minutes. */
  function ParseDuration(s: string): Option<Span> {
    var f := Split(s);
    if |f| == 6 && f[1] == "days" && f[3] == "hrs" && f[5] == "mins"
       && IsIntText(f[0]) && IsIntText(f[2]) && IsIntText(f[4])
    then Some(Span(ParseInt(f[0]), ParseInt(f[2]), ParseInt(f[4])))
    else None
  }

  /** The text of a span splits into its six words. */
  lemma SpanTextWords(sp: Span)
    ensures Split(SpanText(sp)) == SpanWords(sp)
  {
    IntTextHasNoSpace(sp.days);
    IntTextHasNoSpace(sp.hours);
    IntTextHasNoSpace(sp.minutes);
    SplitJoined(SpanWords(sp));
  }

  /** A span's text reads back to the span. */
  lemma SpanTextRoundTrip(sp: Span)
    ensures ParseDuration(SpanText(sp)) == Some(sp)
  {
    SpanTextWords(sp);
    IntTextRoundTrip(sp.days);
    IntTextRoundTrip(sp.hours);
    IntTextRoundTrip(sp.minutes);
  }

  /** The duration text carries exactly the decomposition of the duration. */
  lemma DurationTextRoundTrip(totalSeconds: int)
    ensures ParseDuration(DurationText(totalSeconds)) == Some(Decompose(totalSeconds))
  {
    SpanTextRoundTrip(Decompose(totalSeconds));
  }

  /** A time of day. */
  datatype ClockTime = ClockTime(hour: int, minute: int, second: int)

  /** The time of day of an instant, on the zone-naive clock. */
  function TimeOfDay(t: int): (c: ClockTime)
    ensures 0 <= c.hour < 24 && 0 <= c.minute < 60 && 0 <= c.second < 60
    ensures c.hour * 3600 + c.minute * 60 + c.second == t % SecondsPerDay
  {
    var s := t % SecondsPerDay;
    ClockTime(s / 3600, (s % 3600) / 60, s % 60)
  }

  /** A number below one hundred as two digits, zero-padded. */
  function TwoDigits(n: nat): (s: string)
    requires n < 100
    ensures |s| == 2 && AllDigits(s)
  {
    [DigitChar(n / 10), DigitChar(n % 10)]
  }

  function TwoDigitValue(s: string): nat
    requires |s| == 2 && AllDigits(s)
  {
    10 * DigitValue(s[0]) + DigitValue(s[1])
  }

  lemma TwoDigitsRoundTrip(n: nat)
    requires n < 100
    ensures TwoDigitValue(TwoDigits(n)) == n
  {
    DigitRoundTrip(n / 10);
    DigitRoundTrip(n % 10);
  }

  /** The hour on a 12-hour clock: midnight and noon read 12. */
  function Hour12(hour: int): (h: int)
    requires 0 <= hour < 24
    ensures 1 <= h <= 12
    ensures h % 12 == hour % 12
  {
    if hour % 12 == 0 then 12 else hour % 12
  }

  /** An instant's clock time in the form `%I:%M:%S %p`, for example "07:05:09 PM". */
  function ClockText(t: int): (s: string)
    ensures |s| == 11
  {
    var c := TimeOfDay(t);
    TwoDigits(Hour12(c.hour)) + ":" + TwoDigits(c.minute) + ":" + TwoDigits(c.second) + " "
      + (if c.hour < 12 then "AM" else "PM")
  }

  /** Reads a `%I:%M:%S %p` text back into a 24-hour time of day. */
  function ParseClock(s: string): Option<ClockTime> {
    if |s| == 11 && s[2] == ':' && s[5] == ':' && s[8] == ' ' && (s[9] == 'A' || s[9] == 'P') && s[10] == 'M'
       && AllDigits(s[0..2]) && AllDigits(s[3..5]) && AllDigits(s[6..8])
       && 1 <= TwoDigitValue(s[0..2]) <= 12
    then
      var h12 := TwoDigitValue(s[0..2]);
      var hour := h12 % 12 + (if s[9] == 'P' then 12 else 0);
      Some(ClockTime(hour, TwoDigitValue(s[3..5]), TwoDigitValue(s[6..8])))
    else None
  }

  /**
   * The clock text carries exactly the time of day of the instant, its
   * hour written in 01..12.
   */
  lemma ClockTextRoundTrip(t: int)
    ensures ParseClock(ClockText(t)) == Some(TimeOfDay(t))
  {
    var c := TimeOfDay(t);
    var s := ClockText(t);
    var hh, mm, ss := TwoDigits(Hour12(c.hour)), TwoDigits(c.minute), TwoDigits(c.second);
    TwoDigitsRoundTrip(Hour12(c.hour));
    TwoDigitsRoundTrip(c.minute);
    TwoDigitsRoundTrip(c.second);
    assert s[0..2] == hh && s[3..5] == mm && s[6..8] == ss;
  }

  /**
   * The `days_offline` field: before formatting, the duration in days (held
   * as the number of seconds to divide by a day); after formatting a long
   * offline cycle, the duration text.
   */
  datatype DaysOffline = DaysOf(seconds: int) | Display(text: string)

  /** A consolidated cycle with its presentation fields. */
  datatype Cycle = Cycle(
    startInstant: int,
    endInstant: int,
    date: int,
    startTime: string,
    endTime: string,
    startVoltage: int,
    maxVoltage: int,
    duration: string,
    isLongOffline: bool,
    daysOffline: DaysOffline)

  /** The formatting of one cycle, as the formatting loop's body does it. */
  function Format(c: Charge): Cycle {
    var text := DurationText(c.duration);
    Cycle(
      c.startTime, c.endTime, Day(c.startTime),
      ClockText(c.startTime), ClockText(c.endTime),
      c.startVoltage, c.maxVoltage,
      text, c.isLongOffline,
      if c.isLongOffline then Display(text) else DaysOf(c.duration))
  }

  /**
   * A formatted cycle keeps the instants and voltages of the cycle it came
   * from, its date is the start's day, and its two clock texts read back to
   * the exact times of day of the start and the end.
   */
  lemma FormatTimes(c: Charge)
    ensures Format(c).startInstant == c.startTime && Format(c).endInstant == c.endTime
    ensures Format(c).startVoltage == c.startVoltage && Format(c).maxVoltage == c.maxVoltage
    ensures Format(c).date == c.startTime / 86400
    ensures ParseClock(Format(c).startTime) == Some(TimeOfDay(c.startTime))
    ensures ParseClock(Format(c).endTime) == Some(TimeOfDay(c.endTime))
  {
    var f := Format(c);
    assert f.startTime == ClockText(c.startTime) && f.endTime == ClockText(c.endTime);
    ClockTextRoundTrip(c.startTime);
    ClockTextRoundTrip(c.endTime);
  }

  /**
   * On a record whose derived fields agree with its span, the formatted
   * duration reads back to the span's days, hours and minutes, and
   * `days_offline` holds the duration text exactly when the cycle is
   * flagged long offline, that is when it spans at least two days, and the
   * span in seconds otherwise.
   */
  lemma FormatFaithful(c: Charge)
    requires Consistent(c)
    ensures ParseDuration(Format(c).duration) == Some(Decompose(c.endTime - c.startTime))
    ensures Format(c).daysOffline.Display? <==> c.endTime - c.startTime >= 2 * 86400
    ensures Format(c).daysOffline.Display? ==> Format(c).daysOffline.text == Format(c).duration
    ensures Format(c).daysOffline.DaysOf? ==> Format(c).daysOffline.seconds == c.endTime - c.startTime
  {
    assert Format(c).duration == DurationText(c.duration);
    DurationTextRoundTrip(c.duration);
  }

  /** The formatted list, in merge order. */
  function FormatEach(cs: seq<Charge>): (out: seq<Cycle>)
    ensures |out| == |cs|
    ensures forall k :: 0 <= k < |cs| ==> out[k] == Format(cs[k])
  {
    seq(|cs|, k requires 0 <= k < |cs| => Format(cs[k]))
  }

  /** The formatting loop: each cycle's presentation fields, in order. */
  method FormatAll(merged: seq<Charge>) returns (cycles: seq<Cycle>)
    ensures cycles == FormatEach(merged)
  {
    cycles := [];
    for n := 0 to |merged|
      invariant |cycles| == n
      invariant forall k :: 0 <= k < n ==> cycles[k] == Format(merged[k])
    {
      var charge := merged[n];
      var text := DurationText(charge.duration);
      var daysOffline := if charge.isLongOffline then Display(text) else DaysOf(charge.duration);
      cycles := cycles + [Cycle(
        charge.startTime, charge.endTime, Day(charge.startTime),
        ClockText(charge.startTime), ClockText(charge.endTime),
        charge.startVoltage, charge.maxVoltage, text, charge.isLongOffline, daysOffline)];
    }
  }
}
