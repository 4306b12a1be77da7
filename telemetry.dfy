/**
 * The data model shared by the charge-cycle engine: telemetry samples and
 * charge records, with instants as zone-naive whole seconds and battery
 * voltages as whole millivolts.
 */
module Telemetry {

  datatype Option<T> = None | Some(value: T)

  /** One row of a device's telemetry after import: when it was taken and the battery voltage. */
  datatype Sample = Sample(time: int, voltage: int)

  const SecondsPerDay := 86400

  /** A cycle at least this long (two days) is flagged as a long offline period. */
  const LongOfflineSeconds := 2 * SecondsPerDay

  /** The default parameters of the detector: 0.15 V over a look-ahead of 3 samples. */
  const DefaultRiseThreshold := 150
  const DefaultWindow := 3

  /** The series the detector scans: ascending by timestamp, as after sorting. */
  predicate SortedByTime(samples: seq<Sample>) {
    forall i, j :: 0 <= i <= j < |samples| ==> samples[i].time <= samples[j].time
  }

  /** The calendar day of an instant, as a day number (midnight-normalised). */
  function Day(t: int): int {
    t / SecondsPerDay
  }

  /** The heuristic that reads an unusually long charge span as an offline gap. */
  predicate IsAnomalouslyLongCycle(duration: int) {
    duration >= LongOfflineSeconds
  }

  /**
   * A charge record as the detector emits it and the merger consolidates it:
   * the span, the voltage at its start and the highest voltage reached, and
   * the two fields derived from the span (its length and the long-offline flag).
   */
  datatype Charge = Charge(
    startTime: int,
    endTime: int,
    startVoltage: int,
    maxVoltage: int,
    duration: int,
    isLongOffline: bool)

  /** The derived fields agree with the span. */
  predicate Consistent(c: Charge) {
    c.duration == c.endTime - c.startTime && c.isLongOffline == IsAnomalouslyLongCycle(c.duration)
  }

  /** A charge record with its duration and long-offline flag computed from its span. */
  function MakeCharge(startTime: int, endTime: int, startVoltage: int, maxVoltage: int): (c: Charge)
    ensures Consistent(c)
    ensures c.startTime == startTime && c.endTime == endTime
    ensures c.startVoltage == startVoltage && c.maxVoltage == maxVoltage
    ensures c.isLongOffline <==> endTime - startTime >= 2 * 86400
  {
    var duration := endTime - startTime;
    Charge(startTime, endTime, startVoltage, maxVoltage, duration, IsAnomalouslyLongCycle(duration))
  }

  /**
   * What every detected and every merged cycle satisfies: consistent derived
   * fields, a span that does not run backwards, and a rise of at least the threshold.
   */
  predicate WellShaped(c: Charge, riseThreshold: int) {
    Consistent(c) && c.startTime <= c.endTime && c.maxVoltage - c.startVoltage >= riseThreshold
  }

  function Max(a: int, b: int): int { if a >= b then a else b }

  function Min(a: int, b: int): int { if a <= b then a else b }
}
