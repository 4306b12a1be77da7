/**
 * The whole charge-cycle computation over one device's time-sorted series:
 * detection, merging, then formatting.
 */
module Engine {
  import opened Telemetry
  import opened Detection
  import opened Merging
  import opened Formatting

  /** The cycles reported for a series. */
  function ChargeCycles(samples: seq<Sample>, riseThreshold: int, window: nat): seq<Cycle>
    requires riseThreshold > 0
  {
    FormatEach(Merge(RawCharges(samples, window, riseThreshold)))
  }

  /**
   * Charge detection over a series already sorted by timestamp: the three
   * loops in turn, with an empty series answered by an empty list. The
   * threshold and the window default to 0.15 V and three samples.
   */
  method DetectCharges(samples: seq<Sample>, riseThreshold: int := DefaultRiseThreshold, window: nat := DefaultWindow)
    returns (cycles: seq<Cycle>)
    requires SortedByTime(samples)
    requires riseThreshold > 0
    ensures cycles == ChargeCycles(samples, riseThreshold, window)
    ensures |samples| <= window ==> cycles == []
  {
    if |samples| == 0 {
      return [];
    }
    var raw := DetectRaw(samples, riseThreshold, window);
    var merged := MergeNearby(raw);
    cycles := FormatAll(merged);
  }

  /** The raw candidates of a sorted series start in ascending order. */
  lemma RawStartsAscending(samples: seq<Sample>, window: nat, riseThreshold: int)
    requires SortedByTime(samples) && riseThreshold > 0
    ensures StartsAscending(RawCharges(samples, window, riseThreshold))
  {
    var hits := Scan(samples, window, riseThreshold, 0);
    var raw := RawCharges(samples, window, riseThreshold);
    forall i, j | 0 <= i < j < |raw| ensures raw[i].startTime <= raw[j].startTime {
      assert hits[i].start < hits[i].peak <= hits[j].start;
    }
  }

  /**
   * What the reported cycles promise as a list on a sorted series: no more
   * of them than raw candidates, consecutive ones more than an hour apart,
   * and every raw candidate inside one of them.
   */
  lemma ChargeCyclesFacts(samples: seq<Sample>, riseThreshold: int, window: nat)
    requires SortedByTime(samples) && riseThreshold > 0
    ensures |ChargeCycles(samples, riseThreshold, window)| <= |RawCharges(samples, window, riseThreshold)|
    ensures forall k :: 0 <= k < |ChargeCycles(samples, riseThreshold, window)| - 1 ==>
      ChargeCycles(samples, riseThreshold, window)[k + 1].startInstant
        - ChargeCycles(samples, riseThreshold, window)[k].endInstant > 3600
    ensures CoversAll(Merge(RawCharges(samples, window, riseThreshold)), RawCharges(samples, window, riseThreshold))
  {
    var raw := RawCharges(samples, window, riseThreshold);
    var merged := Merge(raw);
    var cycles := ChargeCycles(samples, riseThreshold, window);
    MergeSeparates(raw);
    RawStartsAscending(samples, window, riseThreshold);
    MergeCoversEveryCandidate(raw);
    forall k | 0 <= k < |cycles| - 1
      ensures cycles[k + 1].startInstant - cycles[k].endInstant > 3600
    {
      FormatTimes(merged[k]);
      FormatTimes(merged[k + 1]);
    }
  }

  /**
   * What each reported cycle promises on a sorted series: it runs
   * forwards, rises by at least the threshold, and has `days_offline`
   * replaced by the duration text exactly when it spans two days or more.
   */
  lemma ChargeCycleShape(samples: seq<Sample>, riseThreshold: int, window: nat)
    requires SortedByTime(samples) && riseThreshold > 0
    ensures forall k :: 0 <= k < |ChargeCycles(samples, riseThreshold, window)| ==>
      && ChargeCycles(samples, riseThreshold, window)[k].startInstant <= ChargeCycles(samples, riseThreshold, window)[k].endInstant
      && ChargeCycles(samples, riseThreshold, window)[k].maxVoltage - ChargeCycles(samples, riseThreshold, window)[k].startVoltage >= riseThreshold
      && (ChargeCycles(samples, riseThreshold, window)[k].daysOffline.Display?
          <==> ChargeCycles(samples, riseThreshold, window)[k].endInstant - ChargeCycles(samples, riseThreshold, window)[k].startInstant >= 2 * 86400)
  {
    var raw := RawCharges(samples, window, riseThreshold);
    var merged := Merge(raw);
    var cycles := ChargeCycles(samples, riseThreshold, window);
    RawChargesShape(samples, window, riseThreshold);
    MergeKeepsShape(raw, riseThreshold);
    forall k | 0 <= k < |cycles|
      ensures cycles[k].startInstant <= cycles[k].endInstant
      ensures cycles[k].maxVoltage - cycles[k].startVoltage >= riseThreshold
      ensures cycles[k].daysOffline.Display? <==> cycles[k].endInstant - cycles[k].startInstant >= 2 * 86400
    {
      assert WellShaped(merged[k], riseThreshold);
      FormatTimes(merged[k]);
      FormatFaithful(merged[k]);
    }
  }
}
