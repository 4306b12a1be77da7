/**
 * The rise detector: a cursor walks the time-sorted series, compares the
 * voltage at the cursor with the voltage `window` samples ahead, and on a
 * rise of at least the threshold emits a candidate running from the cursor
 * to the first peak of the window, then jumps to that peak.
 */
module Detection {
  import opened Telemetry

  /** A detection, by sample index: where the rise starts and where its window peaks. */
  datatype Hit = Hit(start: nat, peak: nat)

  /** The rise test at cursor `i`: the voltage `window` samples ahead exceeds it by at least the threshold. */
  predicate RiseAt(samples: seq<Sample>, window: nat, riseThreshold: int, i: nat)
    requires i + window < |samples|
  {
    samples[i + window].voltage - samples[i].voltage >= riseThreshold
  }

  /** The first index in `lo..hi` (inclusive) holding the highest voltage of that range. */
  function FirstMaxIndex(samples: seq<Sample>, lo: nat, hi: nat): (k: nat)
    requires lo <= hi < |samples|
    ensures lo <= k <= hi
    ensures forall j :: lo <= j <= hi ==> samples[j].voltage <= samples[k].voltage
    ensures forall j :: lo <= j < k ==> samples[j].voltage < samples[k].voltage
    decreases hi - lo
  {
    if lo == hi then lo
    else
      var k := FirstMaxIndex(samples, lo + 1, hi);
      if samples[lo].voltage >= samples[k].voltage then lo else k
  }

  /**
   * Where the cursor goes from `i`: to the window's first peak after a rise,
   * one sample on otherwise. A positive threshold makes it move strictly forward.
   */
  function NextCursor(samples: seq<Sample>, window: nat, riseThreshold: int, i: nat): (next: nat)
    requires i + window < |samples|
    ensures riseThreshold > 0 ==> i < next
    ensures next <= i + window || next == i + 1
  {
    if RiseAt(samples, window, riseThreshold, i) then FirstMaxIndex(samples, i, i + window) else i + 1
  }

  /** A detection the loop could emit: a rise at `start`, and `peak` the window's first maximum. */
  predicate ValidHit(samples: seq<Sample>, window: nat, riseThreshold: int, h: Hit) {
    && h.start + window < |samples|
    && RiseAt(samples, window, riseThreshold, h.start)
    && h.peak == FirstMaxIndex(samples, h.start, h.start + window)
  }

  /**
   * The detections made by the loop once its cursor stands at `i`, in
   * the order it makes them. Each starts at or after `i` and peaks strictly
   * after its start, within its window, and each starts no earlier than
   * the previous one's peak.
   */
  function Scan(samples: seq<Sample>, window: nat, riseThreshold: int, i: nat): (hits: seq<Hit>)
    requires riseThreshold > 0
    ensures forall k :: 0 <= k < |hits| ==> i <= hits[k].start
    ensures forall k :: 0 <= k < |hits| ==> hits[k].start < hits[k].peak <= hits[k].start + window < |samples|
    ensures forall k, l :: 0 <= k < l < |hits| ==> hits[k].peak <= hits[l].start
    decreases |samples| - i
  {
    if i + window >= |samples| then []
    else if RiseAt(samples, window, riseThreshold, i) then
      var p := NextCursor(samples, window, riseThreshold, i);
      [Hit(i, p)] + Scan(samples, window, riseThreshold, p)
    else
      Scan(samples, window, riseThreshold, i + 1)
  }

  /** Every detection is a rise whose peak is the first maximum of its window. */
  lemma {:induction false} ScanHitsValid(samples: seq<Sample>, window: nat, riseThreshold: int, i: nat)
    requires riseThreshold > 0
    ensures forall k :: 0 <= k < |Scan(samples, window, riseThreshold, i)| ==>
      ValidHit(samples, window, riseThreshold, Scan(samples, window, riseThreshold, i)[k])
    decreases |samples| - i
  {
    if i + window < |samples| {
      if RiseAt(samples, window, riseThreshold, i) {
        var p := NextCursor(samples, window, riseThreshold, i);
        var rest := Scan(samples, window, riseThreshold, p);
        ScanHitsValid(samples, window, riseThreshold, p);
        var hits := Scan(samples, window, riseThreshold, i);
        assert hits == [Hit(i, p)] + rest;
        forall k | 0 <= k < |hits| ensures ValidHit(samples, window, riseThreshold, hits[k]) {
          if k > 0 { assert hits[k] == rest[k - 1]; }
        }
      } else {
        ScanHitsValid(samples, window, riseThreshold, i + 1);
      }
    }
  }

  /** The candidate record the loop appends for a hit. */
  function CandidateAt(samples: seq<Sample>, h: Hit): Charge
    requires h.start < |samples| && h.peak < |samples|
  {
    MakeCharge(samples[h.start].time, samples[h.peak].time, samples[h.start].voltage, samples[h.peak].voltage)
  }

  function Candidates(samples: seq<Sample>, hits: seq<Hit>): (cs: seq<Charge>)
    requires forall k :: 0 <= k < |hits| ==> hits[k].start < |samples| && hits[k].peak < |samples|
    ensures |cs| == |hits|
    ensures forall k :: 0 <= k < |hits| ==> cs[k] == CandidateAt(samples, hits[k])
  {
    seq(|hits|, k requires 0 <= k < |hits| => CandidateAt(samples, hits[k]))
  }

  /** The voltage at each hit's peak exceeds the voltage at its start by at least the threshold. */
  lemma ValidHitsRise(samples: seq<Sample>, window: nat, riseThreshold: int, hits: seq<Hit>)
    requires forall k :: 0 <= k < |hits| ==> ValidHit(samples, window, riseThreshold, hits[k])
    ensures forall k :: 0 <= k < |hits| ==>
      && hits[k].start < |samples| && hits[k].peak < |samples|
      && samples[hits[k].peak].voltage - samples[hits[k].start].voltage >= riseThreshold
  {
    forall k | 0 <= k < |hits|
      ensures hits[k].start < |samples| && hits[k].peak < |samples|
      ensures samples[hits[k].peak].voltage - samples[hits[k].start].voltage >= riseThreshold
    {
      var h := hits[k];
      assert ValidHit(samples, window, riseThreshold, h);
      assert samples[h.start + window].voltage <= samples[h.peak].voltage;
    }
  }

  /**
   * The raw candidate list of a series, before merging: every candidate's
   * derived fields agree with its span and its maximum exceeds its start
   * voltage by at least the threshold; a series no longer than the window
   * has none.
   */
  function RawCharges(samples: seq<Sample>, window: nat, riseThreshold: int): (raw: seq<Charge>)
    requires riseThreshold > 0
    ensures forall k :: 0 <= k < |raw| ==>
      Consistent(raw[k]) && raw[k].maxVoltage - raw[k].startVoltage >= riseThreshold
    ensures |samples| <= window ==> raw == []
  {
    var hits := Scan(samples, window, riseThreshold, 0);
    ScanHitsValid(samples, window, riseThreshold, 0);
    ValidHitsRise(samples, window, riseThreshold, hits);
    Candidates(samples, hits)
  }

  /** The detection loop. */
  method DetectRaw(samples: seq<Sample>, riseThreshold: int, window: nat) returns (raw: seq<Charge>)
    requires riseThreshold > 0
    ensures raw == RawCharges(samples, window, riseThreshold)
    ensures |samples| <= window ==> raw == []
  {
    raw := [];
    var i: nat := 0;
    ghost var hits: seq<Hit> := [];
    while i + window < |samples|
      invariant i <= |samples|
      invariant forall k :: 0 <= k < |hits| ==> hits[k].start < |samples| && hits[k].peak < |samples|
      invariant Scan(samples, window, riseThreshold, 0) == hits + Scan(samples, window, riseThreshold, i)
      invariant |raw| == |hits|
      invariant forall k :: 0 <= k < |hits| ==> raw[k] == CandidateAt(samples, hits[k])
      decreases |samples| - i
    {
      var startVoltage := samples[i].voltage;
      var endVoltage := samples[i + window].voltage;
      if endVoltage - startVoltage >= riseThreshold {
        var maxIndex := FirstMaxIndex(samples, i, i + window);
        ghost var rest := Scan(samples, window, riseThreshold, maxIndex);
        assert Scan(samples, window, riseThreshold, i) == [Hit(i, maxIndex)] + rest;
        assert hits + ([Hit(i, maxIndex)] + rest) == (hits + [Hit(i, maxIndex)]) + rest;
        raw := raw + [MakeCharge(samples[i].time, samples[maxIndex].time, startVoltage, samples[maxIndex].voltage)];
        hits := hits + [Hit(i, maxIndex)];
        i := maxIndex;
      } else {
        assert Scan(samples, window, riseThreshold, i) == Scan(samples, window, riseThreshold, i + 1);
        i := i + 1;
      }
    }
  }

  /**
   * A cursor position the loop jumps over: strictly inside some hit's
   * start..peak span. The loop never tests these positions.
   */
  predicate Skipped(hits: seq<Hit>, j: nat) {
    exists k :: 0 <= k < |hits| && hits[k].start < j < hits[k].peak
  }

  /** Some detection starts at position `j`. */
  predicate StartsAt(hits: seq<Hit>, j: nat) {
    exists k :: 0 <= k < |hits| && hits[k].start == j
  }

  /**
   * The loop emits a candidate at exactly the positions it visits where the
   * rise test holds: for every position from the cursor on that is not
   * jumped over, a hit starts there if and only if the rise there reaches
   * the threshold (a rise of exactly the threshold included).
   */
  lemma {:induction false} ScanEmitsExactlyAtRises(samples: seq<Sample>, window: nat, riseThreshold: int, i: nat, j: nat)
    requires riseThreshold > 0
    requires i <= j && j + window < |samples|
    requires !Skipped(Scan(samples, window, riseThreshold, i), j)
    ensures StartsAt(Scan(samples, window, riseThreshold, i), j) <==> RiseAt(samples, window, riseThreshold, j)
    decreases |samples| - i
  {
    var hits := Scan(samples, window, riseThreshold, i);
    if RiseAt(samples, window, riseThreshold, i) {
      var p := NextCursor(samples, window, riseThreshold, i);
      var rest := Scan(samples, window, riseThreshold, p);
      assert hits == [Hit(i, p)] + rest;
      if j == i {
        assert hits[0].start == j;
      } else {
        assert p <= j;
        SkippedCons(Hit(i, p), rest, j);
        ScanEmitsExactlyAtRises(samples, window, riseThreshold, p, j);
        StartsAtCons(Hit(i, p), rest, j);
      }
    } else {
      if j != i {
        ScanEmitsExactlyAtRises(samples, window, riseThreshold, i + 1, j);
      }
    }
  }

  /** A position not jumped over by a list of hits is not jumped over by its tail. */
  lemma SkippedCons(h: Hit, rest: seq<Hit>, j: nat)
    ensures Skipped(rest, j) ==> Skipped([h] + rest, j)
  {
    if Skipped(rest, j) {
      var k :| 0 <= k < |rest| && rest[k].start < j < rest[k].peak;
      assert ([h] + rest)[k + 1] == rest[k];
    }
  }

  /** Past a head that does not start at `j`, a hit starts at `j` exactly when one in the tail does. */
  lemma StartsAtCons(h: Hit, rest: seq<Hit>, j: nat)
    requires h.start != j
    ensures StartsAt([h] + rest, j) <==> StartsAt(rest, j)
  {
    var hits := [h] + rest;
    if StartsAt(rest, j) {
      var k :| 0 <= k < |rest| && rest[k].start == j;
      assert hits[k + 1].start == j;
    }
    if StartsAt(hits, j) {
      var k :| 0 <= k < |hits| && hits[k].start == j;
      assert rest[k - 1].start == j;
    }
  }

  /**
   * With a threshold of zero or less the loop can stall: on a window of
   * equal voltages the rise test holds and the first peak is the cursor
   * itself, so the cursor stays where it is and the loop never ends.
   */
  lemma FlatWindowStallsWithoutPositiveThreshold(samples: seq<Sample>, window: nat, riseThreshold: int, i: nat)
    requires riseThreshold <= 0 && i + window < |samples|
    requires forall j :: i <= j <= i + window ==> samples[j].voltage == samples[i].voltage
    ensures NextCursor(samples, window, riseThreshold, i) == i
  {
  }

  /**
   * What every raw candidate satisfies: its derived fields agree with its
   * span, it rises by at least the threshold, its maximum is the highest
   * voltage of its window, and on a time-sorted series its span does not
   * run backwards and each candidate ends no later than the next one starts.
   */
  lemma RawChargesShape(samples: seq<Sample>, window: nat, riseThreshold: int)
    requires riseThreshold > 0
    ensures var hits := Scan(samples, window, riseThreshold, 0);
      var raw := RawCharges(samples, window, riseThreshold);
      forall k :: 0 <= k < |raw| ==>
        && Consistent(raw[k])
        && raw[k].maxVoltage - raw[k].startVoltage >= riseThreshold
        && raw[k].startTime == samples[hits[k].start].time
        && raw[k].endTime == samples[hits[k].peak].time
        && (forall j :: hits[k].start <= j <= hits[k].start + window ==> samples[j].voltage <= raw[k].maxVoltage)
    ensures SortedByTime(samples) ==> forall k :: 0 <= k < |RawCharges(samples, window, riseThreshold)| ==>
      WellShaped(RawCharges(samples, window, riseThreshold)[k], riseThreshold)
    ensures SortedByTime(samples) ==> var raw := RawCharges(samples, window, riseThreshold);
      forall k :: 0 <= k < |raw| - 1 ==> raw[k].endTime <= raw[k + 1].startTime
  {
    ScanHitsValid(samples, window, riseThreshold, 0);
  }
}
