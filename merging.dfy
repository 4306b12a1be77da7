/**
 * The interval merger: a fold over the raw candidates that folds a
 * candidate starting at most an hour after the last cycle's end into that
 * cycle and opens a new cycle otherwise, recomputing the derived fields of
 * every cycle it widens.
 */
module Merging {
  import opened Telemetry

  /** Candidates at most this far apart (sixty minutes) belong to one cycle. */
  const MergeGapSeconds := 60 * 60

  /** Whether candidate `c` joins the cycle `last`: it starts at most an hour after `last` ends. */
  predicate Joins(last: Charge, c: Charge) {
    c.startTime - last.endTime <= MergeGapSeconds
  }

  /**
   * The cycle `last` widened by `c`: it keeps its start time, ends at the
   * later of the two ends, keeps the lower start voltage and the higher
   * maximum, and its duration and long-offline flag are recomputed.
   */
  function Absorb(last: Charge, c: Charge): (m: Charge)
    ensures Consistent(m)
    ensures m.startTime == last.startTime
    ensures m.endTime >= last.endTime && m.endTime >= c.endTime && (m.endTime == last.endTime || m.endTime == c.endTime)
    ensures m.startVoltage <= last.startVoltage && m.startVoltage <= c.startVoltage
    ensures m.startVoltage == last.startVoltage || m.startVoltage == c.startVoltage
    ensures m.maxVoltage >= last.maxVoltage && m.maxVoltage >= c.maxVoltage
    ensures m.maxVoltage == last.maxVoltage || m.maxVoltage == c.maxVoltage
  {
    MakeCharge(last.startTime, Max(last.endTime, c.endTime), Min(last.startVoltage, c.startVoltage), Max(last.maxVoltage, c.maxVoltage))
  }

  /**
   * One step of the fold: merge `c` into the last cycle of `acc` when it
   * joins it, or append it. The list grows by one exactly when `c` does not
   * join; every cycle keeps its start time and every cycle but the last is
   * untouched; and the last cycle reaches at least to the end of `c` and
   * spans at least its voltage range.
   */
  function MergeStep(acc: seq<Charge>, c: Charge): (r: seq<Charge>)
    ensures |r| == if acc != [] && Joins(acc[|acc| - 1], c) then |acc| else |acc| + 1
    ensures forall k :: 0 <= k < |acc| - 1 ==> r[k] == acc[k]
    ensures forall k :: 0 <= k < |acc| ==> r[k].startTime == acc[k].startTime
    ensures r[|r| - 1].endTime >= c.endTime
    ensures r[|r| - 1].startVoltage <= c.startVoltage && r[|r| - 1].maxVoltage >= c.maxVoltage
  {
    if acc == [] then [c]
    else if Joins(acc[|acc| - 1], c) then acc[..|acc| - 1] + [Absorb(acc[|acc| - 1], c)]
    else acc + [c]
  }

  /**
   * The consolidated cycles of a list of raw candidates. Merging never
   * lengthens the list, turns an empty list into an empty list and a
   * non-empty one into a non-empty one, and keeps the first candidate's
   * start time.
   */
  function Merge(raw: seq<Charge>): (merged: seq<Charge>)
    ensures |merged| <= |raw|
    ensures |merged| == 0 <==> raw == []
    ensures raw != [] ==> merged[0].startTime == raw[0].startTime
    decreases |raw|
  {
    if raw == [] then [] else MergeStep(Merge(raw[..|raw| - 1]), raw[|raw| - 1])
  }

  /** The merge loop, over the candidates in order, updating the last cycle in place. */
  method MergeNearby(raw: seq<Charge>) returns (merged: seq<Charge>)
    ensures merged == Merge(raw)
  {
    merged := [];
    for n := 0 to |raw|
      invariant merged == Merge(raw[..n])
    {
      assert raw[..n + 1][..n] == raw[..n];
      var charge := raw[n];
      if merged == [] {
        merged := merged + [charge];
      } else {
        var last := merged[|merged| - 1];
        if charge.startTime - last.endTime <= MergeGapSeconds {
          merged := merged[|merged| - 1 := Absorb(last, charge)];
        } else {
          merged := merged + [charge];
        }
      }
    }
    assert raw[..|raw|] == raw;
  }

  /** Consecutive cycles lie more than an hour apart. */
  predicate Separated(cycles: seq<Charge>) {
    forall k :: 0 <= k < |cycles| - 1 ==> cycles[k + 1].startTime - cycles[k].endTime > MergeGapSeconds
  }

  /** The raw candidates come with non-decreasing start times. */
  predicate StartsAscending(cs: seq<Charge>) {
    forall i, j :: 0 <= i < j < |cs| ==> cs[i].startTime <= cs[j].startTime
  }

  /** Cycle `m` contains candidate `c`: its span and its voltage range. */
  predicate Covers(m: Charge, c: Charge) {
    m.startTime <= c.startTime && c.endTime <= m.endTime
    && m.startVoltage <= c.startVoltage && c.maxVoltage <= m.maxVoltage
  }

  /** Candidate `c` lies within some cycle of `merged`. */
  predicate CoveredBy(merged: seq<Charge>, c: Charge) {
    exists k :: 0 <= k < |merged| && Covers(merged[k], c)
  }

  /** Every candidate of `raw` lies within some cycle of `merged`. */
  predicate CoversAll(merged: seq<Charge>, raw: seq<Charge>) {
    forall j :: 0 <= j < |raw| ==> CoveredBy(merged, raw[j])
  }

  /** The merged cycles are more than an hour apart. */
  lemma {:induction false} MergeSeparates(raw: seq<Charge>)
    ensures Separated(Merge(raw))
  {
    if raw != [] {
      var acc := Merge(raw[..|raw| - 1]);
      MergeSeparates(raw[..|raw| - 1]);
      var c := raw[|raw| - 1];
      var m := Merge(raw);
      if acc != [] {
        if Joins(acc[|acc| - 1], c) {
          forall k | 0 <= k < |m| - 1
            ensures m[k + 1].startTime - m[k].endTime > MergeGapSeconds
          {
            assert m[k] == acc[k];
            assert m[k + 1].startTime == acc[k + 1].startTime;
          }
        } else {
          forall k | 0 <= k < |m| - 1
            ensures m[k + 1].startTime - m[k].endTime > MergeGapSeconds
          {
            assert m[k] == acc[k];
          }
        }
      }
    }
  }

  /**
   * Merging keeps the shape of every cycle: if every candidate has
   * consistent derived fields, a forward span and a rise of at least the
   * threshold, so has every merged cycle.
   */
  lemma {:induction false} MergeKeepsShape(raw: seq<Charge>, riseThreshold: int)
    requires forall k :: 0 <= k < |raw| ==> WellShaped(raw[k], riseThreshold)
    ensures forall k :: 0 <= k < |Merge(raw)| ==> WellShaped(Merge(raw)[k], riseThreshold)
  {
    if raw != [] {
      var acc := Merge(raw[..|raw| - 1]);
      MergeKeepsShape(raw[..|raw| - 1], riseThreshold);
      var c := raw[|raw| - 1];
      assert WellShaped(c, riseThreshold);
      var m := Merge(raw);
      forall k | 0 <= k < |m| ensures WellShaped(m[k], riseThreshold) {
        if k < |acc| - 1 || (k == |acc| - 1 && !(acc != [] && Joins(acc[|acc| - 1], c))) {
          assert m[k] == acc[k];
        }
      }
    }
  }

  /**
   * A merged cycle starts no later than any bound on the candidates'
   * start times: the merger never moves a start later.
   */
  lemma {:induction false} MergeStartsBounded(raw: seq<Charge>, bound: int)
    requires forall j :: 0 <= j < |raw| ==> raw[j].startTime <= bound
    ensures forall k :: 0 <= k < |Merge(raw)| ==> Merge(raw)[k].startTime <= bound
  {
    if raw == [] {
      assert Merge(raw) == [];
    } else {
      var prefix := raw[..|raw| - 1];
      var acc := Merge(prefix);
      MergeStartsBounded(prefix, bound);
      var c := raw[|raw| - 1];
      var m := Merge(raw);
      forall k | 0 <= k < |m| ensures m[k].startTime <= bound {
        if k < |acc| {
          assert m[k].startTime == acc[k].startTime;
        } else {
          assert m[k] == c;
        }
      }
    }
  }

  /**
   * One merge step keeps every earlier candidate covered and covers the
   * new one, provided the new candidate starts no earlier than any cycle.
   */
  lemma MergeStepCovers(acc: seq<Charge>, seen: seq<Charge>, c: Charge)
    requires CoversAll(acc, seen)
    requires forall k :: 0 <= k < |acc| ==> acc[k].startTime <= c.startTime
    ensures CoversAll(MergeStep(acc, c), seen + [c])
  {
    var m := MergeStep(acc, c);
    var all := seen + [c];
    forall j | 0 <= j < |all| ensures CoveredBy(m, all[j]) {
      if j == |seen| {
        assert Covers(m[|m| - 1], c);
      } else {
        assert all[j] == seen[j];
        assert CoveredBy(acc, seen[j]);
        var k :| 0 <= k < |acc| && Covers(acc[k], seen[j]);
        if k == |acc| - 1 && Joins(acc[|acc| - 1], c) {
          assert Covers(m[k], seen[j]);
        } else {
          assert m[k] == acc[k];
        }
      }
    }
  }

  /**
   * No candidate is lost: when the candidates start in ascending order,
   * every candidate lies within some merged cycle, both its span and its
   * voltage range.
   */
  lemma {:induction false} MergeCoversEveryCandidate(raw: seq<Charge>)
    requires StartsAscending(raw)
    ensures CoversAll(Merge(raw), raw)
  {
    if raw == [] {
      assert Merge(raw) == [];
    } else {
      var prefix := raw[..|raw| - 1];
      var c := raw[|raw| - 1];
      assert StartsAscending(prefix);
      MergeCoversEveryCandidate(prefix);
      MergeStartsBounded(prefix, c.startTime);
      var acc := Merge(prefix);
      MergeStepCovers(acc, prefix, c);
      assert prefix + [c] == raw;
    }
  }

  /** A list of cycles already more than an hour apart is left as it is. */
  lemma {:induction false} MergeOfSeparatedIsIdentity(cycles: seq<Charge>)
    requires Separated(cycles)
    ensures Merge(cycles) == cycles
  {
    if cycles != [] {
      var prefix := cycles[..|cycles| - 1];
      assert Separated(prefix) by {
        forall k | 0 <= k < |prefix| - 1
          ensures prefix[k + 1].startTime - prefix[k].endTime > MergeGapSeconds
        {
          assert prefix[k] == cycles[k] && prefix[k + 1] == cycles[k + 1];
        }
      }
      MergeOfSeparatedIsIdentity(prefix);
      if prefix != [] {
        assert prefix[|prefix| - 1] == cycles[|cycles| - 2];
      }
      assert prefix + [cycles[|cycles| - 1]] == cycles;
    }
  }

  /** Running the merger again on its own output changes nothing. */
  lemma MergeIdempotent(raw: seq<Charge>)
    ensures Merge(Merge(raw)) == Merge(raw)
  {
    MergeSeparates(raw);
    MergeOfSeparatedIsIdentity(Merge(raw));
  }
}
