/** Percentages and absolute thresholds of node utilization. Percentages are exact
    rationals; the program uses 64-bit floats. */
module Thresholds {
  import opened Utilization

  type Percentages = map<string, real>

  function At(p: Percentages, r: string): real {
    if r in p then p[r] else 0.0
  }

  // ------------------------------------------------- one resource on one node

  function Percent(used: int, capacity: int): real {
    if capacity > 0 then used as real / capacity as real * 100.0 else 0.0
  }

  /** Conversion to an integer drops the fraction. */
  function Truncate(x: real): int {
    if x >= 0.0 then x.Floor else -((-x).Floor)
  }

  function Fraction(threshold: real, capacity: int): int {
    Truncate(threshold * 0.01 * capacity as real)
  }

  lemma PercentScales(used: int, capacity: int, t: real)
    requires capacity > 0
    ensures Percent(used, capacity) > t <==> used as real > t * 0.01 * capacity as real
  {
    var u, c := used as real, capacity as real;
    var q := u / c;
    assert q * c == u;
    if q * 100.0 > t {
      assert (q - t * 0.01) * c > 0.0;
    } else {
      assert (t * 0.01 - q) * c >= 0.0;
    }
  }

  lemma FractionIsNonNegative(threshold: real, capacity: int)
    requires threshold >= 0.0 && capacity >= 0
    ensures threshold * 0.01 * capacity as real >= 0.0 && Fraction(threshold, capacity) >= 0
  {
    assert threshold * 0.01 >= 0.0;
  }

  /** The percentage test and the truncated absolute test agree exactly when the node has
      some of the resource, or uses none of it. */
  lemma PercentAndFractionAgree(used: int, capacity: int, t: real)
    requires t >= 0.0 && capacity >= 0
    ensures (Percent(used, capacity) > t <==> used > Fraction(t, capacity)) <==> (capacity > 0 || used <= 0)
  {
    FractionIsNonNegative(t, capacity);
    if capacity > 0 {
      PercentScales(used, capacity, t);
    }
  }

  lemma FractionIsMonotone(low: real, high: real, capacity: int)
    requires 0.0 <= low <= high && capacity >= 0
    ensures Fraction(low, capacity) <= Fraction(high, capacity)
  {
    FractionIsNonNegative(low, capacity);
    FractionIsNonNegative(high, capacity);
    assert (high - low) * 0.01 * capacity as real >= 0.0 by {
      FractionIsNonNegative(high - low, capacity);
    }
  }

  // ------------------------------------------------- a whole node

  /** `ResourceUsageToResourceThreshold`. */
  function ToPercentages(usage: Quantities, capacity: Quantities): Percentages {
    map r | r in usage && r in capacity :: Percent(usage[r], capacity[r])
  }

  predicate IsNodeAboveThreshold(usage: Percentages, threshold: Percentages) {
    exists r :: r in threshold && threshold[r] < At(usage, r)
  }

  predicate IsNodeBelowThreshold(usage: Percentages, threshold: Percentages) {
    forall r :: r in threshold ==> !(threshold[r] < At(usage, r))
  }

  /** `capNodeCapacitiesToThreshold`. */
  function CapToThreshold(capacity: Quantities, threshold: Percentages, names: set<string>): Quantities {
    map r | r in names ::
      if r !in capacity then 0
      else if r !in threshold then capacity[r]
      else Fraction(threshold[r], capacity[r])
  }

  /** A resource without a threshold is capped at the node's capacity, just as with a threshold of
      100 percent. */
  lemma NoThresholdIsFull(capacity: Quantities, threshold: Percentages, names: set<string>, r: string)
    requires r in names && r in capacity && r !in threshold
    ensures CapToThreshold(capacity, threshold, names)[r] == capacity[r]
    ensures CapToThreshold(capacity, threshold[r := 100.0], names)[r] == capacity[r]
  {
    assert 100.0 * 0.01 * capacity[r] as real == capacity[r] as real;
  }

  ghost predicate Sane(capacity: Quantities, threshold: Percentages) {
    && (forall r :: r in capacity ==> capacity[r] >= 0)
    && (forall r :: r in threshold ==> threshold[r] >= 0.0)
  }

  /** Every overutilized node passes the absolute test that the eviction loop starts with. */
  lemma OverutilizedIsAboveTarget(usage: Quantities, capacity: Quantities, high: Percentages)
    requires Sane(capacity, high)
    requires IsNodeAboveThreshold(ToPercentages(usage, capacity), high)
    ensures AboveTarget(usage, CapToThreshold(capacity, high, usage.Keys))
  {
    var r :| r in high && high[r] < At(ToPercentages(usage, capacity), r);
    PercentAndFractionAgree(usage[r], capacity[r], high[r]);
    assert CapToThreshold(capacity, high, usage.Keys)[r] < usage[r];
  }

  /** An underutilized node adds non-negative headroom in a thresholded resource exactly when
      it has some of that resource or uses none of it. */
  lemma UnderutilizedHeadroom(usage: Quantities, capacity: Quantities, low: Percentages, high: Percentages, r: string)
    requires Sane(capacity, low) && Sane(capacity, high)
    requires r in low && r in high && low[r] <= high[r] && r in usage && usage[r] >= 0
    requires IsNodeBelowThreshold(ToPercentages(usage, capacity), low)
    ensures CapToThreshold(capacity, high, usage.Keys)[r] - usage[r] >= 0
            <==> (r in capacity && capacity[r] > 0) || usage[r] == 0
  {
    if r in capacity {
      PercentAndFractionAgree(usage[r], capacity[r], low[r]);
      FractionIsMonotone(low[r], high[r], capacity[r]);
      if capacity[r] == 0 {
        assert Fraction(high[r], 0) == 0;
      }
    }
  }
}
