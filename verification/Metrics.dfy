/** The smoothed node metrics: a rounded weighted average, applied at every collection. The
    weights are the exact 9/10 and 1/10; the program uses 64-bit floats. */
module Metrics {
  import opened Common

  const BETA: real := 0.9

  /** Rounds half away from zero. */
  function Round(x: real): int {
    if x >= 0.0 then (x + 0.5).Floor else -((0.5 - x).Floor)
  }

  function WeightedAverage(prev: int, value: int): int {
    Round(BETA * prev as real + (1.0 - BETA) * value as real)
  }

  function Abs(x: int): nat { if x < 0 then -x else x }

  /** One step: the average is the tenth of nine times the previous value and once the reading,
      rounded to the nearest, a half up. It lies between the previous value and the reading, so
      the error keeps its sign and does not grow; it stands still exactly from 4 below to 5 above. */
  lemma OneReading(prev: nat, value: nat)
    ensures var next := WeightedAverage(prev, value);
            && 10 * next - 5 <= 9 * prev + value < 10 * next + 5
            && (prev <= next <= value || value <= next <= prev)
            && (next == prev <==> -4 <= prev - value <= 5)
            && Abs(next - value) <= Abs(prev - value)
            && (Abs(prev - value) > 5 ==> Abs(next - value) < Abs(prev - value))
  {
    var sum := 9 * prev + value;
    assert BETA * prev as real + (1.0 - BETA) * value as real == sum as real / 10.0;
  }

  /** The average after `n` equal readings. */
  function Repeated(prev: nat, value: nat, n: nat): nat
    decreases n
  {
    if n == 0 then prev
    else
      OneReading(prev, value);
      Repeated(WeightedAverage(prev, value), value, n - 1)
  }

  /** Where the average comes to rest: 5 above a lower reading, 4 below a higher one. */
  function Rest(prev: nat, value: nat): int {
    if prev > value + 5 then value + 5 else if prev < value - 4 then value - 4 else prev
  }

  lemma OneReadingKeepsRest(prev: nat, value: nat)
    ensures var next := WeightedAverage(prev, value);
            next >= 0 && Rest(next, value) == Rest(prev, value)
  {
    var sum := 9 * prev + value;
    assert BETA * prev as real + (1.0 - BETA) * value as real == sum as real / 10.0;
  }

  /** Under a constant reading the average comes to rest within 5 units of it, after at most as
      many steps as the first error is large, and never moves again. */
  lemma {:induction false} SettlesWithinFive(prev: nat, value: nat, n: nat)
    ensures n >= Abs(prev - value) ==> Repeated(prev, value, n) == Rest(prev, value)
    ensures Abs(Repeated(prev, value, n) - value) <= Abs(prev - value)
    ensures Abs(Rest(prev, value) - value) <= 5
    decreases n
  {
    if n > 0 {
      OneReading(prev, value);
      OneReadingKeepsRest(prev, value);
      SettlesWithinFive(WeightedAverage(prev, value), value, n - 1);
      if Abs(prev - value) == Abs(WeightedAverage(prev, value) - value) {
        StandsStill(prev, value, n);
      }
    }
  }

  lemma {:induction false} StandsStill(prev: nat, value: nat, n: nat)
    requires WeightedAverage(prev, value) == prev
    ensures Repeated(prev, value, n) == prev
    decreases n
  {
    if n > 0 { StandsStill(prev, value, n - 1); }
  }

  function Power(base: nat, n: nat): (p: nat)
    ensures base > 0 ==> p > 0
  {
    if n == 0 then 1 else base * Power(base, n - 1)
  }

  lemma Tenths(tens: nat, nines: nat, last: int, later: int, first: int)
    requires tens * last <= nines * later && 10 * later <= 9 * first
    ensures (10 * tens) * last <= (9 * nines) * first
  {
    assert nines * (10 * later) <= nines * (9 * first);
    calc {
      (10 * tens) * last;
      10 * (tens * last);
    <=
      10 * (nines * later);
      nines * (10 * later);
    <=
      nines * (9 * first);
      (9 * nines) * first;
    }
  }

  /** How fast: under a constant reading the part of the error above 5 shrinks to nine tenths or
      less with every step. */
  lemma {:induction false} ErrorShrinksByTenths(prev: nat, value: nat, n: nat)
    ensures Power(10, n) * (Abs(Repeated(prev, value, n) - value) - 5) <= Power(9, n) * (Abs(prev - value) - 5)
    decreases n
  {
    if n > 0 {
      OneReading(prev, value);
      var next := WeightedAverage(prev, value);
      ErrorShrinksByTenths(next, value, n - 1);
      Tenths(Power(10, n - 1), Power(9, n - 1), Abs(Repeated(prev, value, n) - value) - 5, Abs(next - value) - 5,
             Abs(prev - value) - 5);
    }
  }

  // ------------------------------------------------------------- the collector

  /** cpu in milli-units, memory in bytes. */
  datatype Usage = Usage(cpu: nat, memory: nat)

  function Smooth(prev: Option<Usage>, reading: Option<Usage>): Option<Usage> {
    match (prev, reading)
    case (_, None) => prev
    case (None, Some(r)) => Some(r)
    case (Some(u), Some(r)) =>
      OneReading(u.cpu, r.cpu);
      OneReading(u.memory, r.memory);
      Some(Usage(WeightedAverage(u.cpu, r.cpu), WeightedAverage(u.memory, r.memory)))
  }

  /** `next` is nine tenths of `prev` and one tenth of `value`, to the nearest unit. */
  ghost predicate MovesTo(prev: nat, value: nat, next: nat) {
    10 * next - 5 <= 9 * prev + value < 10 * next + 5
  }

  /** What one collection makes of a listed node. */
  ghost predicate Collected(prev: Option<Usage>, reading: Option<Usage>, next: Option<Usage>) {
    && (reading.None? ==> next == prev)
    && (reading.Some? && prev.None? ==> next == reading)
    && (reading.Some? && prev.Some? ==>
          && next.Some?
          && MovesTo(prev.value.cpu, reading.value.cpu, next.value.cpu)
          && MovesTo(prev.value.memory, reading.value.memory, next.value.memory))
  }

  lemma SmoothCollects(prev: Option<Usage>, reading: Option<Usage>)
    ensures Collected(prev, reading, Smooth(prev, reading))
  {
    if prev.Some? && reading.Some? {
      OneReading(prev.value.cpu, reading.value.cpu);
      OneReading(prev.value.memory, reading.value.memory);
    }
  }

  class MetricsCollector {
    var nodes: map<string, Usage>
    var hasSynced: bool

    constructor ()
      ensures nodes == map[] && !hasSynced
    {
      nodes, hasSynced := map[], false;
    }

    /** One collection: a listed node whose reading fails keeps its value, a new one starts at
        its reading, the others move towards theirs; nodes no longer listed stay. */
    method Collect(listed: seq<string>, reading: string -> Option<Usage>)
      requires Distinct(listed)
      modifies this
      ensures hasSynced
      ensures forall n :: if n in listed then Collected(Look(old(nodes), n), reading(n), Look(nodes, n))
                          else Look(nodes, n) == Look(old(nodes), n)
    {
      for k := 0 to |listed|
        invariant forall n :: Look(nodes, n) ==
                              if n in listed[..k] then Smooth(Look(old(nodes), n), reading(n)) else Look(old(nodes), n)
      {
        var node := listed[k];
        assert node !in listed[..k] && listed[..k + 1] == listed[..k] + [node];
        var metrics := reading(node);
        if metrics.Some? {
          if node !in nodes {
            nodes := nodes[node := metrics.value];
          } else {
            var u, r := nodes[node], metrics.value;
            OneReading(u.cpu, r.cpu);
            OneReading(u.memory, r.memory);
            nodes := nodes[node := Usage(WeightedAverage(u.cpu, r.cpu), WeightedAverage(u.memory, r.memory))];
          }
        }
      }
      assert listed[..|listed|] == listed;
      forall n { SmoothCollects(Look(old(nodes), n), reading(n)); }
      hasSynced := true;
    }
  }
}
