/** The arithmetic of topology-spread balancing: the two-pointer loop of
    `balanceDomains`, seen through the domain sizes alone.

    The averages are exact rationals here; the program uses 64-bit floats. */
module SpreadSizes {

  /** The total number of pods over all domains. */
  function Sum(s: seq<int>): int {
    if s == [] then 0 else s[0] + Sum(s[1..])
  }

  /** The sum of squared sizes: the potential that every move lowers. */
  function Squares(s: seq<int>): int {
    if s == [] then 0 else s[0] * s[0] + Squares(s[1..])
  }

  /** The total number of pods above level `a`. */
  function Excess(s: seq<int>, a: int): nat {
    if s == [] then 0 else (if s[0] > a then s[0] - a else 0) + Excess(s[1..], a)
  }

  function Ceil(x: real): (c: int)
    ensures c as real - 1.0 < x <= c as real
  {
    -((0.0 - x).Floor)
  }

  function Average(s: seq<int>): real {
    if s == [] then 0.0 else Sum(s) as real / |s| as real
  }

  ghost predicate Ascending(s: seq<int>) {
    forall k, l :: 0 <= k < l < |s| ==> s[k] <= s[l]
  }

  /** Every pair of domains is within `skew` of each other. */
  ghost predicate WithinSkew(s: seq<int>, skew: int) {
    forall k, l :: 0 <= k < |s| && 0 <= l < |s| ==> s[k] - s[l] <= skew
  }

  /** The loop's variables, plus the number of pods moved so far. */
  datatype Config = Config(sizes: seq<nat>, i: int, j: int, moved: nat) {
    ghost predicate Valid() {
      0 <= i && j < |sizes| && i <= j + 1
    }
  }

  /** How many pods one step takes from a domain of `high` pods for one of `low` pods. */
  function MovePods(low: nat, high: nat, avg: real, maxSkew: int): int {
    var aboveAvg := Ceil(high as real - avg);
    var belowAvg := Ceil(avg - low as real);
    var smallestDiff := if aboveAvg < belowAvg then aboveAvg else belowAvg;
    var halfSkew := Ceil((high - low - maxSkew) as real / 2.0);
    if smallestDiff < halfSkew then smallestDiff else halfSkew
  }

  function Transfer(s: seq<nat>, from: nat, to: nat, m: nat): (t: seq<nat>)
    requires from < |s| && to < |s| && from != to && m <= s[from]
    ensures |t| == |s| && t[from] == s[from] - m && t[to] == s[to] + m
    ensures forall k :: 0 <= k < |s| && k != from && k != to ==> t[k] == s[k]
  {
    s[from := s[from] - m][to := s[to] + m]
  }

  /** The donor index used in one pass of the loop body. */
  function Donor(c: Config, avg: real): int
    requires c.Valid() && c.i < c.j
  {
    if c.sizes[c.j] as real <= avg then c.j - 1 else c.j
  }

  /** One pass of the loop body. */
  function Iterate(c: Config, avg: real, maxSkew: int): (d: Config)
    requires c.Valid() && c.i < c.j && avg >= 0.0 && maxSkew >= 1
    ensures d.Valid() && |d.sizes| == |c.sizes|
    ensures d.j - d.i < c.j - c.i || (d.i == c.i && d.j == c.j && d.sizes[d.j] < c.sizes[c.j])
  {
    var j := Donor(c, avg);
    if c.sizes[j] - c.sizes[c.i] <= maxSkew then
      Config(c.sizes, c.i + 1, j, c.moved)
    else
      var m := MovePods(c.sizes[c.i], c.sizes[j], avg, maxSkew);
      if m <= 0 then
        Config(c.sizes, c.i + 1, j, c.moved)
      else
        Config(Transfer(c.sizes, j, c.i, m), c.i, j, c.moved + m)
  }

  /** The whole loop. */
  function Run(c: Config, avg: real, maxSkew: int): (d: Config)
    requires c.Valid() && avg >= 0.0 && maxSkew >= 1
    decreases c.j - c.i, if c.i < c.j then c.sizes[c.j] else 0
  {
    if c.i < c.j then Run(Iterate(c, avg, maxSkew), avg, maxSkew) else c
  }

  function Start(s: seq<nat>): Config {
    Config(s, 0, |s| - 1, 0)
  }

  /** The loop's outcome on ascending sizes `s`. */
  function Balanced(s: seq<nat>, maxSkew: int): Config
    requires maxSkew >= 1
  {
    SumNonNegative(s);
    Run(Start(s), Average(s), maxSkew)
  }

  // ---------------------------------------------------------------- sums

  lemma {:induction false} SumNonNegative(s: seq<nat>)
    ensures Sum(s) >= 0 && Average(s) >= 0.0
  {
    if s != [] { SumNonNegative(s[1..]); }
  }

  /** What replacing one entry does to the three sums. */
  lemma {:induction false} Replace(s: seq<int>, k: nat, v: int, a: int)
    requires k < |s|
    ensures Sum(s[k := v]) == Sum(s) - s[k] + v
    ensures Squares(s[k := v]) == Squares(s) - s[k] * s[k] + v * v
    ensures Excess(s[k := v], a) == Excess(s, a) - (if s[k] > a then s[k] - a else 0) + (if v > a then v - a else 0)
  {
    var t := s[k := v];
    if k == 0 {
      assert t[1..] == s[1..];
    } else {
      assert t[1..] == s[1..][k - 1 := v];
      Replace(s[1..], k - 1, v, a);
    }
  }

  lemma SquareDrop(high: int, low: int, m: int)
    ensures (high - m) * (high - m) + (low + m) * (low + m) == high * high + low * low - 2 * (m * (high - low - m))
  {
    var d := high - low - m;
    assert (high - m) * (high - m) == high * high - 2 * (m * high) + m * m;
    assert (low + m) * (low + m) == low * low + 2 * (m * low) + m * m;
    assert m * d == m * high - m * low - m * m;
  }

  /** A transfer keeps the total; it lowers the squares by 2m(high - low - m). */
  lemma TransferSums(s: seq<nat>, from: nat, to: nat, m: nat, a: int)
    requires from < |s| && to < |s| && from != to && m <= s[from]
    ensures Sum(Transfer(s, from, to, m)) == Sum(s)
    ensures Squares(Transfer(s, from, to, m)) == Squares(s) - 2 * (m * (s[from] - s[to] - m))
    ensures Excess(s, a) - m <= Excess(Transfer(s, from, to, m), a)
    ensures s[to] + m <= a <= s[from] - m ==> Excess(Transfer(s, from, to, m), a) == Excess(s, a) - m
  {
    var t := s[from := s[from] - m];
    Replace(s, from, s[from] - m, a);
    Replace(t, to, s[to] + m, a);
    SquareDrop(s[from], s[to], m);
  }

  // ------------------------------------------------------- one move, one run

  /** A move of one pod is called for: the donor is above the average, the receiver below it, and
      they are more than the allowed skew apart. */
  predicate Needed(low: int, high: int, avg: real, maxSkew: int) {
    high as real > avg && avg > low as real && high - low > maxSkew
  }

  /** The three ceilings count exactly the single moves that are still called for when their turn
      comes: none is needless, and after the last one no further is called for. */
  lemma MovesWhileNeeded(low: nat, high: nat, avg: real, maxSkew: int, k: nat)
    ensures k < MovePods(low, high, avg, maxSkew) <==> Needed(low + k, high - k, avg, maxSkew)
  {
  }

  /** The three ceilings, and what they keep: pods move exactly when a move is called for, the last
      one moved still is and no further is; the donor stays at or above the floor of the average
      and the receiver at or below its ceiling, without crossing. */
  lemma MoveBounds(low: nat, high: nat, avg: real, maxSkew: int)
    requires avg >= 0.0 && maxSkew >= 1
    ensures var m := MovePods(low, high, avg, maxSkew);
            && (m > 0 <==> high as real > avg > low as real && high - low > maxSkew)
            && (m > 0 ==>
              && Needed(low + m - 1, high - m + 1, avg, maxSkew) && !Needed(low + m, high - m, avg, maxSkew)
              && high as real > avg && avg > low as real
              && m <= high && 2 * m <= high - low
              && high - m >= avg.Floor && low + m <= Ceil(avg))
  {
    var m := MovePods(low, high, avg, maxSkew);
    MovesWhileNeeded(low, high, avg, maxSkew, 0);
    if m > 0 {
      MovesWhileNeeded(low, high, avg, maxSkew, m - 1);
      MovesWhileNeeded(low, high, avg, maxSkew, m);
    }
  }

  /** What one pass does when it moves pods: between two different domains inside
      [i, j]; the donor ends at or above the floor of the average and at or above the
      receiver, the receiver at or below the ceiling of the average; the total stays and
      the sum of squares strictly drops. Otherwise the sizes stay. */
  lemma OneMove(c: Config, avg: real, maxSkew: int)
    requires c.Valid() && c.i < c.j && avg >= 0.0 && maxSkew >= 1
    ensures var d := Iterate(c, avg, maxSkew); var j := Donor(c, avg);
            if d.moved == c.moved then d.sizes == c.sizes && d.i == c.i + 1 && d.j == j
            else
              && d.i == c.i < d.j == j
              && d.moved > c.moved
              && (forall k :: 0 <= k < |c.sizes| && k != c.i && k != j ==> d.sizes[k] == c.sizes[k])
              && c.sizes[j] - d.sizes[j] == d.moved - c.moved == d.sizes[c.i] - c.sizes[c.i]
              && c.sizes[j] as real > avg
              && d.sizes[j] >= avg.Floor
              && d.sizes[j] >= d.sizes[c.i]
              && d.sizes[c.i] <= Ceil(avg)
              && Sum(d.sizes) == Sum(c.sizes)
              && Squares(d.sizes) < Squares(c.sizes)
  {
    var d := Iterate(c, avg, maxSkew);
    var j := Donor(c, avg);
    var high, low := c.sizes[j], c.sizes[c.i];
    if d.moved != c.moved {
      var m := MovePods(low, high, avg, maxSkew);
      MoveBounds(low, high, avg, maxSkew);
      TransferSums(c.sizes, j, c.i, m, 0);
      Positive(m, high - low - m);
    }
  }

  lemma Positive(x: int, y: int)
    requires x > 0 && y > 0
    ensures x * y > 0
  {
  }

  /** Over a whole run: the total and the number of domains are kept, the squares never
      rise and strictly drop if anything moved, and no size leaves the initial range. */
  lemma {:induction false} RunInvariants(c: Config, avg: real, maxSkew: int, lo: int, hi: int)
    requires c.Valid() && avg >= 0.0 && maxSkew >= 1
    requires forall k :: 0 <= k < |c.sizes| ==> lo <= c.sizes[k] <= hi
    ensures var d := Run(c, avg, maxSkew);
            && |d.sizes| == |c.sizes|
            && Sum(d.sizes) == Sum(c.sizes)
            && d.moved >= c.moved
            && (if d.moved == c.moved then d.sizes == c.sizes else Squares(d.sizes) < Squares(c.sizes))
            && forall k :: 0 <= k < |d.sizes| ==> lo <= d.sizes[k] <= hi
    decreases c.j - c.i, if c.i < c.j then c.sizes[c.j] else 0
  {
    if c.i < c.j {
      OneMove(c, avg, maxSkew);
      RunInvariants(Iterate(c, avg, maxSkew), avg, maxSkew, lo, hi);
    }
  }

  /** The spread between the largest and the smallest domain never grows. */
  lemma SpreadNeverGrows(s: seq<nat>, maxSkew: int, spread: int)
    requires maxSkew >= 1 && WithinSkew(s, spread)
    ensures WithinSkew(Balanced(s, maxSkew).sizes, spread)
    ensures Sum(Balanced(s, maxSkew).sizes) == Sum(s)
  {
    SumNonNegative(s);
    if s != [] {
      var lo, hi := Range(s);
      RunInvariants(Start(s), Average(s), maxSkew, lo, hi);
    }
  }

  lemma {:induction false} Range(s: seq<int>) returns (lo: int, hi: int)
    requires s != []
    ensures lo in s && hi in s && forall k :: 0 <= k < |s| ==> lo <= s[k] <= hi
  {
    if |s| == 1 {
      lo, hi := s[0], s[0];
    } else {
      var l, h := Range(s[1..]);
      lo, hi := if s[0] < l then s[0] else l, if h < s[0] then s[0] else h;
      assert forall k :: 1 <= k < |s| ==> s[k] == s[1..][k - 1];
    }
  }

  // --------------------------------------------------------- nothing to do

  /** Sizes already within the skew are left alone, so skipping such a topology up front
      changes nothing. */
  lemma {:induction false} BalancedIsLeftAlone(c: Config, avg: real, maxSkew: int)
    requires c.Valid() && avg >= 0.0 && maxSkew >= 1 && WithinSkew(c.sizes, maxSkew)
    ensures Run(c, avg, maxSkew).sizes == c.sizes && Run(c, avg, maxSkew).moved == c.moved
    decreases c.j - c.i, if c.i < c.j then c.sizes[c.j] else 0
  {
    if c.i < c.j {
      BalancedIsLeftAlone(Iterate(c, avg, maxSkew), avg, maxSkew);
    }
  }

  /** The loop only looks at the current donor: when that one is above the average and
      within the skew of everything still to its left, nothing moves any more. */
  lemma {:induction false} DonorWithinSkewStops(c: Config, avg: real, maxSkew: int)
    requires c.Valid() && avg >= 0.0 && maxSkew >= 1
    requires c.i < c.j ==> c.sizes[c.j] as real > avg
    requires c.i < c.j ==> forall k :: c.i <= k < c.j ==> c.sizes[c.j] - c.sizes[k] <= maxSkew
    ensures Run(c, avg, maxSkew).sizes == c.sizes
    decreases c.j - c.i
  {
    if c.i < c.j {
      DonorWithinSkewStops(Iterate(c, avg, maxSkew), avg, maxSkew);
    }
  }
}
