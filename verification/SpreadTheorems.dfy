/** How well balancing balances: the exact-balance theorem, the fewest-moves theorem, and
    exactly when the promised skew is reached. */
module SpreadTheorems {
  import opened SpreadSizes

  // --------------------------------------------- deviation from a whole average

  /** The sum of `s[k] - a`. */
  ghost function Deviation(s: seq<int>, a: int): int {
    if s == [] then 0 else s[0] - a + Deviation(s[1..], a)
  }

  lemma {:induction false} DeviationIsSum(s: seq<int>, a: int)
    ensures Deviation(s, a) == Sum(s) - |s| * a
  {
    if s != [] {
      DeviationIsSum(s[1..], a);
      assert |s| * a == a + |s[1..]| * a;
    }
  }

  /** No size on one side of the average without one on the other. */
  lemma {:induction false} DeviationSign(s: seq<int>, a: int)
    ensures (forall k :: 0 <= k < |s| ==> s[k] <= a) ==>
              Deviation(s, a) <= 0 && (Deviation(s, a) == 0 ==> forall k :: 0 <= k < |s| ==> s[k] == a)
    ensures (forall k :: 0 <= k < |s| ==> s[k] >= a) ==>
              Deviation(s, a) >= 0 && (Deviation(s, a) == 0 ==> forall k :: 0 <= k < |s| ==> s[k] == a)
  {
    if s != [] {
      DeviationSign(s[1..], a);
      assert forall k :: 1 <= k < |s| ==> s[k] == s[1..][k - 1];
      assert forall k :: 0 <= k < |s[1..]| ==> s[1..][k] == s[k + 1];
    }
  }

  lemma WholeAverage(s: seq<nat>, a: nat)
    requires s != [] && Sum(s) == |s| * a
    ensures Average(s) == a as real && Deviation(s, a) == 0
  {
    DeviationIsSum(s, a);
    assert (|s| * a) as real == |s| as real * a as real;
  }

  // ------------------------------------------------------------- exact balance

  /** Everything outside [i, j] is at the average; what lies strictly inside is untouched
      and ascending; the low end is not above and the high end not below the average. */
  ghost predicate Closing(c: Config, a: nat) {
    && c.Valid() && |c.sizes| > 0
    && Deviation(c.sizes, a) == 0
    && (forall k :: 0 <= k < |c.sizes| && (k < c.i || k > c.j) ==> c.sizes[k] == a)
    && (forall k, l :: c.i < k <= l < c.j ==> c.sizes[k] <= c.sizes[l])
    && (c.i < c.j ==> c.sizes[c.i] <= a <= c.sizes[c.j])
  }

  lemma MoveAtWholeAverage(low: nat, high: nat, a: nat)
    ensures var m := MovePods(low, high, a as real, 1);
            && (m > 0 <==> low < a < high)
            && (m > 0 ==> low + m <= a <= high - m)
  {
  }

  /** While the low end is below the average, the donor is above it. */
  lemma DonorBrackets(c: Config, a: nat)
    requires Closing(c, a) && c.i < c.j
    ensures var j := Donor(c, a as real);
            && (c.i < j ==> c.sizes[j] >= a)
            && (c.sizes[c.i] < a ==> c.i < j && c.sizes[j] > a)
  {
    var j := Donor(c, a as real);
    if j < c.j && (j == c.i || c.sizes[j] <= a) {
      assert forall k :: 0 <= k < |c.sizes| ==> c.sizes[k] <= a;
      DeviationSign(c.sizes, a);
    }
  }

  /** Once the low end is at the average, the next one up is not above it. */
  lemma NextLow(c: Config, a: nat)
    requires Closing(c, a) && c.i + 1 < c.j && c.sizes[c.i] == a
    ensures c.sizes[c.i + 1] <= a
  {
    if c.sizes[c.i + 1] > a {
      assert forall k :: 0 <= k < |c.sizes| ==> c.sizes[k] >= a;
      DeviationSign(c.sizes, a);
    }
  }

  lemma TransferLevels(s: seq<nat>, from: nat, to: nat, m: nat, a: nat)
    requires from < |s| && to < |s| && from != to && m <= s[from] && s[to] + m <= a <= s[from] - m
    ensures Deviation(Transfer(s, from, to, m), a) == Deviation(s, a)
    ensures Excess(Transfer(s, from, to, m), a) == Excess(s, a) - m
  {
    TransferSums(s, from, to, m, a);
    DeviationIsSum(s, a);
    DeviationIsSum(Transfer(s, from, to, m), a);
  }

  lemma ClosingAfterMove(c: Config, a: nat)
    requires Closing(c, a) && c.i < c.j && c.sizes[c.i] < a
    ensures var d := Iterate(c, a as real, 1);
            Closing(d, a) && d.moved + Excess(d.sizes, a) == c.moved + Excess(c.sizes, a)
  {
    var d := Iterate(c, a as real, 1);
    var j := Donor(c, a as real);
    var m := MovePods(c.sizes[c.i], c.sizes[j], a as real, 1);
    DonorBrackets(c, a);
    MoveAtWholeAverage(c.sizes[c.i], c.sizes[j], a);
    assert d == Config(Transfer(c.sizes, j, c.i, m), c.i, j, c.moved + m);
    TransferLevels(c.sizes, j, c.i, m, a);
  }

  lemma ClosingAfterNoMove(c: Config, a: nat)
    requires Closing(c, a) && c.i < c.j && c.sizes[c.i] == a
    ensures var d := Iterate(c, a as real, 1);
            Closing(d, a) && d.sizes == c.sizes && d.moved == c.moved
  {
    var d := Iterate(c, a as real, 1);
    var j := Donor(c, a as real);
    DonorBrackets(c, a);
    MoveAtWholeAverage(c.sizes[c.i], c.sizes[j], a);
    assert d == Config(c.sizes, c.i + 1, j, c.moved);
    if c.i + 1 < c.j {
      NextLow(c, a);
    }
  }

  lemma ClosingKept(c: Config, a: nat)
    requires Closing(c, a) && c.i < c.j
    ensures var d := Iterate(c, a as real, 1);
            Closing(d, a) && d.moved + Excess(d.sizes, a) == c.moved + Excess(c.sizes, a)
  {
    if c.sizes[c.i] < a {
      ClosingAfterMove(c, a);
    } else {
      ClosingAfterNoMove(c, a);
    }
  }

  lemma {:induction false} RunCloses(c: Config, a: nat)
    requires Closing(c, a)
    ensures var d := Run(c, a as real, 1);
            && |d.sizes| == |c.sizes|
            && (forall k :: 0 <= k < |d.sizes| ==> d.sizes[k] == a)
            && d.moved == c.moved + Excess(c.sizes, a)
    decreases c.j - c.i, if c.i < c.j then c.sizes[c.j] else 0
  {
    if c.i < c.j {
      ClosingKept(c, a);
      RunCloses(Iterate(c, a as real, 1), a);
    } else {
      DeviationSign(c.sizes, a);
      NoExcess(c.sizes, a);
    }
  }

  lemma {:induction false} NoExcess(s: seq<int>, a: int)
    ensures (forall k :: 0 <= k < |s| ==> s[k] <= a) <==> Excess(s, a) == 0
  {
    if s != [] {
      NoExcess(s[1..], a);
      assert forall k :: 1 <= k < |s| ==> s[k] == s[1..][k - 1];
      assert forall k :: 0 <= k < |s[1..]| ==> s[1..][k] == s[k + 1];
    }
  }

  /** When the pods divide evenly over the domains and the skew allowed is 1, every domain
      ends exactly at the average and exactly the pods above the average are moved. */
  lemma ExactBalance(s: seq<nat>, a: nat)
    requires s != [] && Ascending(s) && Sum(s) == |s| * a
    ensures |Balanced(s, 1).sizes| == |s|
    ensures forall k :: 0 <= k < |s| ==> Balanced(s, 1).sizes[k] == a
    ensures Balanced(s, 1).moved == Excess(s, a)
  {
    WholeAverage(s, a);
    DeviationSign(s, a);
    RunCloses(Start(s), a);
  }

  // ------------------------------------------------------------- fewest moves

  datatype Move = Move(from: nat, to: nat)

  /** The moves `ms`, of one pod each and between any two domains, lead from `s` to `t`. */
  ghost predicate Leads(s: seq<nat>, ms: seq<Move>, t: seq<nat>)
    decreases ms
  {
    if ms == [] then s == t
    else
      var m := ms[0];
      && m.from < |s| && m.to < |s| && m.from != m.to && s[m.from] > 0
      && Leads(Transfer(s, m.from, m.to, 1), ms[1..], t)
  }

  lemma {:induction false} MovesLowerExcessByOne(s: seq<nat>, ms: seq<Move>, t: seq<nat>, a: nat)
    requires Leads(s, ms, t)
    ensures |t| == |s| && Sum(t) == Sum(s) && Excess(s, a) - |ms| <= Excess(t, a)
    decreases ms
  {
    if ms != [] {
      TransferSums(s, ms[0].from, ms[0].to, 1, a);
      MovesLowerExcessByOne(Transfer(s, ms[0].from, ms[0].to, 1), ms[1..], t, a);
    }
  }

  /** Sizes within skew 1 that divide evenly are all equal. */
  lemma EvenWithinOne(t: seq<nat>, a: nat)
    requires t != [] && Sum(t) == |t| * a && WithinSkew(t, 1)
    ensures forall k :: 0 <= k < |t| ==> t[k] == a
  {
    WholeAverage(t, a);
    DeviationSign(t, a);
  }

  /** No way of moving single pods reaches the allowed skew in fewer moves. */
  lemma FewestMoves(s: seq<nat>, a: nat, t: seq<nat>, ms: seq<Move>)
    requires s != [] && Ascending(s) && Sum(s) == |s| * a
    requires Leads(s, ms, t) && WithinSkew(t, 1)
    ensures Balanced(s, 1).moved <= |ms|
    ensures t == Balanced(s, 1).sizes
  {
    ExactBalance(s, a);
    MovesLowerExcessByOne(s, ms, t, a);
    EvenWithinOne(t, a);
    NoExcess(t, a);
  }

  // ------------------------------------------------------------- one pod at a time

  /** One pass of the plain loop: one pod moves if that is called for, otherwise the next receiver
      is looked at. */
  function IterateOne(c: Config, avg: real, maxSkew: int): (d: Config)
    requires c.Valid() && c.i < c.j && avg >= 0.0 && maxSkew >= 1
    ensures d.Valid() && |d.sizes| == |c.sizes|
    ensures d.j - d.i < c.j - c.i || (d.i == c.i && d.j == c.j && d.sizes[d.j] < c.sizes[c.j])
  {
    var j := Donor(c, avg);
    if Needed(c.sizes[c.i], c.sizes[j], avg, maxSkew) then Config(Transfer(c.sizes, j, c.i, 1), c.i, j, c.moved + 1)
    else Config(c.sizes, c.i + 1, j, c.moved)
  }

  function RunOne(c: Config, avg: real, maxSkew: int): Config
    requires c.Valid() && avg >= 0.0 && maxSkew >= 1
    decreases c.j - c.i, if c.i < c.j then c.sizes[c.j] else 0
  {
    if c.i < c.j then RunOne(IterateOne(c, avg, maxSkew), avg, maxSkew) else c
  }

  lemma TransferInTwo(s: seq<nat>, from: nat, to: nat, m: nat)
    requires from < |s| && to < |s| && from != to && 1 <= m <= s[from]
    ensures Transfer(Transfer(s, from, to, 1), from, to, m - 1) == Transfer(s, from, to, m)
  {
  }

  /** `m` moves in a row from `j` to `i`, all of them called for. */
  ghost predicate Burst(c: Config, avg: real, maxSkew: int, j: nat, m: nat) {
    && c.Valid() && c.i < c.j && avg >= 0.0 && maxSkew >= 1 && j == Donor(c, avg) && c.i != j
    && 1 <= m <= c.sizes[j] && Needed(c.sizes[c.i] + (m - 1), c.sizes[j] - (m - 1), avg, maxSkew)
  }

  lemma BurstStarts(c: Config, avg: real, maxSkew: int, j: nat, m: nat)
    requires Burst(c, avg, maxSkew, j, m)
    ensures IterateOne(c, avg, maxSkew) == Config(Transfer(c.sizes, j, c.i, 1), c.i, j, c.moved + 1)
    ensures m > 1 ==> Burst(IterateOne(c, avg, maxSkew), avg, maxSkew, j, m - 1)
  {
  }

  lemma {:induction false} ManyAtOnce(c: Config, avg: real, maxSkew: int, j: nat, m: nat, d: Config)
    requires Burst(c, avg, maxSkew, j, m) && d == Config(Transfer(c.sizes, j, c.i, m), c.i, j, c.moved + m)
    ensures d.Valid() && RunOne(c, avg, maxSkew) == RunOne(d, avg, maxSkew)
    decreases m
  {
    BurstStarts(c, avg, maxSkew, j, m);
    if m > 1 {
      TransferInTwo(c.sizes, j, c.i, m);
      ManyAtOnce(IterateOne(c, avg, maxSkew), avg, maxSkew, j, m - 1, d);
    }
  }

  /** A pass is one step of the plain loop, or a burst of them. */
  lemma PassIsABurst(c: Config, avg: real, maxSkew: int) returns (m: nat)
    requires c.Valid() && c.i < c.j && avg >= 0.0 && maxSkew >= 1
    ensures var d, j := Iterate(c, avg, maxSkew), Donor(c, avg);
            if m == 0 then d == IterateOne(c, avg, maxSkew)
            else Burst(c, avg, maxSkew, j, m) && d == Config(Transfer(c.sizes, j, c.i, m), c.i, j, c.moved + m)
  {
    var j := Donor(c, avg);
    var low, high := c.sizes[c.i], c.sizes[j];
    var moves := MovePods(low, high, avg, maxSkew);
    m := if moves > 0 then moves else 0;
    MoveBounds(low, high, avg, maxSkew);
  }

  /** For all sizes and every skew the loop, which moves many pods in one pass, ends exactly where
      the plain loop ends that moves one pod at a time while that is called for. */
  lemma {:induction false} RunIsOneAtATime(c: Config, avg: real, maxSkew: int)
    requires c.Valid() && avg >= 0.0 && maxSkew >= 1
    ensures Run(c, avg, maxSkew) == RunOne(c, avg, maxSkew)
    decreases c.j - c.i, if c.i < c.j then c.sizes[c.j] else 0
  {
    if c.i < c.j {
      var d := Iterate(c, avg, maxSkew);
      var m := PassIsABurst(c, avg, maxSkew);
      if m > 0 {
        ManyAtOnce(c, avg, maxSkew, Donor(c, avg), m, d);
      }
      RunIsOneAtATime(d, avg, maxSkew);
    }
  }

  /** Each of the moves `ms` is, at its moment, from a domain above the average to one below it that
      is more than the allowed skew smaller. */
  ghost predicate EachNeeded(s: seq<nat>, ms: seq<Move>, avg: real, maxSkew: int)
    decreases ms
  {
    ms == [] ||
    var m := ms[0];
    && m.from < |s| && m.to < |s| && m.from != m.to && s[m.from] > 0
    && s[m.from] as real > avg && avg > s[m.to] as real && s[m.from] - s[m.to] > maxSkew
    && EachNeeded(Transfer(s, m.from, m.to, 1), ms[1..], avg, maxSkew)
  }

  lemma {:induction false} PlainMoves(c: Config, avg: real, maxSkew: int) returns (ms: seq<Move>)
    requires c.Valid() && avg >= 0.0 && maxSkew >= 1
    ensures RunOne(c, avg, maxSkew).moved == c.moved + |ms|
    ensures Leads(c.sizes, ms, RunOne(c, avg, maxSkew).sizes) && EachNeeded(c.sizes, ms, avg, maxSkew)
    decreases c.j - c.i, if c.i < c.j then c.sizes[c.j] else 0
  {
    ms := [];
    if c.i < c.j {
      var j := Donor(c, avg);
      var rest := PlainMoves(IterateOne(c, avg, maxSkew), avg, maxSkew);
      ms := rest;
      if Needed(c.sizes[c.i], c.sizes[j], avg, maxSkew) {
        ms := [Move(j, c.i)] + rest;
        assert ms[1..] == rest;
      }
    }
  }

  /** The loop's own moves, one pod at a time, whatever the sizes and the skew: none is needless. */
  lemma RunMovesOneByOne(c: Config, avg: real, maxSkew: int) returns (ms: seq<Move>)
    requires c.Valid() && avg >= 0.0 && maxSkew >= 1
    ensures Run(c, avg, maxSkew).moved == c.moved + |ms|
    ensures Leads(c.sizes, ms, Run(c, avg, maxSkew).sizes)
    ensures EachNeeded(c.sizes, ms, avg, maxSkew)
  {
    RunIsOneAtATime(c, avg, maxSkew);
    ms := PlainMoves(c, avg, maxSkew);
  }

  /** After a pass no further move between the two domains it looked at is called for: they are
      within the skew, or the donor is not above the average, or the receiver not below it. */
  lemma PassFinishesPair(c: Config, avg: real, maxSkew: int)
    requires c.Valid() && c.i < c.j && avg >= 0.0 && maxSkew >= 1
    ensures var d := Iterate(c, avg, maxSkew); var j := Donor(c, avg);
            || d.sizes[j] - d.sizes[c.i] <= maxSkew
            || d.sizes[j] as real <= avg
            || d.sizes[c.i] as real >= avg
  {
    var j := Donor(c, avg);
    var low, high := c.sizes[c.i], c.sizes[j];
    MoveBounds(low, high, avg, maxSkew);
  }

  /** The loop itself takes no more than that: it is among the shortest ways. */
  lemma FewestMovesAttained(s: seq<nat>, a: nat) returns (ms: seq<Move>)
    requires s != [] && Ascending(s) && Sum(s) == |s| * a
    ensures var d := Balanced(s, 1); |ms| == d.moved && Leads(s, ms, d.sizes) && WithinSkew(d.sizes, 1)
  {
    SumNonNegative(s);
    ms := RunMovesOneByOne(Start(s), Average(s), 1);
    ExactBalance(s, a);
  }

  // ---------------------------------------------- when the promised skew is reached

  /** Two domains: always. */
  lemma TwoDomains(s: seq<nat>, maxSkew: int)
    requires maxSkew >= 1 && |s| == 2 && Ascending(s)
    ensures WithinSkew(Balanced(s, maxSkew).sizes, maxSkew)
  {
    SumNonNegative(s);
    var avg := Average(s);
    assert Sum(s) == s[0] + Sum(s[1..]) && Sum(s[1..]) == s[1] + Sum(s[1..][1..]);
    var c := Start(s);
    var d := Iterate(c, avg, maxSkew);
    assert Run(c, avg, maxSkew) == Run(d, avg, maxSkew);
    if d.moved != c.moved {
      assert Run(d, avg, maxSkew) == Run(Iterate(d, avg, maxSkew), avg, maxSkew);
    }
  }

  /** On two domains every needed move takes two off their difference. */
  lemma {:induction false} TwoDomainMoves(s: seq<nat>, ms: seq<Move>, t: seq<nat>)
    requires |s| == 2 && Leads(s, ms, t)
    ensures |t| == 2 && s[1] - s[0] <= t[1] - t[0] + 2 * |ms|
    decreases ms
  {
    if ms != [] {
      TwoDomainMoves(Transfer(s, ms[0].from, ms[0].to, 1), ms[1..], t);
    }
  }

  lemma {:induction false} NeededOnTwo(s: seq<nat>, ms: seq<Move>, avg: real, maxSkew: int)
    requires |s| == 2 && EachNeeded(s, ms, avg, maxSkew) && maxSkew >= 1
    requires s[0] <= s[1] && 2.0 * avg == (s[0] + s[1]) as real
    ensures ms != [] ==> s[1] - s[0] > maxSkew + 2 * (|ms| - 1)
    decreases ms
  {
    if ms != [] {
      NeededOnTwo(Transfer(s, ms[0].from, ms[0].to, 1), ms[1..], avg, maxSkew);
    }
  }

  /** Two domains, every skew: no other way of moving single pods ends within the skew in fewer
      moves. */
  lemma TwoDomainsMoveLeast(s: seq<nat>, maxSkew: int, ms: seq<Move>, t: seq<nat>)
    requires maxSkew >= 1 && |s| == 2 && Ascending(s)
    requires Leads(s, ms, t) && WithinSkew(t, maxSkew)
    ensures Balanced(s, maxSkew).moved <= |ms|
  {
    SumNonNegative(s);
    assert Sum(s) == s[0] + Sum(s[1..]) && Sum(s[1..]) == s[1] + Sum(s[1..][1..]);
    var own := RunMovesOneByOne(Start(s), Average(s), maxSkew);
    NeededOnTwo(s, own, Average(s), maxSkew);
    TwoDomainMoves(s, ms, t);
    assert t[1] - t[0] <= maxSkew;
  }

  lemma {:induction false} SumOfThree(s: seq<int>)
    requires |s| == 3
    ensures Sum(s) == s[0] + s[1] + s[2]
  {
    var t := s[1..];
    assert Sum(t) == t[0] + Sum(t[1..]) && Sum(t[1..]) == t[1] + Sum(t[1..][1..]);
  }

  /** Three sizes whose average lies strictly between `q` and `q + 1`, as the loop leaves them
      when it stands at `i` and `j`. */
  ghost predicate ThreeSizes(x: nat, y: nat, z: nat, i: int, j: int, q: nat) {
    if i >= j then q <= x <= q + 1 && q <= y <= q + 1 && q <= z <= q + 1
    else if i == 0 && j == 2 then x <= q + 1 && z >= q
    else if i == 0 then x <= q + 1 && y >= q && z == q
    else q <= x <= q + 1 && y <= q + 1 && z >= q && (x == q ==> q <= y && z <= q + 1)
  }

  ghost predicate Three(c: Config, q: nat, r: int) {
    && c.Valid() && |c.sizes| == 3 && 1 <= r <= 2
    && c.sizes[0] + c.sizes[1] + c.sizes[2] == 3 * q + r
    && ThreeSizes(c.sizes[0], c.sizes[1], c.sizes[2], c.i, c.j, q)
  }

  lemma MoveBetweenWholes(low: nat, high: nat, q: nat, avg: real)
    requires q as real < avg < (q + 1) as real
    ensures var m := MovePods(low, high, avg, 1);
            && (m > 0 <==> low <= q < high && high - low >= 2)
            && (m > 0 ==> low + m <= q + 1 && high - m >= q)
  {
  }

  /** One pass on three domains, in numbers: what it does to the two sizes it looks at. */
  lemma PassBetweenWholes(c: Config, q: nat, avg: real)
    requires c.Valid() && c.i < c.j && q as real < avg < (q + 1) as real
    ensures var d, j := Iterate(c, avg, 1), Donor(c, avg);
            && j == (if c.sizes[c.j] <= q then c.j - 1 else c.j) && |d.sizes| == |c.sizes|
            && (if c.sizes[c.i] <= q < c.sizes[j] && c.sizes[j] - c.sizes[c.i] >= 2
                then && d.i == c.i && d.j == j && c.i < j
                     && d.sizes[c.i] <= q + 1 && d.sizes[j] >= q && d.sizes[c.i] + d.sizes[j] == c.sizes[c.i] + c.sizes[j]
                     && forall k :: 0 <= k < |c.sizes| && k != c.i && k != j ==> d.sizes[k] == c.sizes[k]
                else d.i == c.i + 1 && d.j == j && d.sizes == c.sizes)
  {
    MoveBetweenWholes(c.sizes[c.i], c.sizes[Donor(c, avg)], q, avg);
  }

  lemma ThreeKept(c: Config, q: nat, r: int, avg: real)
    requires Three(c, q, r) && c.i < c.j && q as real < avg < (q + 1) as real
    ensures Three(Iterate(c, avg, 1), q, r)
  {
    PassBetweenWholes(c, q, avg);
    ThreeKeptFrom(c, Iterate(c, avg, 1), if c.sizes[c.j] <= q then c.j - 1 else c.j, q, r);
  }

  lemma ThreeKeptFrom(c: Config, d: Config, j: int, q: nat, r: int)
    requires Three(c, q, r) && c.i < c.j && d.Valid() && |d.sizes| == 3
    requires j == if c.sizes[c.j] <= q then c.j - 1 else c.j
    requires if c.sizes[c.i] <= q < c.sizes[j] && c.sizes[j] - c.sizes[c.i] >= 2
             then && d.i == c.i && d.j == j && c.i < j
                  && d.sizes[c.i] <= q + 1 && d.sizes[j] >= q && d.sizes[c.i] + d.sizes[j] == c.sizes[c.i] + c.sizes[j]
                  && forall k :: 0 <= k < |c.sizes| && k != c.i && k != j ==> d.sizes[k] == c.sizes[k]
             else d.i == c.i + 1 && d.j == j && d.sizes == c.sizes
    ensures Three(d, q, r)
  {
  }

  lemma {:induction false} ThreeRun(c: Config, q: nat, r: int, avg: real)
    requires Three(c, q, r) && q as real < avg < (q + 1) as real
    ensures WithinSkew(Run(c, avg, 1).sizes, 1)
    decreases c.j - c.i, if c.i < c.j then c.sizes[c.j] else 0
  {
    if c.i < c.j {
      ThreeKept(c, q, r, avg);
      ThreeRun(Iterate(c, avg, 1), q, r, avg);
    }
  }

  /** Three domains with skew 1: always. */
  lemma ThreeDomains(s: seq<nat>)
    requires |s| == 3 && Ascending(s)
    ensures WithinSkew(Balanced(s, 1).sizes, 1)
  {
    SumNonNegative(s);
    SumOfThree(s);
    var q, r := Sum(s) / 3, Sum(s) % 3;
    if r == 0 {
      ExactBalance(s, q);
    } else {
      ThreeRun(Start(s), q, r, Average(s));
    }
  }

  /** Zeros followed by two domains of `high` pods. */
  function TwoHigh(n: nat, high: nat): (s: seq<nat>)
    requires n >= 2
    ensures |s| == n && s[n - 2] == s[n - 1] == high && forall k :: 0 <= k < n - 2 ==> s[k] == 0
  {
    seq(n, k => if k < n - 2 then 0 else high)
  }

  lemma {:induction false} TwoHighSum(n: nat, high: nat)
    requires n >= 2
    ensures Sum(TwoHigh(n, high)) == 2 * high
  {
    var s := TwoHigh(n, high);
    if n == 2 {
      assert Sum(s[1..]) == high + Sum(s[1..][1..]);
    } else {
      assert s[1..] == TwoHigh(n - 1, high);
      TwoHighSum(n - 1, high);
    }
  }

  lemma QuotientBelow(t: real, n: real, v: real)
    requires n > 0.0 && 0.0 < t < v * n
    ensures 0.0 < t / n < v
  {
    var x := t / n;
    assert x * n == t;
    assert (v - x) * n > 0.0;
  }

  lemma AverageBelow(s: seq<nat>, v: int)
    requires s != [] && 0 < Sum(s) < v * |s|
    ensures 0.0 < Average(s) < v as real
  {
    assert (v * |s|) as real == v as real * |s| as real;
    QuotientBelow(Sum(s) as real, |s| as real, v as real);
  }

  lemma TwoHighAverage(n: nat, maxSkew: int)
    requires maxSkew >= 1 && (n >= 5 || (n >= 4 && maxSkew >= 2))
    ensures 0.0 < Average(TwoHigh(n, maxSkew + 1)) < maxSkew as real
  {
    TwoHighSum(n, maxSkew + 1);
    assert maxSkew * n >= maxSkew * 4 && (n >= 5 ==> maxSkew * n >= maxSkew * 5);
    AverageBelow(TwoHigh(n, maxSkew + 1), maxSkew);
  }

  lemma TwoHighFirstPass(n: nat, maxSkew: int, avg: real)
    requires maxSkew >= 1 && n >= 4 && 0.0 < avg < maxSkew as real
    ensures var s := TwoHigh(n, maxSkew + 1);
            Iterate(Start(s), avg, maxSkew) == Config(Transfer(s, n - 1, 0, 1), 0, n - 1, 1)
  {
    assert MovePods(0, maxSkew + 1, avg, maxSkew) == 1;
  }

  /** One pod leaves the last domain and nothing else happens: the last but one stays
      more than the allowed skew above an empty domain. */
  lemma TwoHighFails(n: nat, maxSkew: int)
    requires maxSkew >= 1 && (n >= 5 || (n >= 4 && maxSkew >= 2))
    ensures !WithinSkew(Balanced(TwoHigh(n, maxSkew + 1), maxSkew).sizes, maxSkew)
  {
    var s := TwoHigh(n, maxSkew + 1);
    SumNonNegative(s);
    TwoHighAverage(n, maxSkew);
    TwoHighFirstPass(n, maxSkew, Average(s));
    var d := Config(Transfer(s, n - 1, 0, 1), 0, n - 1, 1);
    DonorWithinSkewStops(d, Average(s), maxSkew);
    assert d.sizes[n - 2] - d.sizes[1] == maxSkew + 1;
  }

  lemma ThreeFails(maxSkew: int)
    requires maxSkew >= 2
    ensures !WithinSkew(Balanced([0, maxSkew + 2, maxSkew + 2], maxSkew).sizes, maxSkew)
  {
    var s: seq<nat> := [0, maxSkew + 2, maxSkew + 2];
    SumNonNegative(s);
    SumOfThree(s);
    var avg := Average(s);
    assert avg == (2 * maxSkew + 4) as real / 3.0;
    var c := Start(s);
    var d := Iterate(c, avg, maxSkew);
    assert d == Config([1, maxSkew + 2, maxSkew + 1], 0, 2, 1);
    DonorWithinSkewStops(d, avg, maxSkew);
    assert d.sizes[1] - d.sizes[0] == maxSkew + 1;
  }

  lemma FourFails()
    ensures !WithinSkew(Balanced([0, 1, 3, 3], 1).sizes, 1)
  {
    var s: seq<nat> := [0, 1, 3, 3];
    SumNonNegative(s);
    assert s[1..] == [1, 3, 3];
    SumOfThree([1, 3, 3]);
    var avg := Average(s);
    assert avg == 7.0 / 4.0;
    var d := Iterate(Start(s), avg, 1);
    assert d == Config([1, 1, 3, 2], 0, 3, 1);
    DonorWithinSkewStops(d, avg, 1);
    assert d.sizes[2] - d.sizes[0] == 2;
  }

  /** Whatever the sizes, balancing `n` domains ends within the allowed skew. */
  ghost predicate SkewGuaranteed(n: nat, maxSkew: int)
    requires maxSkew >= 1
  {
    forall s: seq<nat> :: |s| == n && Ascending(s) ==> WithinSkew(Balanced(s, maxSkew).sizes, maxSkew)
  }

  lemma SmallIsGuaranteed(n: nat, maxSkew: int)
    requires maxSkew >= 1 && (n <= 2 || (n == 3 && maxSkew == 1))
    ensures SkewGuaranteed(n, maxSkew)
  {
    forall s: seq<nat> | |s| == n && Ascending(s)
      ensures WithinSkew(Balanced(s, maxSkew).sizes, maxSkew)
    {
      if n == 2 {
        TwoDomains(s, maxSkew);
      } else if n == 3 {
        ThreeDomains(s);
      } else {
        SumNonNegative(s);
      }
    }
  }

  lemma OneFailureSuffices(s: seq<nat>, maxSkew: int)
    requires maxSkew >= 1 && Ascending(s) && !WithinSkew(Balanced(s, maxSkew).sizes, maxSkew)
    ensures !SkewGuaranteed(|s|, maxSkew)
  {
  }

  lemma LargeIsNotGuaranteed(n: nat, maxSkew: int)
    requires maxSkew >= 1 && n >= 3 && (n == 3 ==> maxSkew >= 2)
    ensures !SkewGuaranteed(n, maxSkew)
  {
    if n == 3 {
      ThreeFails(maxSkew);
      OneFailureSuffices([0, maxSkew + 2, maxSkew + 2], maxSkew);
    } else if n == 4 && maxSkew == 1 {
      FourFails();
      OneFailureSuffices([0, 1, 3, 3], 1);
    } else {
      TwoHighFails(n, maxSkew);
      OneFailureSuffices(TwoHigh(n, maxSkew + 1), maxSkew);
    }
  }

  /** The loop is meant to end within the allowed skew. It is certain to exactly for at
      most two domains, or for three with a skew of 1; in every other case some sizes
      are left outside it. */
  lemma SkewGuaranteedExactly(n: nat, maxSkew: int)
    requires maxSkew >= 1
    ensures SkewGuaranteed(n, maxSkew) <==> n <= 2 || (n == 3 && maxSkew == 1)
  {
    if n <= 2 || (n == 3 && maxSkew == 1) {
      SmallIsGuaranteed(n, maxSkew);
    } else {
      LargeIsNotGuaranteed(n, maxSkew);
    }
  }
}
