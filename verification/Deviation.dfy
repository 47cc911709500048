/** Deviation mode: thresholds taken around the average usage, and the classification of
    nodes by them. */
module Deviation {
  import opened Common
  import opened Thresholds

  // ------------------------------------------------------------- average

  /** The sum of a resource over the nodes that report it, and how many do. */
  function Total(values: seq<Percentages>, r: string): real {
    if values == [] then 0.0 else Total(values[..|values| - 1], r) + At(values[|values| - 1], r)
  }

  function Count(values: seq<Percentages>, r: string): nat {
    if values == [] then 0
    else Count(values[..|values| - 1], r) + if r in values[|values| - 1] then 1 else 0
  }

  /** The average of a resource over the nodes that report it. */
  function AverageOf(values: seq<Percentages>, r: string): real {
    if Count(values, r) == 0 then 0.0 else Total(values, r) / Count(values, r) as real
  }

  function Seen(counter: map<string, nat>, r: string): nat {
    if r in counter then counter[r] else 0
  }

  /** The inner loop: one node's values added to the running sums and counters. */
  method AddNode(sums: Percentages, counter: map<string, nat>, node: Percentages)
    returns (newSums: Percentages, newCounter: map<string, nat>)
    requires sums.Keys == counter.Keys
    ensures newSums.Keys == newCounter.Keys == sums.Keys + node.Keys
    ensures forall r :: At(newSums, r) == At(sums, r) + At(node, r)
    ensures forall r :: Seen(newCounter, r) == Seen(counter, r) + if r in node then 1 else 0
  {
    newSums, newCounter := sums, counter;
    var todo := node.Keys;
    while todo != {}
      invariant todo <= node.Keys && newSums.Keys == newCounter.Keys == sums.Keys + (node.Keys - todo)
      invariant forall r :: At(newSums, r) == At(sums, r) + if r in todo then 0.0 else At(node, r)
      invariant forall r :: Seen(newCounter, r) == Seen(counter, r) + if r in node.Keys - todo then 1 else 0
      decreases todo
    {
      var r :| r in todo;
      newSums := newSums[r := At(newSums, r) + node[r]];
      newCounter := newCounter[r := Seen(newCounter, r) + 1];
      todo := todo - {r};
    }
  }

  /** `Average`, the nodes in whatever order the map yields them: each resource is averaged
      over exactly the nodes that report it. */
  method Average(values: seq<Percentages>) returns (average: Percentages)
    ensures forall r :: r in average <==> Count(values, r) > 0
    ensures forall r :: r in average ==> average[r] == AverageOf(values, r)
  {
    var sums: Percentages, counter: map<string, nat> := map[], map[];
    for k := 0 to |values|
      invariant counter.Keys == sums.Keys
      invariant forall r :: Count(values[..k], r) == Seen(counter, r)
      invariant forall r :: r in counter ==> Seen(counter, r) > 0
      invariant forall r :: Total(values[..k], r) == At(sums, r)
    {
      assert values[..k + 1][..k] == values[..k];
      sums, counter := AddNode(sums, counter, values[k]);
    }
    assert values[..|values|] == values;
    forall r | r in counter
      ensures counter[r] == Count(values, r) > 0 && sums[r] == Total(values, r)
    {
      assert Seen(counter, r) == Count(values, r);
    }
    average := map r | r in sums :: sums[r] / counter[r] as real;
  }

  /** Some node reports at least the average. */
  lemma {:induction false} SomeNodeReachesAverage(values: seq<Percentages>, r: string, avg: real)
    requires Count(values, r) > 0 && avg * Count(values, r) as real <= Total(values, r)
    ensures exists k :: 0 <= k < |values| && r in values[k] && values[k][r] >= avg
    decreases |values|
  {
    var front, last := values[..|values| - 1], values[|values| - 1];
    if r in last && last[r] >= avg {
      assert values[|values| - 1] == last;
    } else {
      if r in last {
        assert avg * Count(values, r) as real == avg * Count(front, r) as real + avg;
      }
      if Count(front, r) == 0 {
        NoReportNoTotal(front, r);
      }
      SomeNodeReachesAverage(front, r, avg);
      var k :| 0 <= k < |front| && r in front[k] && front[k][r] >= avg;
      assert values[k] == front[k];
    }
  }

  lemma {:induction false} NoReportNoTotal(values: seq<Percentages>, r: string)
    requires Count(values, r) == 0
    ensures Total(values, r) == 0.0
    decreases |values|
  {
    if values != [] { NoReportNoTotal(values[..|values| - 1], r); }
  }

  // ------------------------------------------------------------- thresholds

  method Negate(values: Percentages) returns (result: Percentages)
    ensures result.Keys == values.Keys && forall r :: r in result ==> result[r] + values[r] == 0.0
  {
    result := map[];
    var todo := values.Keys;
    while todo != {}
      invariant todo <= values.Keys && result.Keys == values.Keys - todo
      invariant forall r :: r in result ==> result[r] + values[r] == 0.0
      decreases todo
    {
      var r :| r in todo;
      result, todo := result[r := -values[r]], todo - {r};
    }
  }

  /** Resources of `a`, with `b` added where it has them. */
  method Sum(a: Percentages, b: Percentages) returns (result: Percentages)
    ensures result.Keys == a.Keys && forall r :: r in result ==> result[r] == a[r] + At(b, r)
  {
    result := map[];
    var todo := a.Keys;
    while todo != {}
      invariant todo <= a.Keys && result.Keys == a.Keys - todo
      invariant forall r :: r in result ==> result[r] == a[r] + At(b, r)
      decreases todo
    {
      var r :| r in todo;
      result, todo := result[r := a[r] + At(b, r)], todo - {r};
    }
  }

  /** The nearest value in range. */
  function Clamped(x: real, minimum: real, maximum: real): real {
    if x < minimum then minimum else if x > maximum then maximum else x
  }

  function Distance(x: real, y: real): real {
    if x < y then y - x else x - y
  }

  lemma ClampedIsNearest(x: real, minimum: real, maximum: real, y: real)
    requires minimum <= y <= maximum
    ensures minimum <= Clamped(x, minimum, maximum) <= maximum
    ensures Distance(x, Clamped(x, minimum, maximum)) <= Distance(x, y)
  {
  }

  method Clamp(values: Percentages, minimum: real, maximum: real) returns (result: Percentages)
    ensures result.Keys == values.Keys
    ensures forall r :: r in result ==>
              result[r] == if minimum <= maximum then Clamped(values[r], minimum, maximum) else maximum
  {
    result := map[];
    var todo := values.Keys;
    while todo != {}
      invariant todo <= values.Keys && result.Keys == values.Keys - todo
      invariant forall r :: r in result ==>
                  result[r] == if minimum <= maximum then Clamped(values[r], minimum, maximum) else maximum
      decreases todo
    {
      var r :| r in todo;
      var value := values[r];
      value := if value < minimum then minimum else value;
      value := if value > maximum then maximum else value;
      result, todo := result[r := value], todo - {r};
    }
  }

  /** The thresholds around the average: for exactly the resources some node reports, the average
      less the low span and plus the high span, clamped to percentages. */
  ghost predicate Around(list: seq<Percentages>, lowSpan: Percentages, highSpan: Percentages, lower: Percentages,
                         upper: Percentages)
  {
    && lower.Keys == upper.Keys && (forall r :: r in lower <==> Count(list, r) > 0)
    && (forall r :: r in lower ==> lower[r] == Clamped(AverageOf(list, r) - At(lowSpan, r), 0.0, 100.0))
    && (forall r :: r in upper ==> upper[r] == Clamped(AverageOf(list, r) + At(highSpan, r), 0.0, 100.0))
    && forall r :: r in lower ==> 0.0 <= lower[r] <= upper[r] <= 100.0
  }

  lemma AverageBetween(average: real, below: real, above: real)
    requires below >= 0.0 && above >= 0.0
    ensures 0.0 <= Clamped(average - below, 0.0, 100.0) <= Clamped(average + above, 0.0, 100.0) <= 100.0
  {
  }

  lemma AroundAverage(list: seq<Percentages>, lowSpan: Percentages, highSpan: Percentages, average: Percentages,
                      lower: Percentages, upper: Percentages)
    requires (forall r :: r in lowSpan ==> lowSpan[r] >= 0.0) && forall r :: r in highSpan ==> highSpan[r] >= 0.0
    requires forall r :: r in average <==> Count(list, r) > 0
    requires forall r :: r in average ==> average[r] == AverageOf(list, r)
    requires lower.Keys == upper.Keys == average.Keys
    requires forall r :: r in lower ==> lower[r] == Clamped(average[r] - At(lowSpan, r), 0.0, 100.0)
    requires forall r :: r in upper ==> upper[r] == Clamped(average[r] + At(highSpan, r), 0.0, 100.0)
    ensures Around(list, lowSpan, highSpan, lower, upper)
  {
    forall r | r in lower
      ensures 0.0 <= lower[r] <= upper[r] <= 100.0
    {
      AverageBetween(average[r], At(lowSpan, r), At(highSpan, r));
    }
  }

  /** `assessNodesUsagesAndRelativeThresholds`: the average less the low span and plus the
      high span, both clamped to percentages. */
  method AssessRelative(usages: seq<Percentages>, lowSpan: Percentages, highSpan: Percentages)
    returns (average: Percentages, lower: Percentages, upper: Percentages)
    requires forall r :: r in lowSpan ==> lowSpan[r] >= 0.0
    requires forall r :: r in highSpan ==> highSpan[r] >= 0.0
    ensures forall r :: r in average <==> Count(usages, r) > 0
    ensures forall r :: r in average ==> average[r] == AverageOf(usages, r)
    ensures Around(usages, lowSpan, highSpan, lower, upper)
  {
    average := Average(usages);
    var negated := Negate(lowSpan);
    var low := Sum(average, negated);
    lower := Clamp(low, 0.0, 100.0);
    var high := Sum(average, highSpan);
    upper := Clamp(high, 0.0, 100.0);
    AroundAverage(usages, lowSpan, highSpan, average, lower, upper);
  }

  /** No node is both under and over, so the order of the two tests does not matter. */
  lemma NeverUnderAndOver(usage: Percentages, lower: Percentages, upper: Percentages)
    requires lower.Keys == upper.Keys && forall r :: r in lower ==> lower[r] <= upper[r]
    ensures !(IsNodeBelowThreshold(usage, lower) && IsNodeAboveThreshold(usage, upper))
  {
  }

  /** A resource in use with a positive low span leaves some node out of the underutilized
      group: deviation mode never takes the whole cluster for underutilized. */
  lemma SomeNodeIsNotUnder(usages: seq<Percentages>, lower: Percentages, r: string, span: real)
    requires AverageOf(usages, r) > 0.0 && span > 0.0
    requires r in lower && lower[r] == Clamped(AverageOf(usages, r) - span, 0.0, 100.0)
    ensures exists k :: 0 <= k < |usages| && !IsNodeBelowThreshold(usages[k], lower)
  {
    var avg := AverageOf(usages, r);
    assert avg * Count(usages, r) as real == Total(usages, r);
    SomeNodeReachesAverage(usages, r, avg);
    var k :| 0 <= k < |usages| && r in usages[k] && usages[k][r] >= avg;
    assert lower[r] < At(usages[k], r);
  }

  // ------------------------------------------------------------- classification

  type Classifier = (string, Percentages, Percentages) -> bool

  /** The position of the first classifier that takes the node, if any. */
  function FirstMatch(name: string, usage: Percentages, limits: seq<Percentages>, classifiers: seq<Classifier>,
                      from: nat): Option<nat>
    decreases |limits| - from
  {
    if from >= |limits| || from >= |classifiers| then None
    else if classifiers[from](name, usage, limits[from]) then Some(from)
    else FirstMatch(name, usage, limits, classifiers, from + 1)
  }

  /** The group of classifier `i`. */
  ghost function Group(values: map<string, Percentages>, limits: map<string, seq<Percentages>>, classifiers: seq<Classifier>,
                       names: set<string>, i: nat): map<string, Percentages>
  {
    map n | n in values && n in names && n in limits && FirstMatch(n, values[n], limits[n], classifiers, 0) == Some(i) ::
      values[n]
  }

  /** `Classify`: each value goes to the first classifier that takes it, and to no other. */
  method Classify(values: map<string, Percentages>, limits: map<string, seq<Percentages>>, classifiers: seq<Classifier>)
    returns (result: seq<map<string, Percentages>>)
    ensures |result| == |classifiers|
    ensures forall i :: 0 <= i < |result| ==> result[i] == Group(values, limits, classifiers, values.Keys, i)
  {
    result := seq(|classifiers|, i => map[]);
    var todo := values.Keys;
    while todo != {}
      invariant todo <= values.Keys && |result| == |classifiers|
      invariant forall i :: 0 <= i < |result| ==> result[i] == Group(values, limits, classifiers, values.Keys - todo, i)
      decreases todo
    {
      var name :| name in todo;
      var usage, own := values[name], if name in limits then limits[name] else [];
      var i := 0;
      while i < |own|
        invariant 0 <= i <= |own|
        invariant FirstMatch(name, usage, own, classifiers, i) == FirstMatch(name, usage, own, classifiers, 0)
      {
        if |classifiers| > i && classifiers[i](name, usage, own[i]) {
          break;
        }
        i := i + 1;
      }
      if i < |own| {
        result := result[i := result[i][name := usage]];
      }
      todo := todo - {name};
    }
    assert values.Keys - {} == values.Keys;
  }

  lemma FirstOfTwo(n: string, usage: Percentages, l0: Percentages, l1: Percentages, c0: Classifier, c1: Classifier)
    ensures FirstMatch(n, usage, [l0, l1], [c0, c1], 0) ==
            if c0(n, usage, l0) then Some(0) else if c1(n, usage, l1) then Some(1) else None
  {
    assert FirstMatch(n, usage, [l0, l1], [c0, c1], 2) == None;
  }

  lemma TwoGroups(values: map<string, Percentages>, l0: Percentages, l1: Percentages, c0: Classifier, c1: Classifier)
    ensures var limits := map n | n in values :: [l0, l1];
            && Group(values, limits, [c0, c1], values.Keys, 0) == (map n | n in values && c0(n, values[n], l0) :: values[n])
            && Group(values, limits, [c0, c1], values.Keys, 1) ==
               (map n | n in values && !c0(n, values[n], l0) && c1(n, values[n], l1) :: values[n])
  {
    forall n | n in values { FirstOfTwo(n, values[n], l0, l1, c0, c1); }
  }

  /** When no node passes both tests, testing "over" first gives the same two groups. */
  lemma OrderOfTestsIsIrrelevant(values: map<string, Percentages>, lower: Percentages, upper: Percentages,
                                 under: Classifier, over: Classifier)
    requires forall n :: n in values ==> !(under(n, values[n], lower) && over(n, values[n], upper))
    ensures var straight := map n | n in values :: [lower, upper];
            var swapped := map n | n in values :: [upper, lower];
            && Group(values, straight, [under, over], values.Keys, 0) == Group(values, swapped, [over, under], values.Keys, 1)
            && Group(values, straight, [under, over], values.Keys, 1) == Group(values, swapped, [over, under], values.Keys, 0)
  {
    TwoGroups(values, lower, upper, under, over);
    TwoGroups(values, upper, lower, over, under);
  }

  // ------------------------------------------------------------- deviation mode

  function Listed(usages: map<string, Percentages>, order: seq<string>): (list: seq<Percentages>)
    requires forall k :: 0 <= k < |order| ==> order[k] in usages
    ensures |list| == |order| && forall k :: 0 <= k < |list| ==> list[k] == usages[order[k]]
  {
    seq(|order|, k requires 0 <= k < |order| => usages[order[k]])
  }

  /** Underutilized are the schedulable nodes with every resource at or below its lower threshold,
      overutilized those with some resource above its upper one, each with its own usage, and no
      node is both. */
  ghost predicate Grouped(usages: map<string, Percentages>, lower: Percentages, upper: Percentages,
                          unschedulable: string -> bool, low: map<string, Percentages>, high: map<string, Percentages>)
  {
    && (forall n :: n in low <==>
          n in usages && !unschedulable(n) && forall r :: r in lower ==> At(usages[n], r) <= lower[r])
    && (forall n :: n in high <==> n in usages && exists r :: r in upper && upper[r] < At(usages[n], r))
    && (forall n :: n in low ==> low[n] == usages[n])
    && (forall n :: n in high ==> high[n] == usages[n])
    && low.Keys !! high.Keys
  }

  /** A schedulable node in neither group lies in between: every resource at or below its upper
      threshold, and some resource above its lower one. */
  lemma NeitherIsBetween(usages: map<string, Percentages>, lower: Percentages, upper: Percentages,
                         unschedulable: string -> bool, low: map<string, Percentages>, high: map<string, Percentages>,
                         n: string)
    requires Grouped(usages, lower, upper, unschedulable, low, high) && n in usages && !unschedulable(n)
    ensures n !in low && n !in high <==>
            && (forall r :: r in upper ==> At(usages[n], r) <= upper[r])
            && (exists r :: r in lower && At(usages[n], r) > lower[r])
  {
  }

  /** The two groups as the tests give them, under first and over second. */
  lemma GroupedByTests(usages: map<string, Percentages>, lower: Percentages, upper: Percentages,
                       unschedulable: string -> bool, low: map<string, Percentages>, high: map<string, Percentages>)
    requires lower.Keys == upper.Keys && forall r :: r in lower ==> lower[r] <= upper[r]
    requires low == map n | n in usages && !unschedulable(n) && IsNodeBelowThreshold(usages[n], lower) :: usages[n]
    requires high == map n | n in usages && !(!unschedulable(n) && IsNodeBelowThreshold(usages[n], lower))
                               && IsNodeAboveThreshold(usages[n], upper) :: usages[n]
    ensures Grouped(usages, lower, upper, unschedulable, low, high)
  {
    forall n | n in usages { NeverUnderAndOver(usages[n], lower, upper); }
  }

  /** The classification of the plugin. */
  method TwoTests(usages: map<string, Percentages>, lower: Percentages, upper: Percentages, unschedulable: string -> bool)
    returns (low: map<string, Percentages>, high: map<string, Percentages>)
    requires lower.Keys == upper.Keys && forall r :: r in lower ==> lower[r] <= upper[r]
    ensures Grouped(usages, lower, upper, unschedulable, low, high)
  {
    var under: Classifier := (n, usage, threshold) => !unschedulable(n) && IsNodeBelowThreshold(usage, threshold);
    var over: Classifier := (n, usage, threshold) => IsNodeAboveThreshold(usage, threshold);
    var limits := map n | n in usages :: [lower, upper];
    var groups := Classify(usages, limits, [under, over]);
    low, high := groups[0], groups[1];
    TwoGroups(usages, lower, upper, under, over);
    GroupedByTests(usages, lower, upper, unschedulable, low, high);
  }

  lemma NotAllUnder(usages: map<string, Percentages>, order: seq<string>, lowSpan: Percentages, highSpan: Percentages,
                    unschedulable: string -> bool, lower: Percentages, upper: Percentages,
                    low: map<string, Percentages>, high: map<string, Percentages>, r: string)
    requires forall k :: 0 <= k < |order| ==> order[k] in usages
    requires Around(Listed(usages, order), lowSpan, highSpan, lower, upper)
    requires Grouped(usages, lower, upper, unschedulable, low, high)
    requires r in lowSpan && lowSpan[r] > 0.0 && AverageOf(Listed(usages, order), r) > 0.0
    ensures low.Keys != usages.Keys
  {
    var list := Listed(usages, order);
    assert Count(list, r) > 0 && r in lower;
    SomeNodeIsNotUnder(list, lower, r, lowSpan[r]);
    var k :| 0 <= k < |list| && !IsNodeBelowThreshold(list[k], lower);
    assert order[k] in usages.Keys && order[k] !in low.Keys;
  }

  /** Deviation mode from end to end, the usages met in the map order `order`: the thresholds lie
      around the average, the groups are exactly the nodes on either side with their own usage,
      they do not overlap, and a resource in use with a positive low span keeps the whole cluster
      from being underutilized. */
  method ClassifyRelative(usages: map<string, Percentages>, order: seq<string>, lowSpan: Percentages, highSpan: Percentages,
                          unschedulable: string -> bool)
    returns (low: map<string, Percentages>, high: map<string, Percentages>, lower: Percentages, upper: Percentages)
    requires forall k :: 0 <= k < |order| ==> order[k] in usages
    requires (forall n :: n in usages ==> n in order) && Distinct(order)
    requires forall r :: r in lowSpan ==> lowSpan[r] >= 0.0
    requires forall r :: r in highSpan ==> highSpan[r] >= 0.0
    ensures Around(Listed(usages, order), lowSpan, highSpan, lower, upper)
    ensures Grouped(usages, lower, upper, unschedulable, low, high)
    ensures forall r :: r in lowSpan && lowSpan[r] > 0.0 && AverageOf(Listed(usages, order), r) > 0.0 ==>
              low.Keys != usages.Keys
  {
    var average;
    average, lower, upper := AssessRelative(Listed(usages, order), lowSpan, highSpan);
    low, high := TwoTests(usages, lower, upper, unschedulable);
    forall r | r in lowSpan && lowSpan[r] > 0.0 && AverageOf(Listed(usages, order), r) > 0.0
      ensures low.Keys != usages.Keys
    {
      NotAllUnder(usages, order, lowSpan, highSpan, unschedulable, lower, upper, low, high, r);
    }
  }
}
