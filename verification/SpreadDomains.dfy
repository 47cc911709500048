/** Topology-spread balancing over the pods themselves: the early exit, and the loop that moves
    pods between domains and marks them for eviction. */
module SpreadDomains {
  import opened Common
  import opened SpreadSizes

  const MAX_INT32: int := 0x7fff_ffff
  const MIN_INT32: int := -0x8000_0000

  function Sizes<P>(domains: seq<seq<P>>): (s: seq<nat>)
    ensures |s| == |domains| && forall k :: 0 <= k < |s| ==> s[k] == |domains[k]|
  {
    seq(|domains|, k requires 0 <= k < |domains| => |domains[k]|)
  }

  // ------------------------------------------------------------- early exit

  /** `topologyIsBalanced`, over the domain sizes in whatever order the map yields them.
      The running bounds start at the 32-bit extremes, so sizes must fit 32 bits. */
  method TopologyIsBalanced(sizes: seq<nat>, maxSkew: int) returns (balanced: bool)
    requires maxSkew >= 0
    requires forall k :: 0 <= k < |sizes| ==> sizes[k] <= MAX_INT32
    ensures balanced <==> WithinSkew(sizes, maxSkew)
  {
    var minSize, maxSize := MAX_INT32, MIN_INT32;
    for k := 0 to |sizes|
      invariant forall l :: 0 <= l < k ==> minSize <= sizes[l] <= maxSize
      invariant k > 0 ==> minSize in sizes[..k] && maxSize in sizes[..k]
      invariant k == 0 ==> minSize == MAX_INT32 && maxSize == MIN_INT32
      invariant k > 0 ==> maxSize - minSize <= maxSkew
    {
      if sizes[k] < minSize { minSize := sizes[k]; }
      if sizes[k] > maxSize { maxSize := sizes[k]; }
      assert sizes[..k + 1] == sizes[..k] + [sizes[k]];
      assert minSize in sizes[..k + 1] && maxSize in sizes[..k + 1];
      if maxSize - minSize > maxSkew {
        return false;
      }
    }
    return true;
  }

  // ------------------------------------------------------- choosing the pods

  /** The pods with the given fit verdict, in order. */
  function Pick<P>(s: seq<P>, fits: P -> bool, verdict: bool): seq<P> {
    if s == [] then []
    else (if fits(s[0]) == verdict then [s[0]] else []) + Pick(s[1..], fits, verdict)
  }

  /** The stable sort by "does not fit" before "fits". */
  function FitLast<P>(s: seq<P>, fits: P -> bool): seq<P> {
    Pick(s, fits, false) + Pick(s, fits, true)
  }

  lemma {:induction false} PicksSplit<P>(s: seq<P>, fits: P -> bool)
    ensures multiset(Pick(s, fits, false)) + multiset(Pick(s, fits, true)) == multiset(s)
  {
    if s != [] {
      assert s == [s[0]] + s[1..];
      PicksSplit(s[1..], fits);
    }
  }

  lemma {:induction false} PickMeans<P>(s: seq<P>, fits: P -> bool, verdict: bool)
    ensures forall k :: 0 <= k < |Pick(s, fits, verdict)| ==> fits(Pick(s, fits, verdict)[k]) == verdict
    ensures (forall k :: 0 <= k < |s| ==> fits(s[k]) == verdict) ==> Pick(s, fits, verdict) == s
    ensures (forall k :: 0 <= k < |s| ==> fits(s[k]) != verdict) ==> Pick(s, fits, verdict) == []
  {
    if s != [] {
      assert forall k :: 0 <= k < |s[1..]| ==> s[1..][k] == s[k + 1];
      PickMeans(s[1..], fits, verdict);
    }
  }

  /** Pods that fit nowhere come first. */
  ghost predicate FitOrdered<P>(s: seq<P>, fits: P -> bool) {
    forall k, l :: 0 <= k < l < |s| && fits(s[k]) ==> fits(s[l])
  }

  lemma FitLastOrders<P>(s: seq<P>, fits: P -> bool)
    ensures FitOrdered(FitLast(s, fits), fits)
    ensures multiset(FitLast(s, fits)) == multiset(s) && |FitLast(s, fits)| == |s|
  {
    PicksSplit(s, fits);
    PickMeans(s, fits, false);
    PickMeans(s, fits, true);
    assert |multiset(FitLast(s, fits))| == |multiset(s)|;
  }

  /** A list so ordered is left alone by the sort. */
  lemma {:induction false} FitLastStays<P>(s: seq<P>, fits: P -> bool)
    requires FitOrdered(s, fits)
    ensures FitLast(s, fits) == s
  {
    if s != [] {
      if fits(s[0]) {
        PickMeans(s, fits, true);
        PickMeans(s, fits, false);
      } else {
        FitLastStays(s[1..], fits);
        assert s == [s[0]] + s[1..];
        assert Pick(s, fits, false) == [s[0]] + Pick(s[1..], fits, false);
        assert Pick(s, fits, true) == Pick(s[1..], fits, true);
      }
    }
  }

  /** A domain's pods in order of fit, split into those kept and those taken. */
  ghost predicate SplitUp<P>(s: seq<P>, kept: seq<P>, taken: seq<P>, fits: P -> bool) {
    && FitLast(s, fits) == kept + taken && |kept| + |taken| == |s|
    && FitLast(kept, fits) == kept && multiset(kept) + multiset(taken) == multiset(s)
  }

  /** Taking the last `m` pods of the sorted domain loses and invents no pod, and takes a
      pod that fits nowhere only after every pod that fits. */
  lemma TakeSplits<P>(s: seq<P>, fits: P -> bool, m: nat)
    requires m <= |s|
    ensures |FitLast(s, fits)| == |s|
    ensures var t := FitLast(s, fits); var kept, taken := t[..|s| - m], t[|s| - m..];
            && SplitUp(s, kept, taken, fits)
            && ((exists p :: p in taken && !fits(p)) ==> forall p :: p in kept ==> !fits(p))
  {
    FitLastOrders(s, fits);
    var t := FitLast(s, fits);
    var kept, taken := t[..|s| - m], t[|s| - m..];
    assert t == kept + taken;
    FitLastStays(kept, fits);
  }

  // ------------------------------------------------------------ the loop

  /** Each pod lies in one domain, once. */
  ghost predicate OneHome<P(!new)>(domains: seq<seq<P>>) {
    && (forall k :: 0 <= k < |domains| ==> Distinct(domains[k]))
    && forall k, l, p :: 0 <= k < l < |domains| && p in domains[k] ==> p !in domains[l]
  }

  ghost function Members<P>(domains: seq<seq<P>>): set<P> {
    set k, p | 0 <= k < |domains| && p in domains[k] :: p
  }

  /** The pods moved out of a domain are the last ones in order, from `cut` on. */
  ghost predicate MovedFrom<P>(ordered: seq<P>, cut: nat, moved: seq<P>) {
    cut <= |ordered| && forall a :: 0 <= a < |ordered| ==> (ordered[a] in moved <==> a >= cut)
  }

  /** The domains with their pods in order of fit. */
  function Ordered<P>(domains: seq<seq<P>>, fits: P -> bool): (order: seq<seq<P>>)
    ensures |order| == |domains| && forall k :: 0 <= k < |order| ==> order[k] == FitLast(domains[k], fits)
  {
    seq(|domains|, k requires 0 <= k < |domains| => FitLast(domains[k], fits))
  }

  /** What has been moved: no pod twice, from each domain its last pods in order, and only from
      domains above the average. */
  ghost predicate MovedOut<P>(order: seq<seq<P>>, moved: seq<P>, cuts: seq<nat>, avg: real) {
    && |cuts| == |order| && Distinct(moved)
    && (forall k :: 0 <= k < |order| ==> MovedFrom(order[k], cuts[k], moved))
    && (forall k :: 0 <= k < |order| && cuts[k] < |order[k]| ==> |order[k]| as real > avg)
    && (forall p :: p in moved ==> p in Members(order))
  }

  /** Domains to the right of `i` hold what has not been moved out of them, in the same order once
      sorted; no pod leaves the domains. */
  ghost predicate Untouched<P>(order: seq<seq<P>>, now: seq<seq<P>>, i: nat, moved: seq<P>, cuts: seq<nat>,
                               fits: P -> bool, avg: real)
  {
    && |now| == |order| && MovedOut(order, moved, cuts, avg)
    && (forall k :: i < k < |now| ==> cuts[k] <= |order[k]| && FitLast(now[k], fits) == order[k][..cuts[k]])
    && Members(now) == Members(order)
  }

  /** Each domain is cut to the size it has now, if that is smaller; those left of `j` lost nothing. */
  ghost predicate CutToSize<P>(order: seq<seq<P>>, now: seq<seq<P>>, j: int, cuts: seq<nat>) {
    && |now| == |order| == |cuts|
    && (forall k :: 0 <= k < |order| ==> cuts[k] == Min(|order[k]|, |now[k]|))
    && (forall k :: 0 <= k < |order| && k < j ==> cuts[k] == |order[k]|)
  }

  lemma MembersAfterMove<P>(now: seq<seq<P>>, i: nat, j: nat, kept: seq<P>, taken: seq<P>)
    requires i < |now| && j < |now| && i != j
    requires multiset(kept) + multiset(taken) == multiset(now[j])
    ensures Members(now[j := kept][i := now[i] + taken]) == Members(now)
  {
    var after := now[j := kept][i := now[i] + taken];
    forall p | p in Members(now)
      ensures p in Members(after)
    {
      var k :| 0 <= k < |now| && p in now[k];
      if k == j {
        assert p in multiset(now[j]);
        assert p in after[j] || p in after[i];
      } else {
        assert p in after[k];
      }
    }
    forall p | p in Members(after)
      ensures p in Members(now)
    {
      var k :| 0 <= k < |after| && p in after[k];
      if p in kept || p in taken {
        assert p in multiset(kept) + multiset(taken);
        assert p in now[j];
      } else {
        assert p in now[k];
      }
    }
  }

  lemma SameMembers<P(!new)>(s: seq<P>, t: seq<P>)
    requires multiset(s) == multiset(t)
    ensures forall p :: p in s <==> p in t
    ensures Distinct(s) <==> Distinct(t)
  {
    DistinctCounts(s);
    DistinctCounts(t);
    assert forall p :: p in s <==> p in multiset(s);
    assert forall p :: p in t <==> p in multiset(t);
  }

  /** Cutting `m` more pods off the end of an ordered domain. */
  lemma CutMore<P(!new)>(ordered: seq<P>, cut: nat, moved: seq<P>, m: nat)
    requires Distinct(ordered) && Distinct(moved) && MovedFrom(ordered, cut, moved) && m <= cut
    ensures MovedFrom(ordered, cut - m, moved + ordered[cut - m..cut]) && Distinct(moved + ordered[cut - m..cut])
  {
    var taken := ordered[cut - m..cut];
    var all := moved + taken;
    assert forall a :: 0 <= a < |taken| ==> taken[a] == ordered[cut - m + a];
    forall a | 0 <= a < |ordered|
      ensures ordered[a] in all <==> a >= cut - m
    {
      if cut - m <= a < cut { assert taken[a - (cut - m)] == ordered[a]; }
    }
    forall k, l | 0 <= k < l < |all|
      ensures all[k] != all[l]
    {
      if k < |moved| <= l {
        assert all[k] in moved && all[l] == ordered[cut - m + l - |moved|];
      }
    }
  }

  /** Pods of another domain do not change what was moved out of this one. */
  lemma OtherDomains<P(!new)>(ordered: seq<P>, cut: nat, moved: seq<P>, taken: seq<P>)
    requires MovedFrom(ordered, cut, moved) && forall p :: p in taken ==> p !in ordered
    ensures MovedFrom(ordered, cut, moved + taken)
  {
    assert forall a :: 0 <= a < |ordered| ==> ordered[a] in ordered;
  }

  lemma MovedOutMore<P(!new)>(order: seq<seq<P>>, moved: seq<P>, cuts: seq<nat>, avg: real, j: nat, m: nat)
    requires OneHome(order) && MovedOut(order, moved, cuts, avg) && j < |order| && m <= cuts[j] <= |order[j]|
    requires |order[j]| as real > avg
    ensures MovedOut(order, moved + order[j][cuts[j] - m..cuts[j]], cuts[j := cuts[j] - m], avg)
  {
    var taken := order[j][cuts[j] - m..cuts[j]];
    CutMore(order[j], cuts[j], moved, m);
    assert forall p :: p in taken ==> p in order[j];
    forall k | 0 <= k < |order| && k != j
      ensures MovedFrom(order[k], cuts[k], moved + taken)
    {
      OtherDomains(order[k], cuts[k], moved, taken);
    }
  }

  lemma CutShorter<P>(whole: seq<P>, cut: nat, kept: seq<P>, taken: seq<P>)
    requires cut <= |whole| && whole[..cut] == kept + taken
    ensures |taken| <= cut && taken == whole[cut - |taken|..cut] && kept == whole[..cut - |taken|]
  {
    assert |kept + taken| == cut;
    assert kept == (kept + taken)[..|kept|] && taken == (kept + taken)[|kept|..];
  }

  lemma UntouchedKept<P(!new)>(order: seq<seq<P>>, now: seq<seq<P>>, i: nat, j: nat, kept: seq<P>, taken: seq<P>,
                               moved: seq<P>, cuts: seq<nat>, fits: P -> bool, avg: real)
    requires OneHome(order) && Untouched(order, now, i, moved, cuts, fits, avg)
    requires i < j < |now| && |now[j]| as real > avg && SplitUp(now[j], kept, taken, fits)
    ensures |taken| <= cuts[j] == |now[j]|
    ensures Untouched(order, now[j := kept][i := now[i] + taken], i, moved + taken, cuts[j := cuts[j] - |taken|], fits, avg)
  {
    CutShorter(order[j], cuts[j], kept, taken);
    assert |now[j]| == cuts[j];
    MovedOutMore(order, moved, cuts, avg, j, |taken|);
    MembersAfterMove(now, i, j, kept, taken);
  }

  lemma CutToSizeKept<P>(order: seq<seq<P>>, now: seq<seq<P>>, i: nat, j: nat, kept: seq<P>, taken: seq<P>, cuts: seq<nat>)
    requires CutToSize(order, now, j, cuts) && i < j < |now| && |kept| + |taken| == |now[j]| == cuts[j]
    ensures CutToSize(order, now[j := kept][i := now[i] + taken], j, cuts[j := |kept|])
  {
  }

  lemma UntouchedFromNext<P>(order: seq<seq<P>>, now: seq<seq<P>>, i: nat, moved: seq<P>, cuts: seq<nat>,
                             fits: P -> bool, avg: real)
    requires Untouched(order, now, i, moved, cuts, fits, avg)
    ensures Untouched(order, now, i + 1, moved, cuts, fits, avg)
  {
  }

  /** The pods marked: those moved, less the ones that fit nowhere when fit is asked for. */
  function Marked<P(==)>(moved: seq<P>, nodeFit: bool, fits: P -> bool): set<P> {
    set p | p in moved && (!nodeFit || fits(p))
  }

  lemma MarkedMore<P>(before: set<P>, a: seq<P>, b: seq<P>, nodeFit: bool, fits: P -> bool)
    ensures before + Marked(a, nodeFit, fits) + Marked(b, nodeFit, fits) == before + Marked(a + b, nodeFit, fits)
  {
  }

  /** Order a domain's pods by fit and cut off the last `m`. */
  method TakeLast<P(==)>(s: seq<P>, fits: P -> bool, m: nat) returns (kept: seq<P>, taken: seq<P>)
    requires m <= |s|
    ensures SplitUp(s, kept, taken, fits) && |taken| == m
    ensures (exists p :: p in taken && !fits(p)) ==> forall p :: p in kept ==> !fits(p)
  {
    TakeSplits(s, fits, m);
    var ordered := FitLast(s, fits);
    kept, taken := ordered[..|ordered| - m], ordered[|ordered| - m..];
  }

  lemma SizesAfterMove<P>(now: seq<seq<P>>, i: nat, j: nat, kept: seq<P>, taken: seq<P>)
    requires i < |now| && j < |now| && i != j && |kept| + |taken| == |now[j]|
    ensures Sizes(now[j := kept][i := now[i] + taken]) == Transfer(Sizes(now), j, i, |taken|)
  {
  }

  /** Order the donor's pods by fit, cut off the last `m`, append them to the receiver. */
  method MoveFrom<P(==,!new)>(ghost order: seq<seq<P>>, now: seq<seq<P>>, i: nat, j: nat, m: nat,
                              fits: P -> bool, ghost moved: seq<P>, ghost cuts: seq<nat>, ghost avg: real)
    returns (after: seq<seq<P>>, taken: seq<P>)
    requires OneHome(order) && Untouched(order, now, i, moved, cuts, fits, avg)
    requires i < j < |now| && |now[j]| as real > avg && m <= |now[j]| && CutToSize(order, now, j, cuts)
    ensures m <= cuts[j] && Untouched(order, after, i, moved + taken, cuts[j := cuts[j] - m], fits, avg)
    ensures CutToSize(order, after, j, cuts[j := cuts[j] - m])
    ensures |taken| == m && Sizes(after) == Transfer(Sizes(now), j, i, m)
    ensures (exists p :: p in taken && !fits(p)) ==> forall p :: p in after[j] ==> !fits(p)
  {
    var kept;
    kept, taken := TakeLast(now[j], fits, m);
    UntouchedKept(order, now, i, j, kept, taken, moved, cuts, fits, avg);
    CutToSizeKept(order, now, i, j, kept, taken, cuts);
    SizesAfterMove(now, i, j, kept, taken);
    after := now[j := kept][i := now[i] + taken];
  }

  /** What the pass on sizes does, by the number of pods to move. */
  lemma PassOnSizes(c: Config, avg: real, maxSkew: int, j: nat, m: int)
    requires c.Valid() && c.i < c.j && avg >= 0.0 && maxSkew >= 1 && j == Donor(c, avg)
    requires m == if c.sizes[j] - c.sizes[c.i] <= maxSkew then 0 else MovePods(c.sizes[c.i], c.sizes[j], avg, maxSkew)
    ensures m <= 0 ==> Iterate(c, avg, maxSkew) == Config(c.sizes, c.i + 1, j, c.moved)
    ensures m > 0 ==> c.i < j && c.sizes[j] as real > avg && m <= c.sizes[j] &&
                      Iterate(c, avg, maxSkew) == Config(Transfer(c.sizes, j, c.i, m), c.i, j, c.moved + m)
  {
    if m > 0 {
      MoveBounds(c.sizes[c.i], c.sizes[j], avg, maxSkew);
    }
  }

  /** One pass of the loop body. */
  method Pass<P(==,!new)>(ghost order: seq<seq<P>>, now: seq<seq<P>>, i0: nat, j0: nat, ghost moved: seq<P>,
                          ghost cuts0: seq<nat>, avg: real, maxSkew: int, fits: P -> bool)
    returns (after: seq<seq<P>>, i: nat, j: int, taken: seq<P>, ghost cuts: seq<nat>)
    requires OneHome(order) && Untouched(order, now, i0, moved, cuts0, fits, avg)
    requires i0 < j0 < |now| && avg >= 0.0 && maxSkew >= 1 && CutToSize(order, now, j0, cuts0)
    ensures Untouched(order, after, i, moved + taken, cuts, fits, avg) && CutToSize(order, after, j, cuts)
    ensures Config(Sizes(after), i, j, |moved + taken|) ==
            Iterate(Config(Sizes(now), i0, j0, |moved|), avg, maxSkew)
  {
    after, i, j, taken, cuts := now, i0, j0, [], cuts0;
    assert moved + [] == moved;
    if |now[j]| as real <= avg {
      j := j - 1;
    }
    var skew := |now[j]| - |now[i]|;
    var movePods := if skew <= maxSkew then 0 else MovePods(|now[i]|, |now[j]|, avg, maxSkew);
    PassOnSizes(Config(Sizes(now), i0, j0, |moved|), avg, maxSkew, j, movePods);
    if movePods <= 0 {
      UntouchedFromNext(order, now, i, moved, cuts, fits, avg);
      i := i + 1;
      return;
    }
    after, taken := MoveFrom(order, now, i, j, movePods, fits, moved, cuts, avg);
    cuts := cuts[j := cuts[j] - movePods];
  }

  lemma NothingMoved<P(!new)>(domains: seq<seq<P>>, i: nat, fits: P -> bool, avg: real)
    requires OneHome(domains)
    ensures OneHome(Ordered(domains, fits))
    ensures Untouched(Ordered(domains, fits), domains, i, [], Sizes(domains), fits, avg)
    ensures CutToSize(Ordered(domains, fits), domains, |domains| - 1, Sizes(domains))
  {
    var order := Ordered(domains, fits);
    forall k | 0 <= k < |domains|
      ensures Distinct(order[k]) && |order[k]| == |domains[k]| && forall p :: p in order[k] <==> p in domains[k]
    {
      FitLastOrders(domains[k], fits);
      SameMembers(order[k], domains[k]);
    }
  }

  /** The loop on sizes, run from `c`, ends in `end`. */
  ghost predicate EndsIn(c: Config, avg: real, maxSkew: int, end: Config) {
    c.Valid() && avg >= 0.0 && maxSkew >= 1 && Run(c, avg, maxSkew) == end
  }

  lemma Ended(c: Config, avg: real, maxSkew: int, end: Config)
    requires EndsIn(c, avg, maxSkew, end) && c.i >= c.j
    ensures end == c
  {
  }

  /** One pass brings the loop closer to the same end. */
  method Advance<P(==,!new)>(ghost order: seq<seq<P>>, now: seq<seq<P>>, i0: nat, j0: nat, ghost moved: seq<P>,
                             ghost cuts0: seq<nat>, avg: real, maxSkew: int, fits: P -> bool, ghost end: Config)
    returns (after: seq<seq<P>>, i: nat, j: int, taken: seq<P>, ghost cuts: seq<nat>)
    requires OneHome(order) && Untouched(order, now, i0, moved, cuts0, fits, avg) && i0 < j0 < |now|
    requires CutToSize(order, now, j0, cuts0)
    requires EndsIn(Config(Sizes(now), i0, j0, |moved|), avg, maxSkew, end)
    ensures Untouched(order, after, i, moved + taken, cuts, fits, avg) && CutToSize(order, after, j, cuts)
    ensures EndsIn(Config(Sizes(after), i, j, |moved + taken|), avg, maxSkew, end)
    ensures j - i < j0 - i0 || (i == i0 && j == j0 && |after[j]| < |now[j0]|)
  {
    after, i, j, taken, cuts := Pass(order, now, i0, j0, moved, cuts0, avg, maxSkew, fits);
  }

  /** The loop of `balanceDomains`. */
  method Loop<P(==,!new)>(ghost order: seq<seq<P>>, domains: seq<seq<P>>, avg: real, maxSkew: int, nodeFit: bool,
                          fits: P -> bool, podsForEviction: set<P>, ghost end: Config)
    returns (final: seq<seq<P>>, evict: set<P>, moved: seq<P>, ghost cuts: seq<nat>)
    requires OneHome(order) && Untouched(order, domains, 0, [], Sizes(domains), fits, avg)
    requires CutToSize(order, domains, |domains| - 1, Sizes(domains))
    requires EndsIn(Start(Sizes(domains)), avg, maxSkew, end)
    ensures Sizes(final) == end.sizes && |moved| == end.moved
    ensures MovedOut(order, moved, cuts, avg) && CutToSize(order, final, 0, cuts) && Members(final) == Members(order)
    ensures evict == podsForEviction + Marked(moved, nodeFit, fits)
  {
    final, evict, moved, cuts := domains, podsForEviction, [], Sizes(domains);
    var i, j := 0, |domains| - 1;
    ghost var c := Start(Sizes(domains));
    while i < j
      invariant 0 <= i && j < |final| && c == Config(Sizes(final), i, j, |moved|)
      invariant Untouched(order, final, i, moved, cuts, fits, avg) && CutToSize(order, final, j, cuts)
      invariant EndsIn(c, avg, maxSkew, end)
      invariant evict == podsForEviction + Marked(moved, nodeFit, fits)
      decreases j - i, if i < j then |final[j]| else 0
    {
      var taken;
      final, i, j, taken, cuts := Advance(order, final, i, j, moved, cuts, avg, maxSkew, fits, end);
      MarkedMore(podsForEviction, moved, taken, nodeFit, fits);
      evict, moved := evict + Marked(taken, nodeFit, fits), moved + taken;
      c := Config(Sizes(final), i, j, |moved|);
    }
    Ended(c, avg, maxSkew, end);
  }

  /** `balanceDomains` on the domains in ascending order of size (ties in any order).
      `fits` says whether a pod fits some other node below the average; it is fixed before
      the loop. `moved` lists the pods in the order they change domain; out of domain k these are
      the pods from `cuts[k]` on, in order of fit, as many as its size falls by. */
  method BalanceDomains<P(==,!new)>(domains: seq<seq<P>>, maxSkew: int, nodeFit: bool, fits: P -> bool,
                                    podsForEviction: set<P>)
    returns (final: seq<seq<P>>, evict: set<P>, moved: seq<P>, ghost cuts: seq<nat>)
    requires maxSkew >= 1 && Ascending(Sizes(domains)) && OneHome(domains)
    ensures Sizes(final) == Balanced(Sizes(domains), maxSkew).sizes
    ensures |moved| == Balanced(Sizes(domains), maxSkew).moved
    ensures MovedOut(Ordered(domains, fits), moved, cuts, Average(Sizes(domains)))
    ensures CutToSize(Ordered(domains, fits), final, 0, cuts)
    ensures Members(final) == Members(domains)
    ensures forall p :: p in evict <==> p in podsForEviction || (p in moved && (nodeFit ==> fits(p)))
  {
    var avg := Average(Sizes(domains));
    SumNonNegative(Sizes(domains));
    NothingMoved(domains, 0, fits, avg);
    final, evict, moved, cuts := Loop(Ordered(domains, fits), domains, avg, maxSkew, nodeFit, fits, podsForEviction,
                                      Balanced(Sizes(domains), maxSkew));
  }
}
