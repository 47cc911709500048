/** One topology-spread constraint from end to end: count the pods into domains, skip if
    balanced, otherwise sort the domains and run the loop. */
module SpreadBalance {
  import opened Common
  import Sorting
  import opened SpreadSizes
  import opened SpreadDomains
  import opened SpreadTheorems

  /** `domain` is the node's value for the constraint's topology key, if it has one;
      `included` is the verdict of the constraint's node inclusion policies. */
  datatype Node = Node(domain: Option<string>, included: bool)

  /** `selected` is the verdict of the constraint's label selector on the pod. */
  datatype Pod = Pod(namespace: string, name: string, node: string, terminating: bool, selected: bool,
                     evictable: bool, hasSelectorOrAffinity: bool, priority: Option<int>)

  // ------------------------------------------------------------- counting

  /** The domain a pod is counted in, if it is counted. */
  function DomainOf(nodes: map<string, Node>, p: Pod): Option<string> {
    if !p.terminating && p.selected && p.node in nodes then nodes[p.node].domain else None
  }

  /** The pod is counted in domain `d`: it is not terminating, the selector matches it, and its node
      is known and has that domain. */
  ghost predicate CountedIn(nodes: map<string, Node>, p: Pod, d: string) {
    !p.terminating && p.selected && p.node in nodes && nodes[p.node].domain == Some(d)
  }

  function InDomain(nodes: map<string, Node>, pods: seq<Pod>, d: string): seq<Pod> {
    if pods == [] then []
    else InDomain(nodes, pods[..|pods| - 1], d)
         + if DomainOf(nodes, pods[|pods| - 1]) == Some(d) then [pods[|pods| - 1]] else []
  }

  /** The number of pods that are counted at all. */
  function Counted(nodes: map<string, Node>, pods: seq<Pod>): nat {
    if pods == [] then 0
    else Counted(nodes, pods[..|pods| - 1]) + if DomainOf(nodes, pods[|pods| - 1]).Some? then 1 else 0
  }

  function Populated(nodes: map<string, Node>): set<string> {
    set n | n in nodes && nodes[n].included && nodes[n].domain.Some? :: nodes[n].domain.value
  }

  /** The map after counting: all domains of included nodes, even when empty, then one pod
      after another appended to its own domain. */
  function Topologies(nodes: map<string, Node>, pods: seq<Pod>): map<string, seq<Pod>> {
    if pods == [] then map d | d in Populated(nodes) :: []
    else Append(nodes, Topologies(nodes, pods[..|pods| - 1]), pods[|pods| - 1])
  }

  function Append(nodes: map<string, Node>, t: map<string, seq<Pod>>, p: Pod): map<string, seq<Pod>> {
    match DomainOf(nodes, p)
    case None => t
    case Some(d) => t[d := (if d in t then t[d] else []) + [p]]
  }

  /** The counting loop. */
  method CountDomains(nodes: map<string, Node>, pods: seq<Pod>) returns (topologies: map<string, seq<Pod>>, sumPods: nat)
    ensures topologies == Topologies(nodes, pods) && sumPods == Counted(nodes, pods)
  {
    topologies, sumPods := map d | d in Populated(nodes) :: [], 0;
    for k := 0 to |pods|
      invariant topologies == Topologies(nodes, pods[..k])
      invariant sumPods == Counted(nodes, pods[..k])
    {
      assert pods[..k + 1][..k] == pods[..k];
      topologies := Append(nodes, topologies, pods[k]);
      if DomainOf(nodes, pods[k]).Some? {
        sumPods := sumPods + 1;
      }
    }
    assert pods[..|pods|] == pods;
  }

  lemma OneMoreCounted(nodes: map<string, Node>, pods: seq<Pod>, p: Pod)
    ensures Topologies(nodes, pods + [p]) == Append(nodes, Topologies(nodes, pods), p)
    ensures Counted(nodes, pods + [p]) == Counted(nodes, pods) + if DomainOf(nodes, p).Some? then 1 else 0
  {
    assert (pods + [p])[..|pods|] == pods;
  }

  ghost predicate Occupied(nodes: map<string, Node>, pods: seq<Pod>, d: string) {
    exists p :: p in pods && CountedIn(nodes, p, d)
  }

  lemma OneMoreOccupied(nodes: map<string, Node>, pods: seq<Pod>, p: Pod, d: string)
    ensures Occupied(nodes, pods + [p], d) <==> Occupied(nodes, pods, d) || DomainOf(nodes, p) == Some(d)
  {
    if Occupied(nodes, pods, d) {
      var q :| q in pods && CountedIn(nodes, q, d);
      assert q in pods + [p];
    }
    if DomainOf(nodes, p) == Some(d) {
      assert p in pods + [p] && CountedIn(nodes, p, d);
    }
  }

  /** What counting amounts to: each domain holds exactly its own pods, in order. */
  lemma {:induction false} TopologiesHold(nodes: map<string, Node>, pods: seq<Pod>, d: string)
    ensures d in Topologies(nodes, pods) <==>
            || (exists n :: n in nodes && nodes[n].included && nodes[n].domain == Some(d))
            || (exists p :: p in pods && CountedIn(nodes, p, d))
    ensures InDomain(nodes, pods, d) == if d in Topologies(nodes, pods) then Topologies(nodes, pods)[d] else []
    decreases |pods|
  {
    if pods != [] {
      var front, last := pods[..|pods| - 1], pods[|pods| - 1];
      assert pods == front + [last];
      TopologiesHold(nodes, front, d);
      OneMoreCounted(nodes, front, last);
      OneMoreOccupied(nodes, front, last, d);
    }
  }

  // -------------------------------------------------- the domains as a list

  /** The pod lists of the domains `order`, each sorted by `arrange`. */
  function PodLists(t: map<string, seq<Pod>>, order: seq<string>, arrange: seq<Pod> -> seq<Pod>): (s: seq<seq<Pod>>)
    requires forall d :: d in order ==> d in t
    ensures |s| == |order| && forall k :: 0 <= k < |s| ==> s[k] == arrange(t[order[k]])
  {
    seq(|order|, k requires 0 <= k < |order| => arrange(t[order[k]]))
  }

  ghost predicate AscendingBySize(t: map<string, seq<Pod>>, order: seq<string>)
    requires forall d :: d in order ==> d in t
  {
    forall k, l :: 0 <= k < l < |order| ==> |t[order[k]]| <= |t[order[l]]|
  }

  lemma InsertAscends(t: map<string, seq<Pod>>, order: seq<string>, at: nat, d: string)
    requires d in t && (forall k :: 0 <= k < |order| ==> order[k] in t) && at <= |order|
    requires forall k, l :: 0 <= k < l < |order| ==> |t[order[k]]| <= |t[order[l]]|
    requires forall k :: 0 <= k < at ==> |t[order[k]]| < |t[d]|
    requires at < |order| ==> |t[d]| <= |t[order[at]]|
    ensures var longer := order[..at] + [d] + order[at..];
            && (forall k :: 0 <= k < |longer| ==> longer[k] in t)
            && forall k, l :: 0 <= k < l < |longer| ==> |t[longer[k]]| <= |t[longer[l]]|
  {
    var longer := order[..at] + [d] + order[at..];
    forall k | 0 <= k < |longer|
      ensures longer[k] == (if k < at then order[k] else if k == at then d else order[k - 1])
    {
    }
  }

  lemma InsertMembers(order: seq<string>, at: nat, d: string)
    requires at <= |order|
    ensures var longer := order[..at] + [d] + order[at..];
            && multiset(longer) == multiset(order) + multiset{d}
            && forall e :: e in longer <==> e in order || e == d
  {
    var longer := order[..at] + [d] + order[at..];
    assert order == order[..at] + order[at..];
    forall e
      ensures e in longer <==> e in order || e == d
    {
      assert e in longer <==> e in multiset(longer);
    }
  }

  method InsertBySize(t: map<string, seq<Pod>>, order: seq<string>, d: string) returns (longer: seq<string>)
    requires d in t && (forall e :: e in order ==> e in t) && AscendingBySize(t, order)
    ensures multiset(longer) == multiset(order) + multiset{d}
    ensures forall e :: e in longer <==> e in order || e == d
    ensures AscendingBySize(t, longer)
  {
    var at := 0;
    while at < |order| && |t[order[at]]| < |t[d]|
      invariant 0 <= at <= |order|
      invariant forall k :: 0 <= k < at ==> |t[order[k]]| < |t[d]|
    {
      at := at + 1;
    }
    InsertAscends(t, order, at, d);
    InsertMembers(order, at, d);
    longer := order[..at] + [d] + order[at..];
  }

  lemma OneMoreKey(order: seq<string>, longer: seq<string>, done: set<string>, d: string)
    requires multiset(order) == multiset(done) && d !in done
    requires multiset(longer) == multiset(order) + multiset{d}
    ensures multiset(longer) == multiset(done + {d})
  {
  }

  /** `sortDomains`: the domains, met in any map order, listed by ascending size. */
  method SortDomains(t: map<string, seq<Pod>>) returns (order: seq<string>)
    ensures multiset(order) == multiset(t.Keys)
    ensures forall d :: d in order <==> d in t
    ensures AscendingBySize(t, order)
  {
    var todo := t.Keys;
    ghost var done: set<string> := {};
    order := [];
    while todo != {}
      invariant done + todo == t.Keys && done !! todo
      invariant multiset(order) == multiset(done)
      invariant forall d :: d in order <==> d in done
      invariant AscendingBySize(t, order)
      decreases todo
    {
      var d :| d in todo;
      var longer := InsertBySize(t, order, d);
      OneMoreKey(order, longer, done, d);
      order, todo, done := longer, todo - {d}, done + {d};
    }
    assert done == t.Keys;
  }

  // ------------------------------------------------- what counting guarantees

  lemma {:induction false} InDomainCounts(nodes: map<string, Node>, pods: seq<Pod>, d: string, p: Pod)
    ensures multiset(InDomain(nodes, pods, d))[p] == if DomainOf(nodes, p) == Some(d) then multiset(pods)[p] else 0
    decreases |pods|
  {
    if pods != [] {
      var front, last := pods[..|pods| - 1], pods[|pods| - 1];
      assert pods == front + [last];
      InDomainCounts(nodes, front, d, p);
    }
  }

  /** Pods listed once are in one domain, once. */
  lemma ListedOnceHasOneHome(nodes: map<string, Node>, pods: seq<Pod>, order: seq<string>, lists: seq<seq<Pod>>)
    requires Distinct(pods) && Distinct(order) && |lists| == |order|
    requires forall k :: 0 <= k < |lists| ==> multiset(lists[k]) == multiset(InDomain(nodes, pods, order[k]))
    ensures OneHome(lists)
  {
    DistinctCounts(pods);
    forall k | 0 <= k < |lists|
      ensures Distinct(lists[k])
    {
      forall p
        ensures multiset(lists[k])[p] <= 1
      {
        InDomainCounts(nodes, pods, order[k], p);
      }
      DistinctCounts(lists[k]);
    }
    forall k, l, p | 0 <= k < l < |lists| && p in lists[k]
      ensures p !in lists[l]
    {
      InDomainCounts(nodes, pods, order[k], p);
      InDomainCounts(nodes, pods, order[l], p);
      assert multiset(lists[k])[p] > 0;
      assert multiset(lists[l])[p] == 0;
    }
  }

  lemma ListHolds(nodes: map<string, Node>, pods: seq<Pod>, d: string, list: seq<Pod>, p: Pod)
    requires multiset(list) == multiset(InDomain(nodes, pods, d))
    ensures p in list <==> p in pods && CountedIn(nodes, p, d)
  {
    InDomainCounts(nodes, pods, d, p);
    assert p in list <==> multiset(list)[p] > 0;
    assert p in pods <==> multiset(pods)[p] > 0;
  }

  /** The lists hold exactly the pods that are counted. */
  lemma ListsHoldCounted(nodes: map<string, Node>, pods: seq<Pod>, order: seq<string>, lists: seq<seq<Pod>>, p: Pod)
    requires |lists| == |order|
    requires forall k :: 0 <= k < |lists| ==> multiset(lists[k]) == multiset(InDomain(nodes, pods, order[k]))
    requires forall k :: 0 <= k < |pods| && DomainOf(nodes, pods[k]).Some? ==> DomainOf(nodes, pods[k]).value in order
    ensures p in Members(lists) <==> p in pods && exists d :: CountedIn(nodes, p, d)
  {
    if p in Members(lists) {
      var k :| 0 <= k < |lists| && p in lists[k];
      ListHolds(nodes, pods, order[k], lists[k], p);
    }
    if p in pods && exists d :: CountedIn(nodes, p, d) {
      var l :| 0 <= l < |pods| && pods[l] == p;
      var k :| 0 <= k < |order| && order[k] == DomainOf(nodes, p).value;
      ListHolds(nodes, pods, order[k], lists[k], p);
    }
  }

  lemma OneMoreInDomain(nodes: map<string, Node>, pods: seq<Pod>, last: Pod, d: string)
    ensures |InDomain(nodes, pods + [last], d)| ==
            |InDomain(nodes, pods, d)| + if DomainOf(nodes, last) == Some(d) then 1 else 0
  {
    assert (pods + [last])[..|pods|] == pods;
  }

  lemma OneMoreSummed(before: seq<nat>, sizes: seq<nat>, values: seq<string>, d: Option<string>)
    requires |sizes| == |before| == |values|
    requires forall k :: 0 <= k < |sizes| ==> sizes[k] == before[k] + if d == Some(values[k]) then 1 else 0
    requires Distinct(values)
    requires d.Some? ==> d.value in values
    ensures Sum(sizes) == Sum(before) + if d.Some? then 1 else 0
  {
    if d.Some? {
      var k :| 0 <= k < |values| && values[k] == d.value;
      var after := before[k := before[k] + 1];
      assert forall l :: 0 <= l < |values| && l != k ==> values[l] != values[k];
      assert forall l :: 0 <= l < |sizes| ==> sizes[l] == after[l];
      assert sizes == after;
      Replace(before, k, before[k] + 1, 0);
    } else {
      assert sizes == before;
    }
  }

  /** The sum the average is taken of is the total over the domains. */
  lemma {:induction false} CountedIsSum(nodes: map<string, Node>, pods: seq<Pod>, sizes: seq<nat>, values: seq<string>)
    requires |sizes| == |values|
    requires forall k :: 0 <= k < |sizes| ==> sizes[k] == |InDomain(nodes, pods, values[k])|
    requires Distinct(values)
    requires forall k :: 0 <= k < |pods| && DomainOf(nodes, pods[k]).Some? ==> DomainOf(nodes, pods[k]).value in values
    ensures Sum(sizes) == Counted(nodes, pods)
    decreases |pods|
  {
    if pods == [] {
      AllZero(sizes);
    } else {
      var front, last := pods[..|pods| - 1], pods[|pods| - 1];
      assert pods == front + [last];
      var before: seq<nat> := seq(|values|, k requires 0 <= k < |values| => |InDomain(nodes, front, values[k])|);
      CountedIsSum(nodes, front, before, values);
      forall k | 0 <= k < |values| { OneMoreInDomain(nodes, front, last, values[k]); }
      OneMoreSummed(before, sizes, values, DomainOf(nodes, last));
    }
  }

  lemma {:induction false} AllZero(s: seq<nat>)
    requires forall k :: 0 <= k < |s| ==> s[k] == 0
    ensures Sum(s) == 0
  {
    if s != [] { AllZero(s[1..]); }
  }

  lemma {:induction false} InDomainIsShorter(nodes: map<string, Node>, pods: seq<Pod>, d: string)
    ensures |InDomain(nodes, pods, d)| <= |pods|
    decreases |pods|
  {
    if pods != [] { InDomainIsShorter(nodes, pods[..|pods| - 1], d); }
  }

  // ------------------------------------------------- the order within a domain

  function ComparePodsByPriority(a: Pod, b: Pod): bool {
    if a.priority.Some? && b.priority.Some? then a.priority.value > b.priority.value
    else a.priority.Some? || b.priority.None?
  }

  /** The comparator handed to the sort of a domain's pods, as written. It says true both ways for
      two pods that are not evictable. */
  function SortsBefore(a: Pod, b: Pod): bool {
    if !a.evictable || !b.evictable then !(a.evictable && !b.evictable)
    else if a.hasSelectorOrAffinity == b.hasSelectorOrAffinity then !ComparePodsByPriority(a, b)
    else a.hasSelectorOrAffinity && !b.hasSelectorOrAffinity
  }

  /** A sort of the pods within a domain that meets the comparator. */
  ghost predicate Sorts(arrange: seq<Pod> -> seq<Pod>) {
    forall s :: Sorting.SortedCopy(s, arrange(s), SortsBefore)
  }

  /** The comparator is consistent, and so there is such a sort. */
  lemma SortExists(s: seq<Pod>)
    ensures Sorting.Transitive(SortsBefore)
    ensures Sorting.SortedCopy(s, Sorting.Sort(s, SortsBefore), SortsBefore)
  {
    Sorting.SortSorts(s, SortsBefore);
  }

  lemma {:induction false} PickKeepsOrder(s: seq<Pod>, fits: Pod -> bool, verdict: bool)
    requires Sorting.Ascending(s, SortsBefore)
    ensures Sorting.Ascending(Pick(s, fits, verdict), SortsBefore)
    ensures forall p :: p in Pick(s, fits, verdict) ==> p in s
  {
    if s != [] {
      assert forall k :: 0 <= k < |s[1..]| ==> s[1..][k] == s[k + 1];
      PickKeepsOrder(s[1..], fits, verdict);
      var rest := Pick(s[1..], fits, verdict);
      forall l | 0 <= l < |rest|
        ensures Sorting.Leq(SortsBefore, s[0], rest[l])
      {
        assert rest[l] in s[1..];
        var k :| 0 <= k < |s[1..]| && s[1..][k] == rest[l];
        assert s[k + 1] == rest[l];
      }
    }
  }

  lemma FitLastKeepsOrder(s: seq<Pod>, fits: Pod -> bool, k: nat, l: nat)
    requires Sorting.Ascending(s, SortsBefore) && k < l < |FitLast(s, fits)|
    ensures var t := FitLast(s, fits);
            (fits(t[k]) ==> fits(t[l])) && (fits(t[k]) == fits(t[l]) ==> Sorting.Leq(SortsBefore, t[k], t[l]))
  {
    var no, yes := Pick(s, fits, false), Pick(s, fits, true);
    PickKeepsOrder(s, fits, false);
    PickKeepsOrder(s, fits, true);
    PickMeans(s, fits, false);
    PickMeans(s, fits, true);
    if l < |no| {
      assert Sorting.Leq(SortsBefore, no[k], no[l]);
    } else if k >= |no| {
      assert Sorting.Leq(SortsBefore, yes[k - |no|], yes[l - |no|]);
    }
  }

  /** `a` has no higher priority than `b`; an unset one is the lowest. */
  predicate NoHigher(a: Pod, b: Pod) {
    a.priority.None? || (b.priority.Some? && a.priority.value <= b.priority.value)
  }

  /** Only their priorities tell the pods apart: both evictable, alike in selector or affinity and
      in the fit verdict. */
  predicate SameClass(a: Pod, b: Pod, fits: Pod -> bool) {
    a.evictable && b.evictable && a.hasSelectorOrAffinity == b.hasSelectorOrAffinity && fits(a) == fits(b)
  }

  /** Why `taken` leaves a domain while `kept` stays: it fits if `kept` does; of two alike in fit,
      `kept` is not evictable if `taken` is not, has a selector or affinity if `taken` has, and
      within one class `kept` has NO HIGHER priority. */
  ghost predicate TakenFirst(taken: Pod, kept: Pod, fits: Pod -> bool) {
    && (fits(kept) ==> fits(taken))
    && (fits(kept) == fits(taken) ==>
          && (!taken.evictable ==> !kept.evictable)
          && (kept.evictable && taken.evictable && taken.hasSelectorOrAffinity ==> kept.hasSelectorOrAffinity))
    && (SameClass(kept, taken, fits) ==> NoHigher(kept, taken))
  }

  ghost predicate BackFirst(s: seq<Pod>, fits: Pod -> bool, moved: seq<Pod>) {
    forall kept, taken :: kept in s && kept !in moved && taken in s && taken in moved ==> TakenFirst(taken, kept, fits)
  }

  lemma TakenFromBack(s: seq<Pod>, fits: Pod -> bool, k: nat, l: nat)
    requires Sorting.Ascending(s, SortsBefore) && k < l < |FitLast(s, fits)|
    ensures TakenFirst(FitLast(s, fits)[l], FitLast(s, fits)[k], fits)
  {
    FitLastKeepsOrder(s, fits, k, l);
  }

  /** Pods leave from the back of the order of fit, of a domain sorted by the comparator: within
      one class the HIGHEST priority goes first, an unset one last. */
  lemma BackOfDomainGoesFirst(s: seq<Pod>, fits: Pod -> bool, cut: nat, moved: seq<Pod>)
    requires Sorting.Ascending(s, SortsBefore) && MovedFrom(FitLast(s, fits), cut, moved)
    ensures BackFirst(s, fits, moved)
  {
    var t := FitLast(s, fits);
    FitLastOrders(s, fits);
    SameMembers(t, s);
    forall kept, taken | kept in s && kept !in moved && taken in s && taken in moved
      ensures TakenFirst(taken, kept, fits)
    {
      var k :| 0 <= k < |t| && t[k] == kept;
      var l :| 0 <= l < |t| && t[l] == taken;
      assert k < cut <= l;
      TakenFromBack(s, fits, k, l);
    }
  }

  /** What the documentation promises of a domain cut off at `cut`: within one class no pod taken
      has a higher priority than one kept. */
  ghost predicate LowFirst(t: seq<Pod>, cut: nat, fits: Pod -> bool) {
    forall k, l :: 0 <= k < cut <= l < |t| && SameClass(t[k], t[l], fits) ==> NoHigher(t[l], t[k])
  }

  /** At one cut the promise holds if and only if no pod kept differs in priority from a pod of its
      class taken. */
  lemma LowFirstAtCut(s: seq<Pod>, fits: Pod -> bool, cut: nat)
    requires Sorting.Ascending(s, SortsBefore)
    ensures var t := FitLast(s, fits);
            LowFirst(t, cut, fits) <==>
            forall k, l :: 0 <= k < cut <= l < |t| && SameClass(t[k], t[l], fits) ==> t[k].priority == t[l].priority
  {
    var t := FitLast(s, fits);
    forall k, l | 0 <= k < cut <= l < |t| && SameClass(t[k], t[l], fits)
      ensures NoHigher(t[l], t[k]) <==> t[k].priority == t[l].priority
    {
      TakenFromBack(s, fits, k, l);
    }
  }

  /** It holds wherever the domain is cut if and only if no two pods of one class differ in
      priority. */
  lemma LowPriorityFirstExactly(s: seq<Pod>, fits: Pod -> bool)
    requires Sorting.Ascending(s, SortsBefore)
    ensures (forall cut :: 0 <= cut <= |s| ==> LowFirst(FitLast(s, fits), cut, fits)) <==>
            forall a, b :: a in s && b in s && SameClass(a, b, fits) ==> a.priority == b.priority
  {
    var t := FitLast(s, fits);
    FitLastOrders(s, fits);
    SameMembers(t, s);
    if forall cut :: 0 <= cut <= |s| ==> LowFirst(t, cut, fits) {
      forall a, b | a in s && b in s && SameClass(a, b, fits)
        ensures a.priority == b.priority
      {
        var k :| 0 <= k < |t| && t[k] == a;
        var l :| 0 <= l < |t| && t[l] == b;
        LowFirstAtCut(s, fits, if k < l then l else k);
      }
    }
  }

  // ------------------------------------------------------- the whole constraint

  /** `lists` are the counted domains, each once, by ascending size, their pods as `arrange`
      sorts them. */
  ghost predicate Listing(nodes: map<string, Node>, pods: seq<Pod>, arrange: seq<Pod> -> seq<Pod>,
                          order: seq<string>, lists: seq<seq<Pod>>)
  {
    var t := Topologies(nodes, pods);
    && multiset(order) == multiset(t.Keys)
    && (forall d :: d in order <==> d in t)
    && AscendingBySize(t, order)
    && lists == PodLists(t, order, arrange)
  }

  ghost predicate Rearranges(arrange: seq<Pod> -> seq<Pod>) {
    forall s :: multiset(arrange(s)) == multiset(s)
  }

  lemma ListedDomain(nodes: map<string, Node>, pods: seq<Pod>, arrange: seq<Pod> -> seq<Pod>,
                     order: seq<string>, lists: seq<seq<Pod>>, k: nat)
    requires Listing(nodes, pods, arrange, order, lists) && Rearranges(arrange) && k < |lists|
    ensures |lists| == |order| && multiset(lists[k]) == multiset(InDomain(nodes, pods, order[k]))
    ensures |lists[k]| == |Topologies(nodes, pods)[order[k]]| == |InDomain(nodes, pods, order[k])| <= |pods|
  {
    var t := Topologies(nodes, pods);
    assert order[k] in order;
    TopologiesHold(nodes, pods, order[k]);
    InDomainIsShorter(nodes, pods, order[k]);
    assert lists[k] == arrange(t[order[k]]);
    assert |multiset(lists[k])| == |multiset(t[order[k]])|;
  }

  lemma EveryDomainListed(nodes: map<string, Node>, pods: seq<Pod>, arrange: seq<Pod> -> seq<Pod>,
                          order: seq<string>, lists: seq<seq<Pod>>)
    requires Listing(nodes, pods, arrange, order, lists)
    ensures Distinct(order) && |order| == |Topologies(nodes, pods)|
    ensures forall k :: 0 <= k < |pods| && DomainOf(nodes, pods[k]).Some? ==> DomainOf(nodes, pods[k]).value in order
  {
    var t := Topologies(nodes, pods);
    DistinctCounts(order);
    assert |multiset(order)| == |multiset(t.Keys)|;
    forall k | 0 <= k < |pods| && DomainOf(nodes, pods[k]).Some?
      ensures DomainOf(nodes, pods[k]).value in order
    {
      assert pods[k] in pods;
      TopologiesHold(nodes, pods, DomainOf(nodes, pods[k]).value);
    }
  }

  /** What the counted and sorted domains give the loop. */
  ghost predicate Ready(nodes: map<string, Node>, pods: seq<Pod>, lists: seq<seq<Pod>>) {
    && OneHome(lists)
    && Ascending(Sizes(lists))
    && Sum(Sizes(lists)) == Counted(nodes, pods)
    && (forall k :: 0 <= k < |lists| ==> |lists[k]| <= |pods|)
    && forall p :: p in Members(lists) <==> p in pods && exists d :: CountedIn(nodes, p, d)
  }

  lemma DomainsReady(nodes: map<string, Node>, pods: seq<Pod>, arrange: seq<Pod> -> seq<Pod>,
                     order: seq<string>, lists: seq<seq<Pod>>)
    requires Distinct(pods) && Rearranges(arrange) && Listing(nodes, pods, arrange, order, lists)
    ensures Ready(nodes, pods, lists) && |lists| == |Topologies(nodes, pods)|
  {
    EveryDomainListed(nodes, pods, arrange, order, lists);
    forall k | 0 <= k < |lists|
      ensures multiset(lists[k]) == multiset(InDomain(nodes, pods, order[k]))
      ensures |lists[k]| == |Topologies(nodes, pods)[order[k]]| == |InDomain(nodes, pods, order[k])| <= |pods|
    {
      ListedDomain(nodes, pods, arrange, order, lists, k);
    }
    ListedOnceHasOneHome(nodes, pods, order, lists);
    CountedIsSum(nodes, pods, Sizes(lists), order);
    forall p
      ensures p in Members(lists) <==> p in pods && exists d :: CountedIn(nodes, p, d)
    {
      ListsHoldCounted(nodes, pods, order, lists, p);
    }
  }

  /** Each list holds exactly the pods counted in its domain. */
  ghost predicate HoldCounted(nodes: map<string, Node>, pods: seq<Pod>, order: seq<string>, lists: seq<seq<Pod>>) {
    |lists| == |order| &&
    forall k, p :: 0 <= k < |lists| ==> (p in lists[k] <==> p in pods && CountedIn(nodes, p, order[k]))
  }

  lemma DomainsHoldCounted(nodes: map<string, Node>, pods: seq<Pod>, arrange: seq<Pod> -> seq<Pod>,
                           order: seq<string>, lists: seq<seq<Pod>>)
    requires Rearranges(arrange) && Listing(nodes, pods, arrange, order, lists)
    ensures HoldCounted(nodes, pods, order, lists)
  {
    forall k, p | 0 <= k < |lists|
      ensures p in lists[k] <==> p in pods && CountedIn(nodes, p, order[k])
    {
      ListedDomain(nodes, pods, arrange, order, lists, k);
      ListHolds(nodes, pods, order[k], lists[k], p);
    }
  }

  lemma OrderedMembers(lists: seq<seq<Pod>>, fits: Pod -> bool)
    ensures Members(Ordered(lists, fits)) == Members(lists)
  {
    var order := Ordered(lists, fits);
    forall k | 0 <= k < |lists|
      ensures forall p :: p in order[k] <==> p in lists[k]
    {
      FitLastOrders(lists[k], fits);
      SameMembers(order[k], lists[k]);
    }
  }

  lemma BackFirstEverywhere(nodes: map<string, Node>, pods: seq<Pod>, arrange: seq<Pod> -> seq<Pod>, order: seq<string>,
                            lists: seq<seq<Pod>>, fits: Pod -> bool, moved: seq<Pod>, cuts: seq<nat>, avg: real)
    requires Listing(nodes, pods, arrange, order, lists) && MovedOut(Ordered(lists, fits), moved, cuts, avg)
    ensures Sorts(arrange) ==> forall k :: 0 <= k < |lists| ==> BackFirst(lists[k], fits, moved)
  {
    if Sorts(arrange) {
      forall k | 0 <= k < |lists|
        ensures BackFirst(lists[k], fits, moved)
      {
        var own := Topologies(nodes, pods)[order[k]];
        assert Sorting.SortedCopy(own, arrange(own), SortsBefore);
        BackOfDomainGoesFirst(lists[k], fits, cuts[k], moved);
      }
    }
  }

  /** One constraint of `Balance`: the counted domains are listed by ascending size, and with or
      without the early exit they end as the loop leaves them. What is moved are the last pods,
      in order of fit, of domains above the average, all of them counted pods, and exactly those
      that pass the fit test are added to the eviction set. `arrange` is the sort of the pods
      within a domain; it may be any permutation. If it meets the comparator, the pods of higher
      priority leave before those of lower priority. */
  method BalanceConstraint(nodes: map<string, Node>, pods: seq<Pod>, maxSkew: int, nodeFit: bool, fits: Pod -> bool,
                           arrange: seq<Pod> -> seq<Pod>, podsForEviction: set<Pod>)
    returns (order: seq<string>, lists: seq<seq<Pod>>, final: seq<seq<Pod>>, evict: set<Pod>, moved: seq<Pod>,
             ghost cuts: seq<nat>)
    requires maxSkew >= 1 && Distinct(pods) && |pods| <= MAX_INT32 && Rearranges(arrange)
    ensures Listing(nodes, pods, arrange, order, lists) && Ready(nodes, pods, lists)
    ensures Sizes(final) == Balanced(Sizes(lists), maxSkew).sizes
    ensures |moved| == Balanced(Sizes(lists), maxSkew).moved
    ensures MovedOut(Ordered(lists, fits), moved, cuts, Average(Sizes(lists)))
    ensures forall p :: p in moved ==> p in pods && exists d :: CountedIn(nodes, p, d)
    ensures HoldCounted(nodes, pods, order, lists)
    ensures Members(final) == Members(lists)
    ensures CutToSize(Ordered(lists, fits), final, 0, cuts)
    ensures forall p :: p in evict <==> p in podsForEviction || (p in moved && (nodeFit ==> fits(p)))
    ensures Sorts(arrange) ==> forall k :: 0 <= k < |lists| ==> BackFirst(lists[k], fits, moved)
  {
    var topologies, sumPods := CountDomains(nodes, pods);
    order := SortDomains(topologies);
    lists := PodLists(topologies, order, arrange);
    DomainsReady(nodes, pods, arrange, order, lists);
    DomainsHoldCounted(nodes, pods, arrange, order, lists);
    OrderedMembers(lists, fits);
    var balanced := TopologyIsBalanced(Sizes(lists), maxSkew);
    if balanced {
      final, evict, moved, cuts := lists, podsForEviction, [], Sizes(lists);
      SumNonNegative(Sizes(lists));
      BalancedIsLeftAlone(Start(Sizes(lists)), Average(Sizes(lists)), maxSkew);
      NothingMoved(lists, 0, fits, Average(Sizes(lists)));
    } else {
      final, evict, moved, cuts := BalanceDomains(lists, maxSkew, nodeFit, fits, podsForEviction);
    }
    BackFirstEverywhere(nodes, pods, arrange, order, lists, fits, moved, cuts, Average(Sizes(lists)));
  }

  /** When the counted pods divide evenly over the domains and MaxSkew is 1, the constraint ends
      with every domain at the average `a`. It moves as many pods as lie above it, and out of each
      domain exactly those from position `a` on, in order of fit. */
  lemma CountedPodsEndEven(nodes: map<string, Node>, pods: seq<Pod>, lists: seq<seq<Pod>>, final: seq<seq<Pod>>, a: nat,
                           fits: Pod -> bool, moved: seq<Pod>, cuts: seq<nat>, avg: real)
    requires Ready(nodes, pods, lists) && lists != [] && Counted(nodes, pods) == |lists| * a
    requires Sizes(final) == Balanced(Sizes(lists), 1).sizes
    requires MovedOut(Ordered(lists, fits), moved, cuts, avg) && CutToSize(Ordered(lists, fits), final, 0, cuts)
    ensures |final| == |lists| && forall k :: 0 <= k < |final| ==> |final[k]| == a
    ensures Balanced(Sizes(lists), 1).moved == Excess(Sizes(lists), a)
    ensures forall k :: 0 <= k < |lists| ==> MovedFrom(FitLast(lists[k], fits), Min(|lists[k]|, a), moved)
  {
    ExactBalance(Sizes(lists), a);
    assert |Sizes(final)| == |final|;
    assert forall k :: 0 <= k < |final| ==> |final[k]| == Sizes(final)[k];
    forall k | 0 <= k < |lists|
      ensures MovedFrom(FitLast(lists[k], fits), Min(|lists[k]|, a), moved)
    {
      FitLastOrders(lists[k], fits);
      assert MovedFrom(Ordered(lists, fits)[k], cuts[k], moved);
    }
  }

  /** No other way of moving single pods between the counted domains reaches that skew in fewer
      moves. */
  lemma CountedPodsMoveLeast(nodes: map<string, Node>, pods: seq<Pod>, lists: seq<seq<Pod>>, a: nat, ms: seq<Move>, t: seq<nat>)
    requires Ready(nodes, pods, lists) && lists != [] && Counted(nodes, pods) == |lists| * a
    requires Leads(Sizes(lists), ms, t) && WithinSkew(t, 1)
    ensures Balanced(Sizes(lists), 1).moved <= |ms|
  {
    FewestMoves(Sizes(lists), a, t, ms);
  }

  /** Two counted domains, every skew: no other way of moving single pods between them ends within
      the skew in fewer moves. */
  lemma TwoCountedDomainsMoveLeast(nodes: map<string, Node>, pods: seq<Pod>, lists: seq<seq<Pod>>, maxSkew: int,
                                   ms: seq<Move>, t: seq<nat>)
    requires Ready(nodes, pods, lists) && |lists| == 2 && maxSkew >= 1
    requires Leads(Sizes(lists), ms, t) && WithinSkew(t, maxSkew)
    ensures Balanced(Sizes(lists), maxSkew).moved <= |ms|
  {
    TwoDomainsMoveLeast(Sizes(lists), maxSkew, ms, t);
  }

  // ------------------------------------------------------- a run with two priorities

  /** Two nodes, each a domain of its own. */
  function TwoNodes(): map<string, Node> {
    map["a" := Node(Some("x"), true), "b" := Node(Some("y"), true)]
  }

  lemma TwoReplicasCounted(p: Pod, q: Pod)
    requires DomainOf(TwoNodes(), p) == DomainOf(TwoNodes(), q) == Some("y")
    ensures Topologies(TwoNodes(), [p, q]) == map["x" := [], "y" := [p, q]] && Counted(TwoNodes(), [p, q]) == 2
  {
    var nodes := TwoNodes();
    assert nodes["a"].domain.value in Populated(nodes) && nodes["b"].domain.value in Populated(nodes);
    OneMoreCounted(nodes, [], p);
    OneMoreCounted(nodes, [p], q);
    assert [] + [p] == [p] && [p] + [q] == [p, q];
  }

  lemma TwoReplicasOrdered(p: Pod, q: Pod, arrange: seq<Pod> -> seq<Pod>, order: seq<string>, lists: seq<seq<Pod>>)
    requires DomainOf(TwoNodes(), p) == DomainOf(TwoNodes(), q) == Some("y")
    requires Listing(TwoNodes(), [p, q], arrange, order, lists)
    ensures order == ["x", "y"] && lists == [arrange([]), arrange([p, q])]
  {
    TwoReplicasCounted(p, q);
    var t := Topologies(TwoNodes(), [p, q]);
    EveryDomainListed(TwoNodes(), [p, q], arrange, order, lists);
    assert |order| == 2 by { assert t.Keys == {"x", "y"}; }
    assert order[0] in order && order[1] in order;
  }

  lemma TwoReplicasListed(p: Pod, q: Pod, arrange: seq<Pod> -> seq<Pod>, order: seq<string>, lists: seq<seq<Pod>>)
    requires DomainOf(TwoNodes(), p) == DomainOf(TwoNodes(), q) == Some("y")
    requires Listing(TwoNodes(), [p, q], arrange, order, lists) && Rearranges(arrange)
    ensures |lists| == 2 && |lists[0]| == 0 && |lists[1]| == 2 && multiset(lists[1]) == multiset{p, q}
  {
    TwoReplicasOrdered(p, q, arrange, order, lists);
    assert |multiset(arrange([p, q]))| == |multiset([p, q])|;
    var none: seq<Pod> := [];
    assert |multiset(arrange(none))| == |multiset(none)|;
  }

  lemma OneOfTwoMoves(p: Pod, q: Pod, s: seq<Pod>, fits: Pod -> bool, moved: seq<Pod>)
    requires p != q && multiset(s) == multiset{p, q} && |s| == 2 && MovedFrom(FitLast(s, fits), 1, moved)
    ensures p in s && q in s && (p in moved <==> q !in moved)
  {
    var t := FitLast(s, fits);
    FitLastOrders(s, fits);
    SameMembers(t, s);
    assert p in multiset(s) && q in multiset(s);
    assert p in t && q in t && t[0] in moved <==> false;
    assert t[1] in moved && t[0] !in moved;
    assert (t[0] == p && t[1] == q) || (t[0] == q && t[1] == p);
  }

  lemma HigherIsMoved(p: Pod, q: Pod, s: seq<Pod>, fits: Pod -> bool, moved: seq<Pod>)
    requires p != q && multiset(s) == multiset{p, q} && |s| == 2 && MovedFrom(FitLast(s, fits), 1, moved)
    requires BackFirst(s, fits, moved) && SameClass(q, p, fits) && !NoHigher(q, p)
    ensures q in moved && p !in moved
  {
    OneOfTwoMoves(p, q, s, fits, moved);
    assert p in moved && q !in moved ==> TakenFirst(p, q, fits);
  }

  /** Two counted pods, both in the second of two domains: the one later in order of fit moves. */
  lemma SecondMoves(nodes: map<string, Node>, pods: seq<Pod>, lists: seq<seq<Pod>>, final: seq<seq<Pod>>,
                    fits: Pod -> bool, moved: seq<Pod>, cuts: seq<nat>, avg: real)
    requires Ready(nodes, pods, lists) && Counted(nodes, pods) == 2 && |lists| == 2 && |lists[1]| == 2
    requires Sizes(final) == Balanced(Sizes(lists), 1).sizes
    requires MovedOut(Ordered(lists, fits), moved, cuts, avg) && CutToSize(Ordered(lists, fits), final, 0, cuts)
    ensures MovedFrom(FitLast(lists[1], fits), 1, moved)
  {
    CountedPodsEndEven(nodes, pods, lists, final, 1, fits, moved, cuts, avg);
  }

  lemma OnlyHigherMoves(p: Pod, q: Pod, fits: Pod -> bool, arrange: seq<Pod> -> seq<Pod>, order: seq<string>,
                        lists: seq<seq<Pod>>, final: seq<seq<Pod>>, moved: seq<Pod>, cuts: seq<nat>, avg: real)
    requires DomainOf(TwoNodes(), p) == DomainOf(TwoNodes(), q) == Some("y") && p != q
    requires SameClass(q, p, fits) && !NoHigher(q, p) && Rearranges(arrange)
    requires Listing(TwoNodes(), [p, q], arrange, order, lists)
    requires Sizes(final) == Balanced(Sizes(lists), 1).sizes
    requires MovedOut(Ordered(lists, fits), moved, cuts, avg) && CutToSize(Ordered(lists, fits), final, 0, cuts)
    requires forall k :: 0 <= k < |lists| ==> BackFirst(lists[k], fits, moved)
    ensures q in moved && forall pod :: pod in moved && pod in [p, q] ==> pod == q
  {
    TwoReplicasListed(p, q, arrange, order, lists);
    assert MovedFrom(FitLast(lists[1], fits), 1, moved) by {
      DomainsReady(TwoNodes(), [p, q], arrange, order, lists);
      TwoReplicasCounted(p, q);
      SecondMoves(TwoNodes(), [p, q], lists, final, fits, moved, cuts, avg);
    }
    HigherIsMoved(p, q, lists[1], fits, moved);
  }

  /** Two pods of one class in one of two domains: whatever sort meets the comparator, it is the
      one of HIGHER priority that is evicted. */
  method HigherPriorityIsEvicted(p: Pod, q: Pod, fits: Pod -> bool, arrange: seq<Pod> -> seq<Pod>) returns (evict: set<Pod>)
    requires DomainOf(TwoNodes(), p) == DomainOf(TwoNodes(), q) == Some("y") && p != q
    requires SameClass(q, p, fits) && !NoHigher(q, p) && Rearranges(arrange) && Sorts(arrange)
    ensures evict == {q}
  {
    var order, lists, final, moved;
    ghost var cuts;
    order, lists, final, evict, moved, cuts := BalanceConstraint(TwoNodes(), [p, q], 1, false, fits, arrange, {});
    OnlyHigherMoves(p, q, fits, arrange, order, lists, final, moved, cuts, Average(Sizes(lists)));
  }

  /** A replica on node b. */
  function Replica(name: string, priority: int): Pod {
    Pod("", name, "b", false, true, true, false, Some(priority))
  }

  /** One such run, with priorities 0 and 1000. */
  method TwoPriorities() returns (evict: set<Pod>)
    ensures evict == {Replica("q", 1000)}
  {
    var arrange := (s: seq<Pod>) => Sorting.Sort(s, SortsBefore);
    forall s: seq<Pod>
      ensures Sorting.SortedCopy(s, arrange(s), SortsBefore)
    {
      SortExists(s);
    }
    evict := HigherPriorityIsEvicted(Replica("p", 0), Replica("q", 1000), pod => true, arrange);
  }
}
