/** Node-utilization eviction: destination totals and source usage, both drawn down pod by
    pod across all source nodes. Quantities are integers in the resource's base unit
    (milli-units for cpu). */
module Utilization {
  import opened Common

  const PODS := "pods"

  datatype Pod = Pod(namespace: string, name: string, requests: map<string, nat>)

  type Quantities = map<string, int>

  /** What one pod counts for: 1 for the pod count, its request otherwise. */
  function Charge(p: Pod, r: string): nat {
    if r == PODS then 1 else if r in p.requests then p.requests[r] else 0
  }

  function Load(pods: seq<Pod>, r: string): nat {
    if pods == [] then 0 else Load(pods[..|pods| - 1], r) + Charge(pods[|pods| - 1], r)
  }

  // ------------------------------------------------------- usage from scratch

  /** One pod's requests added, resource by resource; the pod count is not touched. */
  method AddRequests(total: Quantities, pod: Pod) returns (next: Quantities)
    ensures next.Keys == total.Keys
    ensures forall r :: r in total ==> next[r] == total[r] + if r == PODS then 0 else Charge(pod, r)
  {
    next := total;
    var todo := total.Keys;
    while todo != {}
      invariant todo <= total.Keys == next.Keys
      invariant forall r :: r in total ==> next[r] == total[r] + if r == PODS || r in todo then 0 else Charge(pod, r)
      decreases todo
    {
      var r :| r in todo;
      if r in pod.requests && r != PODS {
        next := next[r := next[r] + pod.requests[r]];
      }
      todo := todo - {r};
    }
  }

  /** `NodeUtilization`: the usage of a list of pods, for the given resources. */
  method NodeUtilization(pods: seq<Pod>, names: set<string>) returns (total: Quantities)
    ensures total.Keys == names && forall r :: r in names ==> total[r] == Load(pods, r)
  {
    total := map r | r in names :: if r == PODS then |pods| else 0;
    for k := 0 to |pods|
      invariant total.Keys == names
      invariant forall r :: r in names ==> total[r] == if r == PODS then |pods| else Load(pods[..k], r)
    {
      assert pods[..k + 1][..k] == pods[..k];
      total := AddRequests(total, pods[k]);
    }
    assert pods[..|pods|] == pods;
    PodsLoad(pods);
  }

  lemma {:induction false} PodsLoad(pods: seq<Pod>)
    ensures Load(pods, PODS) == |pods|
    decreases |pods|
  {
    if pods != [] { PodsLoad(pods[..|pods| - 1]); }
  }

  /** A pod counts as one pod and for what it requests; the pods of a list add up. */
  lemma LoadAddsUp(pods: seq<Pod>, p: Pod, r: string)
    ensures Load(pods + [p], "pods") == Load(pods, "pods") + 1
    ensures r != "pods" && r in p.requests ==> Load(pods + [p], r) == Load(pods, r) + p.requests[r]
    ensures r != "pods" && r !in p.requests ==> Load(pods + [p], r) == Load(pods, r)
  {
    assert (pods + [p])[..|pods|] == pods;
  }

  // ------------------------------------------------------- destination headroom

  /** A node's usage and its capacity capped to the threshold. */
  datatype NodeInfo = NodeInfo(usage: Quantities, available: Quantities)

  predicate Reports(n: NodeInfo, r: string) {
    r in n.usage && r in n.available
  }

  /** What one node has to spare; nothing is known of a resource it does not report. */
  function Spare(n: NodeInfo, r: string): int {
    if Reports(n, r) then n.available[r] - n.usage[r] else 0
  }

  function Headroom(nodes: seq<NodeInfo>, r: string): int {
    if nodes == [] then 0 else Headroom(nodes[..|nodes| - 1], r) + Spare(nodes[|nodes| - 1], r)
  }

  ghost predicate Complete(nodes: seq<NodeInfo>, names: set<string>) {
    forall k, r :: 0 <= k < |nodes| && r in names ==> Reports(nodes[k], r)
  }

  /** One resource summed over a list of quantities. */
  function SumOver(qs: seq<Quantities>, r: string): int {
    if qs == [] then 0
    else SumOver(qs[..|qs| - 1], r) + if r in qs[|qs| - 1] then qs[|qs| - 1][r] else 0
  }

  function Availables(nodes: seq<NodeInfo>): seq<Quantities> {
    seq(|nodes|, k requires 0 <= k < |nodes| => nodes[k].available)
  }

  function Usages(nodes: seq<NodeInfo>): seq<Quantities> {
    seq(|nodes|, k requires 0 <= k < |nodes| => nodes[k].usage)
  }

  /** Where every node reports the resource, the headroom is what all of them may hold less what
      all of them use. */
  lemma {:induction false} HeadroomIsDifference(nodes: seq<NodeInfo>, r: string)
    requires Complete(nodes, {r})
    ensures Headroom(nodes, r) == SumOver(Availables(nodes), r) - SumOver(Usages(nodes), r)
    decreases |nodes|
  {
    if nodes != [] {
      var front := nodes[..|nodes| - 1];
      assert Reports(nodes[|nodes| - 1], r);
      assert Availables(nodes)[..|front|] == Availables(front) && Usages(nodes)[..|front|] == Usages(front);
      HeadroomIsDifference(front, r);
    }
  }

  /** One node added to the totals, resource by resource; a missing resource is an error. */
  method AddHeadroom(totals: Quantities, node: NodeInfo, names: set<string>) returns (result: Option<Quantities>)
    ensures result.Some? <==> forall r :: r in names ==> Reports(node, r)
    ensures result.Some? ==> result.value.Keys == totals.Keys + names
    ensures result.Some? ==> forall r :: r in names ==>
              result.value[r] == (if r in totals then totals[r] else 0) + Spare(node, r)
    ensures result.Some? ==> forall r :: r in totals && r !in names ==> result.value[r] == totals[r]
  {
    var available, todo := totals, names;
    while todo != {}
      invariant todo <= names && available.Keys == totals.Keys + (names - todo)
      invariant forall r :: r in names - todo ==> Reports(node, r)
      invariant forall r :: r in names - todo ==>
                  available[r] == (if r in totals then totals[r] else 0) + Spare(node, r)
      invariant forall r :: r in totals && r !in names - todo ==> available[r] == totals[r]
      decreases todo
    {
      var r :| r in todo;
      if !Reports(node, r) {
        return None;
      }
      available := available[r := (if r in available then available[r] else 0) + node.available[r] - node.usage[r]];
      todo := todo - {r};
    }
    return Some(available);
  }

  /** The totals over `nodes`, all of which report every resource. */
  ghost predicate Assessed(nodes: seq<NodeInfo>, names: set<string>, totals: Quantities) {
    && Complete(nodes, names)
    && totals.Keys == (if nodes == [] then {} else names)
    && forall r :: r in totals ==> totals[r] == Headroom(nodes, r)
  }

  lemma AssessedNext(nodes: seq<NodeInfo>, n: NodeInfo, names: set<string>, totals: Quantities, next: Quantities)
    requires Assessed(nodes, names, totals) && next.Keys == names
    requires forall r :: r in names ==>
               Reports(n, r) && next[r] == (if r in totals then totals[r] else 0) + Spare(n, r)
    ensures Assessed(nodes + [n], names, next)
  {
    forall r | r in names
      ensures next[r] == Headroom(nodes + [n], r)
    {
      assert (nodes + [n])[..|nodes|] == nodes;
    }
  }

  /** `assessAvailableResourceInNodes`: an error exactly when some node lacks a resource. */
  method AssessAvailable(nodes: seq<NodeInfo>, names: set<string>) returns (total: Option<Quantities>)
    ensures total.Some? <==> Complete(nodes, names)
    ensures total.Some? ==> Assessed(nodes, names, total.value)
  {
    var available: Quantities := map[];
    for k := 0 to |nodes|
      invariant Assessed(nodes[..k], names, available)
    {
      var next := AddHeadroom(available, nodes[k], names);
      if next.None? {
        return None;
      }
      assert nodes[..k + 1] == nodes[..k] + [nodes[k]];
      AssessedNext(nodes[..k], nodes[k], names, available, next.value);
      available := next.value;
    }
    assert nodes[..|nodes|] == nodes;
    return Some(available);
  }

  // ------------------------------------------------------- the eviction run

  predicate Positive(q: Quantities) {
    forall r :: r in q ==> q[r] > 0
  }

  /** At least one resource is above the target. */
  predicate AboveTarget(usage: Quantities, target: Quantities) {
    exists r :: r in usage && r in target && target[r] < usage[r]
  }

  datatype Next = NextPod | NextNode | EndRun

  datatype Removal = Removal(pod: Pod, node: string)

  /** An eviction call and how many evictions had succeeded before it. */
  datatype Attempt = Attempt(pod: Pod, node: string, before: nat)

  /** The load removed so far, from one node or (None) from all of them. */
  function Moved(done: seq<Removal>, scope: Option<string>, r: string): nat {
    if done == [] then 0
    else Moved(done[..|done| - 1], scope, r)
         + if scope == None || scope.value == done[|done| - 1].node then Charge(done[|done| - 1].pod, r) else 0
  }

  /** Quantities less what was removed. */
  function Drop(q: Quantities, done: seq<Removal>, scope: Option<string>): Quantities {
    map r | r in q :: q[r] - Moved(done, scope, r)
  }

  /** What the plugin is given. `low`: LowNodeUtilization, which also asks the source node to
      be above its target. `eligible` is the taint, namespace and pre-eviction filter;
      `evict` answers each eviction call. */
  datatype Setup = Setup(available: Quantities, usage: map<string, Quantities>, target: map<string, Quantities>,
                         low: bool, eligible: Pod -> bool, evict: Pod -> EvictResult, maxPerNode: Option<nat>)
  {
    ghost predicate Valid() {
      && usage.Keys <= target.Keys
      && forall n :: n in usage ==> usage[n].Keys == available.Keys
    }
  }

  predicate ContinueEviction(s: Setup, node: string, usage: Quantities, available: Quantities)
    requires node in s.target
  {
    (s.low ==> AboveTarget(usage, s.target[node])) && Positive(available)
  }

  /** After the removals `done` the stop condition lets `node` lose another pod: every destination
      total is still positive and, for LowNodeUtilization, some resource is above its target. */
  ghost predicate MayEvict(s: Setup, done: seq<Removal>, node: string) {
    && node in s.usage && node in s.target
    && (forall r :: r in s.available ==> s.available[r] > Moved(done, None, r))
    && (s.low ==>
          exists r :: r in s.usage[node] && r in s.target[node]
                      && s.usage[node][r] - Moved(done, Some(node), r) > s.target[node][r])
  }

  /** The stop condition holds for `node`: some destination total is used up or, for
      LowNodeUtilization, no resource is above its target. */
  ghost predicate UsedUp(s: Setup, done: seq<Removal>, node: string)
    requires node in s.usage && node in s.target
  {
    || (exists r :: r in s.available && s.available[r] - Moved(done, None, r) <= 0)
    || (s.low && forall r :: r in s.usage[node] && r in s.target[node] ==>
          s.usage[node][r] - Moved(done, Some(node), r) <= s.target[node][r])
  }

  /** Both ledgers equal their starting values less the removed pods. */
  ghost predicate Ledger(s: Setup, available: Quantities, usage: map<string, Quantities>, removed: seq<Removal>) {
    && available == Drop(s.available, removed, None)
    && usage.Keys == s.usage.Keys
    && forall n :: n in usage ==> usage[n] == Drop(s.usage[n], removed, Some(n))
  }

  /** The stop condition read off the ledgers is the one on the starting values and the removals. */
  lemma LedgerDecides(s: Setup, available: Quantities, usage: map<string, Quantities>, removed: seq<Removal>, node: string)
    requires Ledger(s, available, usage, removed) && node in s.usage && node in s.target
    ensures ContinueEviction(s, node, usage[node], available) == MayEvict(s, removed, node)
  {
    var own := usage[node];
    assert forall r :: r in own ==> own[r] == s.usage[node][r] - Moved(removed, Some(node), r);
    assert forall r :: r in available ==> available[r] == s.available[r] - Moved(removed, None, r);
    if AboveTarget(own, s.target[node]) {
      var r :| r in own && r in s.target[node] && s.target[node][r] < own[r];
      assert r in s.usage[node] && s.usage[node][r] - Moved(removed, Some(node), r) > s.target[node][r];
    }
  }

  /** Every call was for an eligible pod, and every call and eviction was made while the stop
      condition allowed it. */
  ghost predicate Calls(s: Setup, attempts: seq<Attempt>, removed: seq<Removal>) {
    && (forall i :: 0 <= i < |attempts| ==>
          && attempts[i].before <= |removed| && s.eligible(attempts[i].pod)
          && MayEvict(s, removed[..attempts[i].before], attempts[i].node))
    && (forall k :: 0 <= k < |removed| ==> MayEvict(s, removed[..k], removed[k].node))
  }

  function Less(q: Quantities, pod: Pod): Quantities {
    map r | r in q :: q[r] - Charge(pod, r)
  }

  lemma DropAppend(q: Quantities, done: seq<Removal>, r: Removal, scope: Option<string>)
    ensures Drop(q, done + [r], scope) ==
            if scope == None || scope.value == r.node then Less(Drop(q, done, scope), r.pod) else Drop(q, done, scope)
  {
    assert (done + [r])[..|done|] == done;
  }

  lemma LedgerAppend(s: Setup, available: Quantities, usage: map<string, Quantities>, removed: seq<Removal>, r: Removal)
    requires Ledger(s, available, usage, removed) && r.node in usage
    ensures Ledger(s, Less(available, r.pod), usage[r.node := Less(usage[r.node], r.pod)], removed + [r])
  {
    DropAppend(s.available, removed, r, None);
    var after := usage[r.node := Less(usage[r.node], r.pod)];
    forall n | n in after
      ensures after[n] == Drop(s.usage[n], removed + [r], Some(n))
    {
      DropAppend(s.usage[n], removed, r, Some(n));
    }
  }

  lemma CallsAppend(s: Setup, attempts: seq<Attempt>, removed: seq<Removal>, r: Removal)
    requires Calls(s, attempts, removed) && MayEvict(s, removed, r.node)
    ensures Calls(s, attempts, removed + [r])
  {
    var longer := removed + [r];
    forall i | 0 <= i < |attempts|
      ensures attempts[i].before <= |longer| && MayEvict(s, longer[..attempts[i].before], attempts[i].node)
    {
      assert longer[..attempts[i].before] == removed[..attempts[i].before];
    }
    forall k | 0 <= k < |longer|
      ensures MayEvict(s, longer[..k], longer[k].node)
    {
      assert longer[..k] == removed[..k];
      if k == |removed| { assert removed[..k] == removed; }
    }
  }

  predicate Goes(s: Setup, p: Pod) {
    s.eligible(p) && s.evict(p).Success?
  }

  /** The eviction call for `p` hits a limit that ends the work on its node. */
  predicate Refused(s: Setup, p: Pod) {
    s.eligible(p) && (s.evict(p).NodeLimit? || s.evict(p).TotalLimit?)
  }

  predicate HitsTotal(s: Setup, p: Pod) {
    s.eligible(p) && s.evict(p).TotalLimit?
  }

  /** The removals from one node when `pods` are tried in order. */
  function Leaving(s: Setup, node: string, pods: seq<Pod>): seq<Removal> {
    if pods == [] then []
    else
      var front, last := pods[..|pods| - 1], pods[|pods| - 1];
      Leaving(s, node, front) + if Goes(s, last) then [Removal(last, node)] else []
  }

  /** The eviction calls made on the way, after `base` earlier evictions. */
  function Asked(s: Setup, node: string, pods: seq<Pod>, base: nat): seq<Attempt> {
    if pods == [] then []
    else
      var front, last := pods[..|pods| - 1], pods[|pods| - 1];
      Asked(s, node, front, base) + if s.eligible(last) then [Attempt(last, node, base + |Leaving(s, node, front)|)] else []
  }

  lemma {:induction false} LeavingMeans(s: Setup, node: string, pods: seq<Pod>, x: Removal)
    ensures x in Leaving(s, node, pods) <==> x.node == node && x.pod in pods && Goes(s, x.pod)
    decreases |pods|
  {
    if pods != [] {
      var front, last := pods[..|pods| - 1], pods[|pods| - 1];
      assert pods == front + [last];
      LeavingMeans(s, node, front, x);
    }
  }

  lemma {:induction false} LeavingOnce(s: Setup, node: string, pods: seq<Pod>)
    requires Distinct(pods)
    ensures Distinct(Leaving(s, node, pods))
    decreases |pods|
  {
    if pods != [] {
      var front, last := pods[..|pods| - 1], pods[|pods| - 1];
      LeavingOnce(s, node, front);
      LeavingMeans(s, node, front, Removal(last, node));
    }
  }

  /** What a run has done: the removals and the eviction calls, in order. */
  datatype Log = Log(removed: seq<Removal>, attempts: seq<Attempt>)

  /** The log after one more pod is tried. */
  function Try(s: Setup, now: Log, node: string, pod: Pod): Log {
    Log(if Goes(s, pod) then now.removed + [Removal(pod, node)] else now.removed,
        if s.eligible(pod) then now.attempts + [Attempt(pod, node, |now.removed|)] else now.attempts)
  }

  /** Since `before` exactly the eligible pods among `pods` were asked for, in order, and exactly
      those that could go went. */
  ghost predicate Took(s: Setup, before: Log, after: Log, node: string, pods: seq<Pod>) {
    && after.removed == before.removed + Leaving(s, node, pods)
    && after.attempts == before.attempts + Asked(s, node, pods, |before.removed|)
  }

  lemma LeavingNext(s: Setup, node: string, pods: seq<Pod>, k: nat, done: seq<Removal>)
    requires k < |pods|
    ensures Goes(s, pods[k]) ==>
              done + Leaving(s, node, pods[..k + 1]) == done + Leaving(s, node, pods[..k]) + [Removal(pods[k], node)]
    ensures !Goes(s, pods[k]) ==> Leaving(s, node, pods[..k + 1]) == Leaving(s, node, pods[..k])
  {
    assert pods[..k + 1][..k] == pods[..k];
  }

  lemma AskedNext(s: Setup, node: string, pods: seq<Pod>, k: nat, base: nat, done: seq<Attempt>)
    requires k < |pods|
    ensures s.eligible(pods[k]) ==>
              done + Asked(s, node, pods[..k + 1], base) ==
              done + Asked(s, node, pods[..k], base) + [Attempt(pods[k], node, base + |Leaving(s, node, pods[..k])|)]
    ensures !s.eligible(pods[k]) ==> Asked(s, node, pods[..k + 1], base) == Asked(s, node, pods[..k], base)
  {
    assert pods[..k + 1][..k] == pods[..k];
  }

  lemma TookNext(s: Setup, before: Log, now: Log, node: string, pods: seq<Pod>, k: nat)
    requires k < |pods| && Took(s, before, now, node, pods[..k])
    ensures Took(s, before, Try(s, now, node, pods[k]), node, pods[..k + 1])
  {
    var next := Try(s, now, node, pods[k]);
    assert next.removed == before.removed + Leaving(s, node, pods[..k + 1]) by {
      LeavingNext(s, node, pods, k, before.removed);
    }
    assert next.attempts == before.attempts + Asked(s, node, pods[..k + 1], |before.removed|) by {
      AskedNext(s, node, pods, k, |before.removed|, before.attempts);
    }
  }

  /** No limit was hit on the first `n` pods. */
  ghost predicate Unrefused(s: Setup, pods: seq<Pod>, n: int) {
    forall k :: 0 <= k < |pods| && k < n ==> !Refused(s, pods[k])
  }

  /** Why the work on a node may end after the first `reached` of its pods: nothing is left, the
      stop condition, the plugin's own limit, or the evictor's limit met by the last pod. */
  ghost predicate Stopped(s: Setup, done: seq<Removal>, node: string, pods: seq<Pod>, reached: nat)
    requires reached <= |pods|
  {
    || reached == |pods|
    || !MayEvict(s, done, node)
    || (s.maxPerNode.Some? && |Leaving(s, node, pods[..reached])| >= s.maxPerNode.value)
    || (reached > 0 && Refused(s, pods[reached - 1]))
  }

  /** The plugin's own limit is never exceeded, and no pod is tried once it is reached. */
  ghost predicate WithinCap(s: Setup, node: string, pods: seq<Pod>, reached: nat)
    requires reached <= |pods|
  {
    s.maxPerNode.Some? ==>
      && |Leaving(s, node, pods[..reached])| <= s.maxPerNode.value
      && (reached > 0 ==> |Leaving(s, node, pods[..reached - 1])| < s.maxPerNode.value)
  }

  /** The work on one node as a whole: what it did, why it ended, and that it went through the
      pods in order up to the first refusal and within the plugin's own limit. */
  ghost predicate Worked(s: Setup, before: Log, after: Log, node: string, pods: seq<Pod>, total: bool, reached: nat)
  {
    && node in s.usage && node in s.target && reached <= |pods|
    && Took(s, before, after, node, pods[..reached])
    && Stopped(s, after.removed, node, pods, reached)
    && Unrefused(s, pods, reached - 1)
    && WithinCap(s, node, pods, reached)
    && (total <==> reached > 0 && HitsTotal(s, pods[reached - 1]))
  }

  /** How to go on after one pod. */
  ghost predicate GoesOn(s: Setup, done: seq<Removal>, node: string, pod: Pod, next: Next) {
    && (next == NextPod ==> MayEvict(s, done, node) && !Refused(s, pod))
    && (next == NextNode ==> !MayEvict(s, done, node) || Refused(s, pod))
    && (next == EndRun <==> HitsTotal(s, pod))
  }

  /** The loop over one node's pods, after `reached` of them. */
  ghost predicate Working(s: Setup, before: Log, now: Log, node: string, pods: seq<Pod>, next: Next, reached: nat)
  {
    && reached <= |pods|
    && Took(s, before, now, node, pods[..reached])
    && WithinCap(s, node, pods, reached)
    && Unrefused(s, pods, if next == NextPod then reached else reached - 1)
    && (if next == NextPod then MayEvict(s, now.removed, node) else Stopped(s, now.removed, node, pods, reached))
    && (next == EndRun <==> reached > 0 && HitsTotal(s, pods[reached - 1]))
  }

  lemma WorkingNext(s: Setup, before: Log, now: Log, node: string, pods: seq<Pod>, next: Next, reached: nat)
    requires reached < |pods| && Working(s, before, now, node, pods, NextPod, reached)
    requires s.maxPerNode.Some? ==> |now.removed| - |before.removed| < s.maxPerNode.value
    requires GoesOn(s, Try(s, now, node, pods[reached]).removed, node, pods[reached], next)
    ensures Working(s, before, Try(s, now, node, pods[reached]), node, pods, next, reached + 1)
  {
    TookNext(s, before, now, node, pods, reached);
    assert |Leaving(s, node, pods[..reached + 1])| == |Try(s, now, node, pods[reached]).removed| - |before.removed|;
  }

  lemma WorkingCapped(s: Setup, before: Log, now: Log, node: string, pods: seq<Pod>, reached: nat)
    requires Working(s, before, now, node, pods, NextPod, reached)
    requires s.maxPerNode.Some? && |now.removed| - |before.removed| >= s.maxPerNode.value
    ensures Working(s, before, now, node, pods, NextNode, reached)
  {
  }

  lemma WorkingEnds(s: Setup, before: Log, now: Log, node: string, pods: seq<Pod>, next: Next, reached: nat)
    requires Working(s, before, now, node, pods, next, reached) && (next == NextPod ==> reached >= |pods|)
    requires node in s.usage && node in s.target
    ensures Worked(s, before, now, node, pods, next == EndRun, reached)
  {
  }

  lemma NothingToDo(s: Setup, now: Log, node: string, pods: seq<Pod>)
    requires node in s.usage && node in s.target && (pods == [] || !MayEvict(s, now.removed, node))
    ensures Worked(s, now, now, node, pods, false, 0)
  {
  }

  // ------------------------------------------------------- the source nodes in order

  /** A run over the source nodes: the log before each node and after the last, and how many of
      its pods each node came to. Only the total limit, met by the last pod tried, ends the run
      before the last node. */
  datatype Trace = Trace(logs: seq<Log>, reached: seq<nat>)

  ghost predicate Traced(s: Setup, nodes: seq<string>, removable: map<string, seq<Pod>>, t: Trace, total: bool) {
    && |t.reached| <= |nodes| && |t.logs| == |t.reached| + 1 && t.logs[0] == Log([], [])
    && (if total then |t.reached| > 0 else |t.reached| == |nodes|)
    && Processed(s, nodes, removable, t, total)
  }

  /** The work done on each node so far; `total` says that the last one met the total limit. */
  ghost predicate Processed(s: Setup, nodes: seq<string>, removable: map<string, seq<Pod>>, t: Trace, total: bool)
    requires |t.reached| <= |nodes| && |t.logs| == |t.reached| + 1
  {
    forall k :: 0 <= k < |t.reached| ==>
      && nodes[k] in removable
      && Worked(s, t.logs[k], t.logs[k + 1], nodes[k], removable[nodes[k]], total && k == |t.reached| - 1, t.reached[k])
  }

  lemma ProcessedNext(s: Setup, nodes: seq<string>, removable: map<string, seq<Pod>>, t: Trace, after: Log,
                      total: bool, reached: nat)
    requires |t.reached| < |nodes| && |t.logs| == |t.reached| + 1 && Processed(s, nodes, removable, t, false)
    requires nodes[|t.reached|] in removable
    requires var k := |t.reached|; Worked(s, t.logs[k], after, nodes[k], removable[nodes[k]], total, reached)
    ensures Processed(s, nodes, removable, Trace(t.logs + [after], t.reached + [reached]), total)
  {
    var u := Trace(t.logs + [after], t.reached + [reached]);
    forall k | 0 <= k < |u.reached|
      ensures nodes[k] in removable
      ensures Worked(s, u.logs[k], u.logs[k + 1], nodes[k], removable[nodes[k]], total && k == |u.reached| - 1, u.reached[k])
    {
      assert u.logs[k] == t.logs[k];
      if k < |t.reached| {
        assert u.logs[k + 1] == t.logs[k + 1] && u.reached[k] == t.reached[k];
      }
    }
  }

  class EvictionRun {
    const setup: Setup
    var available: Quantities
    var usage: map<string, Quantities>
    var removed: seq<Removal>
    var attempts: seq<Attempt>

    function Done(): Log
      reads this
    {
      Log(removed, attempts)
    }

    ghost predicate Valid()
      reads this
    {
      setup.Valid() && Ledger(setup, available, usage, removed) && Calls(setup, attempts, removed)
    }

    constructor (setup: Setup)
      requires setup.Valid()
      ensures Valid() && this.setup == setup && removed == [] && attempts == []
    {
      this.setup := setup;
      available, usage, removed, attempts := setup.available, setup.usage, [], [];
      new;
      assert available == Drop(setup.available, [], None);
      assert forall n :: n in usage ==> usage[n] == Drop(setup.usage[n], [], Some(n));
    }

    /** `subtractPodUsageFromNodeAvailability`, resource by resource. */
    method Subtract(node: string, pod: Pod)
      requires node in usage && usage[node].Keys == available.Keys
      modifies this`available, this`usage
      ensures available == Less(old(available), pod)
      ensures usage == old(usage)[node := Less(old(usage)[node], pod)]
    {
      var totals, own := available, usage[node];
      var todo := totals.Keys;
      while todo != {}
        invariant todo <= totals.Keys == own.Keys == old(available).Keys
        invariant forall r :: r in totals ==> totals[r] == old(available)[r] - if r in todo then 0 else Charge(pod, r)
        invariant forall r :: r in own ==> own[r] == old(usage)[node][r] - if r in todo then 0 else Charge(pod, r)
        decreases todo
      {
        var r :| r in todo;
        var amount := Charge(pod, r);
        own := own[r := own[r] - amount];
        totals := totals[r := totals[r] - amount];
        todo := todo - {r};
      }
      assert totals == Less(old(available), pod) && own == Less(old(usage)[node], pod);
      available, usage := totals, usage[node := own];
    }

    /** The stop condition, read off the ledgers. */
    method Continues(node: string) returns (more: bool)
      requires Valid() && node in setup.usage
      ensures more == MayEvict(setup, removed, node)
    {
      more := ContinueEviction(setup, node, usage[node], available);
      LedgerDecides(setup, available, usage, removed, node);
    }

    /** One eviction call and, when it succeeds, its bookkeeping. */
    method Evict(node: string, pod: Pod) returns (outcome: EvictResult)
      requires Valid() && MayEvict(setup, removed, node) && setup.eligible(pod)
      modifies this
      ensures Valid() && outcome == setup.evict(pod)
      ensures removed == if outcome.Success? then old(removed) + [Removal(pod, node)] else old(removed)
      ensures attempts == old(attempts) + [Attempt(pod, node, |old(removed)|)]
    {
      assert removed[..|removed|] == removed;
      attempts := attempts + [Attempt(pod, node, |removed|)];
      outcome := setup.evict(pod);
      if outcome.Success? {
        LedgerAppend(setup, available, usage, removed, Removal(pod, node));
        CallsAppend(setup, attempts, removed, Removal(pod, node));
        Subtract(node, pod);
        removed := removed + [Removal(pod, node)];
      }
    }

    /** The body of the loop over one node's pods, for one pod. */
    method TryPod(node: string, pod: Pod) returns (next: Next)
      requires Valid() && MayEvict(setup, removed, node)
      modifies this
      ensures Valid() && Done() == Try(setup, old(Done()), node, pod)
      ensures GoesOn(setup, removed, node, pod, next)
    {
      if !setup.eligible(pod) {
        return NextPod;
      }
      var outcome := Evict(node, pod);
      match outcome {
        case NodeLimit => return NextNode;
        case TotalLimit => return EndRun;
        case OtherError => return NextPod;
        case Success =>
      }
      var more := Continues(node);
      return if more then NextPod else NextNode;
    }

    /** One round of the loop over one node's pods. */
    method Round(node: string, pods: seq<Pod>, reached0: nat, evictionCounter0: nat, ghost before: Log)
      returns (next: Next, reached: nat, evictionCounter: nat)
      requires Valid() && evictionCounter0 == |removed| - |before.removed| && reached0 < |pods|
      requires Working(setup, before, Done(), node, pods, NextPod, reached0)
      modifies this
      ensures Valid() && evictionCounter == |removed| - |before.removed|
      ensures Working(setup, before, Done(), node, pods, next, reached)
      ensures next == NextPod ==> reached == reached0 + 1
    {
      if setup.maxPerNode.Some? && evictionCounter0 >= setup.maxPerNode.value {
        WorkingCapped(setup, before, Done(), node, pods, reached0);
        return NextNode, reached0, evictionCounter0;
      }
      ghost var now := Done();
      next := TryPod(node, pods[reached0]);
      WorkingNext(setup, before, now, node, pods, next, reached0);
      reached, evictionCounter := reached0 + 1, if Goes(setup, pods[reached0]) then evictionCounter0 + 1 else evictionCounter0;
    }

    /** The loop over one node's pods, `reached` of them in all. */
    method WorkThrough(node: string, pods: seq<Pod>) returns (next: Next, reached: nat)
      requires Valid() && MayEvict(setup, removed, node)
      modifies this
      ensures Valid() && Worked(setup, old(Done()), Done(), node, pods, next == EndRun, reached)
    {
      ghost var before := Done();
      next, reached := NextPod, 0;
      var evictionCounter := 0;
      while next == NextPod && reached < |pods|
        invariant Valid() && evictionCounter == |removed| - |before.removed|
        invariant Working(setup, before, Done(), node, pods, next, reached)
        decreases next == NextPod, |pods| - reached
      {
        next, reached, evictionCounter := Round(node, pods, reached, evictionCounter, before);
      }
      WorkingEnds(setup, before, Done(), node, pods, next, reached);
    }

    /** `evictPods`: work through one node's pods in the given order, unless the stop condition
        already holds. `total` says that the total eviction limit was hit. */
    method EvictPods(node: string, pods: seq<Pod>) returns (total: bool, reached: nat)
      requires Valid() && node in setup.usage
      modifies this
      ensures Valid() && Worked(setup, old(Done()), Done(), node, pods, total, reached)
    {
      var more := Continues(node);
      if !more {
        NothingToDo(setup, Done(), node, pods);
        return false, 0;
      }
      var next;
      next, reached := WorkThrough(node, pods);
      total := next == EndRun;
    }

    /** A node without removable pods is passed over. */
    method EvictIfAny(node: string, pods: seq<Pod>) returns (total: bool, reached: nat)
      requires Valid() && node in setup.usage
      modifies this
      ensures Valid() && Worked(setup, old(Done()), Done(), node, pods, total, reached)
    {
      if pods == [] {
        NothingToDo(setup, Done(), node, pods);
        return false, 0;
      }
      total, reached := EvictPods(node, pods);
    }

    /** `evictPodsFromSourceNodes`: the source nodes in order, each with its removable pods in
        some order. The trace accounts for every node, every call and every removal. */
    method EvictFromSourceNodes(nodes: seq<string>, removable: map<string, seq<Pod>>) returns (total: bool, ghost trace: Trace)
      requires Valid() && Done() == Log([], [])
      requires forall n :: n in nodes ==> n in setup.usage && n in removable
      modifies this
      ensures Valid() && Traced(setup, nodes, removable, trace, total) && Done() == trace.logs[|trace.reached|]
    {
      trace := Trace([Done()], []);
      for k := 0 to |nodes|
        invariant Valid() && |trace.reached| == k && |trace.logs| == k + 1
        invariant trace.logs[0] == Log([], []) && trace.logs[k] == Done()
        invariant Processed(setup, nodes, removable, trace, false)
      {
        assert nodes[k] in nodes;
        var reached;
        total, reached := EvictIfAny(nodes[k], removable[nodes[k]]);
        ProcessedNext(setup, nodes, removable, trace, Done(), total, reached);
        trace := Trace(trace.logs + [Done()], trace.reached + [reached]);
        if total {
          return;
        }
      }
      return false, trace;
    }
  }

  // ------------------------------------------------------- what a trace means

  lemma {:induction false} LogsGrow(s: Setup, nodes: seq<string>, removable: map<string, seq<Pod>>, t: Trace,
                                    total: bool, i: nat, j: nat)
    requires Traced(s, nodes, removable, t, total) && i <= j <= |t.reached|
    ensures t.logs[i].removed <= t.logs[j].removed
    decreases j
  {
    if i < j {
      LogsGrow(s, nodes, removable, t, total, i, j - 1);
      assert Worked(s, t.logs[j - 1], t.logs[j], nodes[j - 1], removable[nodes[j - 1]], total &&
        j == |t.reached|, t.reached[j - 1]);
    }
  }

  /** Node `i` lost the pod of `x`: it was among those tried there, and could go. */
  ghost predicate LostAt(s: Setup, nodes: seq<string>, removable: map<string, seq<Pod>>, t: Trace, x: Removal, i: nat) {
    && i < |t.reached| && i < |nodes| && nodes[i] in removable && t.reached[i] <= |removable[nodes[i]]|
    && x.node == nodes[i] && x.pod in removable[nodes[i]][..t.reached[i]] && Goes(s, x.pod)
  }

  lemma {:induction false} RemovedSomewhere(s: Setup, nodes: seq<string>, removable: map<string, seq<Pod>>, t: Trace, total: bool,
                                            x: Removal, j: nat) returns (i: nat)
    requires Traced(s, nodes, removable, t, total) && j <= |t.reached| && x in t.logs[j].removed
    ensures i < j && LostAt(s, nodes, removable, t, x, i)
    decreases j
  {
    assert j > 0;
    i := j - 1;
    assert Worked(s, t.logs[i], t.logs[j], nodes[i], removable[nodes[i]], total && j == |t.reached|, t.reached[i]);
    if x in t.logs[i].removed {
      i := RemovedSomewhere(s, nodes, removable, t, total, x, i);
    } else {
      LeavingMeans(s, nodes[i], removable[nodes[i]][..t.reached[i]], x);
    }
  }

  lemma LostIsRemoved(s: Setup, nodes: seq<string>, removable: map<string, seq<Pod>>, t: Trace, total: bool, x: Removal, i: nat)
    requires Traced(s, nodes, removable, t, total) && LostAt(s, nodes, removable, t, x, i)
    ensures x in t.logs[|t.reached|].removed
  {
    assert Worked(s, t.logs[i], t.logs[i + 1], nodes[i], removable[nodes[i]], total && i == |t.reached| - 1, t.reached[i]);
    LeavingMeans(s, nodes[i], removable[nodes[i]][..t.reached[i]], x);
    assert x in t.logs[i + 1].removed;
    LogsGrow(s, nodes, removable, t, total, i + 1, |t.reached|);
  }

  /** How a node stands at the end: it lost exactly the pods that could go among the first
      `reached`, and kept the others only because nothing was left to try, the stop condition
      holds, the plugin's own limit is reached, or the last pod tried there met a limit. */
  ghost predicate Settled(s: Setup, removed: seq<Removal>, node: string, pods: seq<Pod>, reached: nat) {
    && node in s.usage && node in s.target && reached <= |pods|
    && (forall p :: Removal(p, node) in removed <==> p in pods[..reached] && s.eligible(p) && s.evict(p).Success?)
    && (|| reached == |pods|
        || UsedUp(s, removed, node)
        || (s.maxPerNode.Some? && |Leaving(s, node, pods[..reached])| == s.maxPerNode.value)
        || (reached > 0 && s.eligible(pods[reached - 1])
            && (s.evict(pods[reached - 1]).NodeLimit? || s.evict(pods[reached - 1]).TotalLimit?)))
  }

  lemma EitherWay(s: Setup, done: seq<Removal>, node: string)
    requires node in s.usage && node in s.target
    ensures UsedUp(s, done, node) <==> !MayEvict(s, done, node)
  {
    if s.low && !UsedUp(s, done, node) {
      var r :| r in s.usage[node] && r in s.target[node] && s.usage[node][r] - Moved(done, Some(node), r) > s.target[node][r];
      assert r in s.usage[node];
    }
  }

  lemma {:induction false} MovedGrows(before: seq<Removal>, after: seq<Removal>, scope: Option<string>, r: string)
    requires before <= after
    ensures Moved(before, scope, r) <= Moved(after, scope, r)
    decreases |after|
  {
    if |after| == |before| {
      assert after == before;
    } else {
      MovedGrows(before, after[..|after| - 1], scope, r);
    }
  }

  /** The stop condition, once it holds, holds for good. */
  lemma StopIsFinal(s: Setup, before: seq<Removal>, after: seq<Removal>, node: string)
    requires before <= after && MayEvict(s, after, node)
    ensures MayEvict(s, before, node)
  {
    forall r
      ensures Moved(before, None, r) <= Moved(after, None, r) && Moved(before, Some(node), r) <= Moved(after, Some(node), r)
    {
      MovedGrows(before, after, None, r);
      MovedGrows(before, after, Some(node), r);
    }
    if s.low {
      var r :| r in s.usage[node] && r in s.target[node] && s.usage[node][r] - Moved(after, Some(node), r) > s.target[node][r];
      assert s.usage[node][r] - Moved(before, Some(node), r) > s.target[node][r];
    }
  }

  lemma StoppedStays(s: Setup, before: seq<Removal>, after: seq<Removal>, node: string, pods: seq<Pod>, reached: nat)
    requires before <= after && reached <= |pods| && Stopped(s, before, node, pods, reached)
    ensures Stopped(s, after, node, pods, reached)
  {
    if MayEvict(s, after, node) {
      StopIsFinal(s, before, after, node);
    }
  }

  /** Every node the run came to is settled, whether or not the total limit was met. */
  lemma TraceSettles(s: Setup, nodes: seq<string>, removable: map<string, seq<Pod>>, t: Trace, total: bool, k: nat)
    requires Traced(s, nodes, removable, t, total) && Distinct(nodes) && k < |t.reached|
    ensures Settled(s, t.logs[|t.reached|].removed, nodes[k], removable[nodes[k]], t.reached[k])
  {
    var removed, node, pods := t.logs[|t.reached|].removed, nodes[k], removable[nodes[k]];
    assert Worked(s, t.logs[k], t.logs[k + 1], node, pods, total && k == |t.reached| - 1, t.reached[k]);
    LogsGrow(s, nodes, removable, t, total, k + 1, |t.reached|);
    StoppedStays(s, t.logs[k + 1].removed, removed, node, pods, t.reached[k]);
    EitherWay(s, removed, node);
    forall p
      ensures Removal(p, node) in removed <==> p in pods[..t.reached[k]] && Goes(s, p)
    {
      if Removal(p, node) in removed {
        var i := RemovedSomewhere(s, nodes, removable, t, total, Removal(p, node), |t.reached|);
        assert i == k;
      }
      if p in pods[..t.reached[k]] && Goes(s, p) {
        LostIsRemoved(s, nodes, removable, t, total, Removal(p, node), k);
      }
    }
  }

  /** A node the run did not come to lost nothing. */
  lemma TraceSpares(s: Setup, nodes: seq<string>, removable: map<string, seq<Pod>>, t: Trace, total: bool, k: nat, p: Pod)
    requires Traced(s, nodes, removable, t, total) && Distinct(nodes) && |t.reached| <= k < |nodes|
    ensures Removal(p, nodes[k]) !in t.logs[|t.reached|].removed
  {
    if Removal(p, nodes[k]) in t.logs[|t.reached|].removed {
      var i := RemovedSomewhere(s, nodes, removable, t, total, Removal(p, nodes[k]), |t.reached|);
      assert false;
    }
  }

  // ------------------------------------------------------- limits met

  /** After a call that met the total limit none follows, and after one that met the node limit
      none on that node. */
  ghost predicate LimitsEndWork(s: Setup, attempts: seq<Attempt>) {
    forall i, j :: 0 <= i < j < |attempts| ==>
      && !s.evict(attempts[i].pod).TotalLimit?
      && (s.evict(attempts[i].pod).NodeLimit? ==> attempts[i].node != attempts[j].node)
  }

  lemma {:induction false} AskedMeans(s: Setup, node: string, pods: seq<Pod>, base: nat, i: nat)
    requires i < |Asked(s, node, pods, base)|
    ensures var a := Asked(s, node, pods, base)[i]; a.node == node && a.pod in pods && s.eligible(a.pod)
    decreases |pods|
  {
    var front, last := pods[..|pods| - 1], pods[|pods| - 1];
    assert pods == front + [last];
    if i < |Asked(s, node, front, base)| {
      AskedMeans(s, node, front, base, i);
    }
  }

  /** Up to the first refusal no call but the last can meet a limit. */
  lemma OnlyLastRefused(s: Setup, node: string, pods: seq<Pod>, base: nat, i: nat)
    requires Unrefused(s, pods, |pods| - 1) && i < |Asked(s, node, pods, base)|
    ensures var a := Asked(s, node, pods, base);
            Refused(s, a[i].pod) ==> i == |a| - 1 && pods != [] && a[i].pod == pods[|pods| - 1]
  {
    var front, last := pods[..|pods| - 1], pods[|pods| - 1];
    if i < |Asked(s, node, front, base)| {
      AskedMeans(s, node, front, base, i);
      var k :| 0 <= k < |front| && front[k] == Asked(s, node, front, base)[i].pod;
      assert !Refused(s, pods[k]);
    }
  }

  /** The calls made so far: on which nodes, and none that met the total limit. */
  ghost predicate CallsSoFar(s: Setup, attempts: seq<Attempt>, nodes: seq<string>, total: bool) {
    && LimitsEndWork(s, attempts)
    && forall i :: 0 <= i < |attempts| ==>
         attempts[i].node in nodes && (!total ==> !s.evict(attempts[i].pod).TotalLimit?)
  }

  lemma CallsGoOn(s: Setup, before: Log, after: Log, nodes: seq<string>, node: string, pods: seq<Pod>, total: bool, reached: nat)
    requires CallsSoFar(s, before.attempts, nodes, false) && node !in nodes
    requires Worked(s, before, after, node, pods, total, reached)
    ensures CallsSoFar(s, after.attempts, nodes + [node], total)
  {
    var tried := pods[..reached];
    var more := Asked(s, node, tried, |before.removed|);
    assert Unrefused(s, tried, |tried| - 1);
    forall i | 0 <= i < |more|
      ensures more[i].node == node && s.eligible(more[i].pod)
      ensures Refused(s, more[i].pod) ==> i == |more| - 1
      ensures !total ==> !s.evict(more[i].pod).TotalLimit?
    {
      AskedMeans(s, node, tried, |before.removed|, i);
      OnlyLastRefused(s, node, tried, |before.removed|, i);
    }
  }

  lemma {:induction false} CallsUpTo(s: Setup, nodes: seq<string>, removable: map<string, seq<Pod>>, t: Trace,
                                     total: bool, j: nat)
    requires Traced(s, nodes, removable, t, total) && Distinct(nodes) && j <= |t.reached|
    ensures CallsSoFar(s, t.logs[j].attempts, nodes[..j], total && j == |t.reached|)
    decreases j
  {
    if j > 0 {
      var i := j - 1;
      CallsUpTo(s, nodes, removable, t, total, i);
      assert nodes[..j] == nodes[..i] + [nodes[i]];
      CallsGoOn(s, t.logs[i], t.logs[j], nodes[..i], nodes[i], removable[nodes[i]], total && j == |t.reached|, t.reached[i]);
    }
  }

  /** Over the whole run a limit that is met ends the work it limits. */
  lemma CallsRespectLimits(s: Setup, nodes: seq<string>, removable: map<string, seq<Pod>>, t: Trace, total: bool)
    requires Traced(s, nodes, removable, t, total) && Distinct(nodes)
    ensures LimitsEndWork(s, t.logs[|t.reached|].attempts)
  {
    CallsUpTo(s, nodes, removable, t, total, |t.reached|);
  }

  /** Every removal is of a removable pod of one of the nodes, and none happens twice. */
  ghost predicate OnceEach(removed: seq<Removal>, nodes: seq<string>, removable: map<string, seq<Pod>>) {
    && (forall i :: 0 <= i < |removed| ==>
          removed[i].node in nodes && removed[i].node in removable && removed[i].pod in removable[removed[i].node])
    && Distinct(removed)
  }

  lemma {:induction false} RemovedOnce(s: Setup, nodes: seq<string>, removable: map<string, seq<Pod>>, t: Trace,
                                       total: bool, j: nat)
    requires Traced(s, nodes, removable, t, total) && Distinct(nodes) && j <= |t.reached|
    requires forall n :: n in nodes && n in removable ==> Distinct(removable[n])
    ensures Distinct(t.logs[j].removed)
    decreases j
  {
    if j > 0 {
      var i := j - 1;
      assert Worked(s, t.logs[i], t.logs[j], nodes[i], removable[nodes[i]], total && j == |t.reached|, t.reached[i]);
      RemovedOnce(s, nodes, removable, t, total, i);
      var tried := removable[nodes[i]][..t.reached[i]];
      assert Distinct(removable[nodes[i]]) by { assert nodes[i] in nodes; }
      LeavingOnce(s, nodes[i], tried);
      forall x | x in t.logs[i].removed
        ensures x !in Leaving(s, nodes[i], tried)
      {
        var h := RemovedSomewhere(s, nodes, removable, t, total, x, i);
        LeavingMeans(s, nodes[i], tried, x);
      }
      ConcatOnce(t.logs[i].removed, Leaving(s, nodes[i], tried));
    }
  }

  lemma ConcatOnce(a: seq<Removal>, b: seq<Removal>)
    requires Distinct(a) && Distinct(b) && forall x :: x in a ==> x !in b
    ensures Distinct(a + b)
  {
    forall k, l | 0 <= k < l < |a + b|
      ensures (a + b)[k] != (a + b)[l]
    {
      if k < |a| <= l {
        assert a[k] in a && b[l - |a|] in b;
      }
    }
  }

  lemma TraceIsOnceEach(s: Setup, nodes: seq<string>, removable: map<string, seq<Pod>>, t: Trace, total: bool)
    requires Traced(s, nodes, removable, t, total) && Distinct(nodes)
    requires forall n :: n in nodes && n in removable ==> Distinct(removable[n])
    ensures OnceEach(t.logs[|t.reached|].removed, nodes, removable)
  {
    var removed := t.logs[|t.reached|].removed;
    RemovedOnce(s, nodes, removable, t, total, |t.reached|);
    forall i | 0 <= i < |removed|
      ensures removed[i].node in nodes && removed[i].node in removable && removed[i].pod in removable[removed[i].node]
    {
      var k := RemovedSomewhere(s, nodes, removable, t, total, removed[i], |t.reached|);
    }
  }
}
