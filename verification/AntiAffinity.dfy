/** The inter-pod anti-affinity pass: evict pods that conflict with another pod still present,
    deleting from the lists while walking them. */
module AntiAffinity {
  import opened Common

  /** `selector` is absent when the label selector cannot be converted. */
  datatype Term = Term(namespaces: set<string>, selector: Option<string>, topologyKey: string)

  /** `terms` are the pod's required anti-affinity terms. */
  datatype Pod = Pod(namespace: string, name: string, node: string, labels: map<string, string>, terms: seq<Term>)

  /** The labels of the known nodes, and the label library's verdict on a selector. */
  datatype Env = Env(nodes: map<string, map<string, string>>, matches: (string, map<string, string>) -> bool)

  // ------------------------------------------------------------- the conflict test

  function NamespacesOf(p: Pod, t: Term): set<string> {
    if t.namespaces == {} then {p.namespace} else t.namespaces
  }

  predicate SameZone(env: Env, a: string, b: string, key: string)
    requires a in env.nodes && b in env.nodes
  {
    || a == b
    || (key in env.nodes[a] && key in env.nodes[b] && env.nodes[a][key] == env.nodes[b][key])
  }

  /** `q` violates term `t` of `p`. */
  predicate Violates(env: Env, p: Pod, t: Term, q: Pod) {
    && p.node in env.nodes && q.node in env.nodes && t.selector.Some?
    && q.namespace in NamespacesOf(p, t) && q.name != p.name
    && env.matches(t.selector.value, q.labels)
    && SameZone(env, p.node, q.node, t.topologyKey)
  }

  /** What a term forbids: a pod of another name, in the namespaces it names or in the pod's own if
      it names none, that its selector matches, on the same node or on one with the same value for
      the topology key. */
  ghost predicate Forbids(env: Env, p: Pod, t: Term, q: Pod) {
    && q.name != p.name && q.namespace in (if t.namespaces != {} then t.namespaces else {p.namespace})
    && t.selector.Some? && env.matches(t.selector.value, q.labels)
    && p.node in env.nodes && q.node in env.nodes
    && (p.node != q.node ==>
          exists v :: Look(env.nodes[p.node], t.topologyKey) == Look(env.nodes[q.node], t.topologyKey) == Some(v))
  }

  lemma ViolatesIfForbidden(env: Env, p: Pod, t: Term, q: Pod)
    ensures Violates(env, p, t, q) <==> Forbids(env, p, t, q)
  {
    if Violates(env, p, t, q) && p.node != q.node {
      assert Look(env.nodes[p.node], t.topologyKey) == Some(env.nodes[p.node][t.topologyKey]);
    }
  }

  /** Some term, with no unreadable selector before it, forbids a present pod. */
  ghost predicate InConflict(env: Env, p: Pod, present: set<Pod>) {
    exists i, q :: 0 <= i < |p.terms| && q in present && Forbids(env, p, p.terms[i], q)
                   && forall j :: 0 <= j <= i ==> p.terms[j].selector.Some?
  }

  /** Fewer pods, fewer conflicts. */
  lemma ConflictIsMonotone(env: Env, p: Pod, fewer: set<Pod>, more: set<Pod>)
    requires fewer <= more && InConflict(env, p, fewer)
    ensures InConflict(env, p, more)
  {
    var i, q :| 0 <= i < |p.terms| && q in fewer && Forbids(env, p, p.terms[i], q)
                && forall j :: 0 <= j <= i ==> p.terms[j].selector.Some?;
    assert q in more;
  }

  type Grouped = map<string, seq<Pod>>

  /** Pods grouped by namespace, each name once. */
  ghost predicate WellGrouped(g: Grouped) {
    forall n :: n in g ==>
      && (forall k :: 0 <= k < |g[n]| ==> g[n][k].namespace == n)
      && (forall k, l :: 0 <= k < l < |g[n]| ==> g[n][k].name != g[n][l].name)
  }

  ghost function Present(g: Grouped): set<Pod> {
    set n, p | n in g && p in g[n] :: p
  }

  /** Whether a term is violated: the namespaces in any order, then their pods. */
  method TermViolated(env: Env, p: Pod, t: Term, g: Grouped) returns (found: bool)
    requires WellGrouped(g) && t.selector.Some? && p.node in env.nodes
    ensures found <==> exists q :: q in Present(g) && Forbids(env, p, t, q)
  {
    var todo := NamespacesOf(p, t);
    while todo != {}
      invariant todo <= NamespacesOf(p, t)
      invariant forall n, q :: n in NamespacesOf(p, t) - todo && n in g && q in g[n] ==> !Forbids(env, p, t, q)
      decreases todo
    {
      var n :| n in todo;
      var pods := if n in g then g[n] else [];
      for k := 0 to |pods|
        invariant forall l :: 0 <= l < k ==> !Forbids(env, p, t, pods[l])
      {
        ViolatesIfForbidden(env, p, t, pods[k]);
        if Violates(env, p, t, pods[k]) {
          assert pods[k] in g[n] && pods[k] in Present(g);
          return true;
        }
      }
      todo := todo - {n};
    }
    forall q | q in Present(g)
      ensures !Forbids(env, p, t, q)
    {
      var n :| n in g && q in g[n];
      assert q.namespace == n;
    }
    return false;
  }

  /** `CheckPodsWithAntiAffinityExist`. */
  method CheckConflict(env: Env, p: Pod, g: Grouped) returns (conflict: bool)
    requires WellGrouped(g)
    ensures conflict <==> InConflict(env, p, Present(g))
  {
    if p.node !in env.nodes {
      return false;
    }
    for i := 0 to |p.terms|
      invariant forall j :: 0 <= j < i ==> p.terms[j].selector.Some?
      invariant forall j, q :: 0 <= j < i && q in Present(g) ==> !Forbids(env, p, p.terms[j], q)
    {
      if p.terms[i].selector.None? {
        return false;
      }
      var found := TermViolated(env, p, p.terms[i], g);
      if found {
        return true;
      }
    }
    return false;
  }

  /** `removePodFromNamespaceMap`: the first pod of that name in the namespace goes. */
  method RemoveFromNamespace(p: Pod, g: Grouped) returns (result: Grouped)
    requires WellGrouped(g)
    ensures WellGrouped(result)
    ensures p in Present(g) ==> Present(result) == Present(g) - {p}
    ensures p !in Present(g) ==> Present(result) <= Present(g)
  {
    if p.namespace !in g {
      return g;
    }
    var pods := g[p.namespace];
    for i := 0 to |pods|
      invariant forall k :: 0 <= k < i ==> pods[k].name != p.name
    {
      if pods[i].name == p.name {
        result := g[p.namespace := pods[..i] + pods[i + 1..]];
        RemovedFrom(p, g, i, result);
        return;
      }
    }
    assert p !in pods;
    return g;
  }

  lemma RemovedAt(before: seq<Pod>, i: nat, q: Pod)
    requires i < |before| && forall k, l :: 0 <= k < l < |before| ==> before[k].name != before[l].name
    ensures q in before[..i] + before[i + 1..] <==> q in before && q != before[i]
  {
    var after := before[..i] + before[i + 1..];
    assert forall k :: 0 <= k < |after| ==> after[k] == before[if k < i then k else k + 1];
    if q in before && q != before[i] {
      var k :| 0 <= k < |before| && before[k] == q;
      assert after[if k < i then k else k - 1] == q;
    }
  }

  lemma RemovedFrom(p: Pod, g: Grouped, i: nat, result: Grouped)
    requires WellGrouped(g) && p.namespace in g && i < |g[p.namespace]| && g[p.namespace][i].name == p.name
    requires result == g[p.namespace := g[p.namespace][..i] + g[p.namespace][i + 1..]]
    ensures WellGrouped(result) && Present(result) == Present(g) - {g[p.namespace][i]}
    ensures p in Present(g) ==> g[p.namespace][i] == p
  {
    var before, after, gone := g[p.namespace], result[p.namespace], g[p.namespace][i];
    assert forall k :: 0 <= k < |after| ==> after[k] == before[if k < i then k else k + 1];
    forall q
      ensures q in Present(result) <==> q in Present(g) && q != gone
    {
      RemovedAt(before, i, q);
      if q in Present(g) && q != gone {
        var n :| n in g && q in g[n];
        assert q in result[n];
      }
    }
  }

  // ------------------------------------------------------------- the pass

  /** `allowed` is the evictor's two filters, `evict` its answer. */
  datatype Evictor = Evictor(allowed: Pod -> bool, evict: Pod -> EvictResult)

  /** The pod is gone, or no longer in conflict, or a filter refused it, or its eviction failed
      other than at a limit. */
  ghost predicate Settled(env: Env, ev: Evictor, p: Pod, present: set<Pod>) {
    p in present && InConflict(env, p, present) ==> !ev.allowed(p) || ev.evict(p).OtherError?
  }

  lemma SettledStays(env: Env, ev: Evictor, p: Pod, fewer: set<Pod>, more: set<Pod>)
    requires fewer <= more && Settled(env, ev, p, more)
    ensures Settled(env, ev, p, fewer)
  {
    if p in fewer && InConflict(env, p, fewer) {
      ConflictIsMonotone(env, p, fewer, more);
    }
  }

  function PodsOf(s: seq<Pod>): set<Pod> {
    set p | p in s
  }

  /** Each pod of `gone`, in that order, was evicted for a conflict with a pod then present. */
  ghost predicate Justified(env: Env, ev: Evictor, start: set<Pod>, gone: seq<Pod>) {
    forall k :: 0 <= k < |gone| ==>
      && gone[k] in start - PodsOf(gone[..k]) && InConflict(env, gone[k], start - PodsOf(gone[..k]))
      && ev.allowed(gone[k]) && ev.evict(gone[k]).Success?
  }

  lemma JustifiedGrows(env: Env, ev: Evictor, start: set<Pod>, gone: seq<Pod>, p: Pod)
    requires Justified(env, ev, start, gone) && p in start - PodsOf(gone) && InConflict(env, p, start - PodsOf(gone))
    requires ev.allowed(p) && ev.evict(p).Success?
    ensures Justified(env, ev, start, gone + [p]) && PodsOf(gone + [p]) == PodsOf(gone) + {p}
  {
    var longer := gone + [p];
    assert longer[..|gone|] == gone;
    assert forall k :: 0 <= k < |gone| ==> longer[..k] == gone[..k];
  }

  /** One step of the walk over one node's pods: the groups after it, and what became of the
      pod. */
  method Visit(env: Env, ev: Evictor, pod: Pod, g: Grouped) returns (next: Grouped, outcome: Option<EvictResult>)
    requires WellGrouped(g) && pod in Present(g)
    ensures WellGrouped(next)
    ensures outcome == if InConflict(env, pod, Present(g)) && ev.allowed(pod) then Some(ev.evict(pod)) else None
    ensures Present(next) == if outcome == Some(Success) then Present(g) - {pod} else Present(g)
  {
    next, outcome := g, None;
    var conflict := CheckConflict(env, pod, g);
    if conflict && ev.allowed(pod) {
      outcome := Some(ev.evict(pod));
      if outcome.value.Success? {
        next := RemoveFromNamespace(pod, g);
      }
    }
  }

  /** Where the walk stands: deleting the current pod, or stepping past it, leaves the same pods
      to visit. */
  lemma Walk(all: seq<Pod>, left: seq<Pod>, visited: nat, i: nat)
    requires Distinct(all) && i < |left| && visited <= |all| && left[i..] == all[visited..]
    ensures visited < |all| && left[i] == all[visited] && left[i] !in all[..visited]
    ensures left[i + 1..] == all[visited + 1..] && (left[..i] + left[i + 1..])[i..] == all[visited + 1..]
    ensures all[..visited + 1] == all[..visited] + [left[i]]
  {
    assert |left[i..]| == |all[visited..]|;
    assert left[i] == left[i..][0] == all[visited..][0];
    assert left[i + 1..] == left[i..][1..];
    assert all[visited + 1..] == all[visited..][1..];
  }

  /** The pod was in conflict and allowed, and its eviction met a limit. */
  ghost predicate CutAt(env: Env, ev: Evictor, p: Pod, present: set<Pod>) {
    InConflict(env, p, present) && ev.allowed(p) && (ev.evict(p).NodeLimit? || ev.evict(p).TotalLimit?)
  }

  /** After the first `visited` pods of a node: what is gone and why, and that those visited are
      settled and the others still present. */
  ghost predicate Visited(env: Env, ev: Evictor, all: seq<Pod>, start: set<Pod>, gone0: seq<Pod>, gone: seq<Pod>, visited: nat) {
    && visited <= |all| && gone0 <= gone && Justified(env, ev, start, gone)
    && (forall k :: 0 <= k < visited ==> Settled(env, ev, all[k], start - PodsOf(gone)))
    && (forall k :: visited <= k < |all| ==> all[k] in start - PodsOf(gone))
    && (forall k :: |gone0| <= k < |gone| ==> gone[k] in all[..visited])
  }

  /** A visited pod that was not in conflict, not allowed, or failed is settled. */
  lemma VisitedAndKept(env: Env, ev: Evictor, all: seq<Pod>, start: set<Pod>, gone0: seq<Pod>, gone: seq<Pod>, visited: nat)
    requires Distinct(all) && visited < |all| && Visited(env, ev, all, start, gone0, gone, visited)
    requires Settled(env, ev, all[visited], start - PodsOf(gone))
    ensures Visited(env, ev, all, start, gone0, gone, visited + 1)
  {
    assert all[..visited + 1] == all[..visited] + [all[visited]];
  }

  /** Once the pod just visited is gone, it and those before it are settled and those after it present. */
  lemma SettledWithout(env: Env, ev: Evictor, all: seq<Pod>, more: set<Pod>, visited: nat)
    requires Distinct(all) && visited < |all|
    requires forall k :: 0 <= k < visited ==> Settled(env, ev, all[k], more)
    requires forall k :: visited <= k < |all| ==> all[k] in more
    ensures forall k :: 0 <= k < visited + 1 ==> Settled(env, ev, all[k], more - {all[visited]})
    ensures forall k :: visited + 1 <= k < |all| ==> all[k] in more - {all[visited]}
  {
    forall k | 0 <= k < visited + 1
      ensures Settled(env, ev, all[k], more - {all[visited]})
    {
      if k < visited {
        SettledStays(env, ev, all[k], more - {all[visited]}, more);
      }
    }
  }

  /** The pod just visited joins those gone. */
  lemma GoneAmongVisited(all: seq<Pod>, from: nat, gone: seq<Pod>, visited: nat)
    requires visited < |all| && forall k :: from <= k < |gone| ==> gone[k] in all[..visited]
    ensures forall k :: from <= k < |gone + [all[visited]]| ==> (gone + [all[visited]])[k] in all[..visited + 1]
  {
    assert all[..visited + 1] == all[..visited] + [all[visited]];
  }

  /** A pod in conflict, allowed and evicted is gone. */
  lemma VisitedAndGone(env: Env, ev: Evictor, all: seq<Pod>, start: set<Pod>, gone0: seq<Pod>, gone: seq<Pod>, visited: nat)
    requires Distinct(all) && visited < |all| && Visited(env, ev, all, start, gone0, gone, visited)
    requires InConflict(env, all[visited], start - PodsOf(gone)) && ev.allowed(all[visited]) && ev.evict(all[visited]).Success?
    ensures Visited(env, ev, all, start, gone0, gone + [all[visited]], visited + 1)
    ensures start - PodsOf(gone + [all[visited]]) == start - PodsOf(gone) - {all[visited]}
  {
    var p := all[visited];
    JustifiedGrows(env, ev, start, gone, p);
    SettledWithout(env, ev, all, start - PodsOf(gone), visited);
    GoneAmongVisited(all, |gone0|, gone, visited);
    assert start - PodsOf(gone + [p]) == start - PodsOf(gone) - {p};
  }

  /** One round of the walk over a node's pods: visit `left[i]`, and delete it if it goes. */
  method WalkOn(env: Env, ev: Evictor, ghost all: seq<Pod>, ghost start: set<Pod>, ghost first: seq<Pod>,
                left0: seq<Pod>, i0: nat, g0: Grouped, gone0: seq<Pod>, ghost visited: nat)
    returns (left: seq<Pod>, i: nat, g: Grouped, gone: seq<Pod>, cut: Option<EvictResult>)
    requires Distinct(all) && i0 < |left0| && visited <= |all| && left0[i0..] == all[visited..]
    requires WellGrouped(g0) && Present(g0) == start - PodsOf(gone0) && Visited(env, ev, all, start, first, gone0, visited)
    ensures visited < |all| && WellGrouped(g) && Present(g) == start - PodsOf(gone)
    ensures cut.None? ==> Visited(env, ev, all, start, first, gone, visited + 1)
    ensures cut.None? ==> i <= |left| && left[i..] == all[visited + 1..] && |left| - i < |left0| - i0
    ensures cut.Some? ==> gone == gone0 && CutAt(env, ev, all[visited], Present(g)) && ev.evict(all[visited]) == cut.value
  {
    var pod := left0[i0];
    Walk(all, left0, visited, i0);
    left, i, gone, cut := left0, i0 + 1, gone0, None;
    var outcome;
    g, outcome := Visit(env, ev, pod, g0);
    if outcome == Some(NodeLimit) || outcome == Some(TotalLimit) {
      cut := outcome;
    } else if outcome == Some(Success) {
      VisitedAndGone(env, ev, all, start, first, gone0, visited);
      gone := gone0 + [pod];
      left, i := left0[..i0] + left0[i0 + 1..], i0;
    } else {
      VisitedAndKept(env, ev, all, start, first, gone0, visited);
    }
  }

  /** One node. The pods visited are, in order, a beginning of its list, all of it unless a
      limit cuts the walk off. */
  method DescheduleNode(env: Env, ev: Evictor, all: seq<Pod>, g0: Grouped, ghost start: set<Pod>, gone0: seq<Pod>)
    returns (g: Grouped, gone: seq<Pod>, cut: Option<EvictResult>, ghost visited: nat)
    requires WellGrouped(g0) && Distinct(all) && forall k :: 0 <= k < |all| ==> all[k] in Present(g0)
    requires Present(g0) == start - PodsOf(gone0) && Justified(env, ev, start, gone0)
    ensures WellGrouped(g) && Present(g) == start - PodsOf(gone)
    ensures Visited(env, ev, all, start, gone0, gone, visited) && (cut.None? ==> visited == |all|)
    ensures cut.Some? ==> visited < |all| && CutAt(env, ev, all[visited], Present(g)) && ev.evict(all[visited]) == cut.value
  {
    g, gone, cut, visited := g0, gone0, None, 0;
    var left, i := all, 0;
    while i < |left|
      invariant 0 <= i <= |left| && visited <= |all| && left[i..] == all[visited..]
      invariant WellGrouped(g) && Present(g) == start - PodsOf(gone)
      invariant cut.None? && Visited(env, ev, all, start, gone0, gone, visited)
      decreases |left| - i
    {
      left, i, g, gone, cut := WalkOn(env, ev, all, start, gone0, left, i, g, gone, visited);
      if cut.Some? {
        return;
      }
      visited := visited + 1;
    }
  }

  /** The pass over one node's pods: up to `cut` each was visited, those gone on the way are
      `gone[from..to]`, and if the walk was cut off the pod at the cut met a limit. */
  ghost predicate NodeWalked(env: Env, ev: Evictor, all: seq<Pod>, start: set<Pod>, gone: seq<Pod>, from: nat,
                             to: nat, cut: nat) {
    && cut <= |all| && from <= to <= |gone|
    && (forall k :: from <= k < to ==> gone[k] in all[..cut])
    && (cut < |all| ==> CutAt(env, ev, all[cut], start - PodsOf(gone[..to])))
  }

  /** The walk so far: how far it came on each node, and how many pods were gone before each. */
  datatype Walks = Walks(cuts: seq<nat>, marks: seq<nat>)

  ghost predicate Walked(env: Env, ev: Evictor, lists: seq<seq<Pod>>, start: set<Pod>, gone: seq<Pod>, w: Walks) {
    && |w.cuts| <= |lists| && |w.marks| == |w.cuts| + 1 && w.marks[0] == 0 && w.marks[|w.cuts|] == |gone|
    && forall i :: 0 <= i < |w.cuts| ==>
         NodeWalked(env, ev, lists[i], start, gone, w.marks[i], w.marks[i + 1], w.cuts[i])
  }

  lemma NodeWalkedStays(env: Env, ev: Evictor, all: seq<Pod>, start: set<Pod>, gone: seq<Pod>, longer: seq<Pod>,
                        from: nat, to: nat, cut: nat)
    requires NodeWalked(env, ev, all, start, gone, from, to, cut) && gone <= longer
    ensures NodeWalked(env, ev, all, start, longer, from, to, cut)
  {
    assert longer[..to] == gone[..to];
  }

  lemma WalkedNext(env: Env, ev: Evictor, lists: seq<seq<Pod>>, start: set<Pod>, gone: seq<Pod>, longer: seq<Pod>,
                   w: Walks, cut: nat)
    requires Walked(env, ev, lists, start, gone, w) && |w.cuts| < |lists| && gone <= longer
    requires NodeWalked(env, ev, lists[|w.cuts|], start, longer, |gone|, |longer|, cut)
    ensures Walked(env, ev, lists, start, longer, Walks(w.cuts + [cut], w.marks + [|longer|]))
  {
    var next := Walks(w.cuts + [cut], w.marks + [|longer|]);
    forall i | 0 <= i < |next.cuts|
      ensures NodeWalked(env, ev, lists[i], start, longer, next.marks[i], next.marks[i + 1], next.cuts[i])
    {
      if i < |w.cuts| {
        NodeWalkedStays(env, ev, lists[i], start, gone, longer, w.marks[i], w.marks[i + 1], w.cuts[i]);
      }
    }
  }

  /** Every pod visited is settled. */
  ghost predicate AllSettled(env: Env, ev: Evictor, lists: seq<seq<Pod>>, cuts: seq<nat>, present: set<Pod>) {
    |cuts| <= |lists| && forall i, k :: 0 <= i < |cuts| && 0 <= k < |lists[i]| && k < cuts[i] ==>
      Settled(env, ev, lists[i][k], present)
  }

  lemma AllSettledNext(env: Env, ev: Evictor, lists: seq<seq<Pod>>, cuts: seq<nat>, more: set<Pod>, fewer: set<Pod>, cut: nat)
    requires AllSettled(env, ev, lists, cuts, more) && fewer <= more && |cuts| < |lists| && cut <= |lists[|cuts|]|
    requires forall k :: 0 <= k < cut ==> Settled(env, ev, lists[|cuts|][k], fewer)
    ensures AllSettled(env, ev, lists, cuts + [cut], fewer)
  {
    forall i, k | 0 <= i < |cuts + [cut]| && 0 <= k < |lists[i]| && k < (cuts + [cut])[i]
      ensures Settled(env, ev, lists[i][k], fewer)
    {
      if i < |cuts| {
        SettledStays(env, ev, lists[i][k], fewer, more);
      }
    }
  }

  /** The walk over node `i` was cut off by the total limit. */
  ghost predicate TotalAt(ev: Evictor, lists: seq<seq<Pod>>, cuts: seq<nat>, i: nat)
    requires i < |cuts| <= |lists|
  {
    cuts[i] < |lists[i]| && ev.evict(lists[i][cuts[i]]).TotalLimit?
  }

  /** What goes from one node leaves the pods of later nodes present. */
  lemma OthersStay(lists: seq<seq<Pod>>, i: nat, before: set<Pod>, had: seq<Pod>, gone: seq<Pod>, start: set<Pod>, visited: nat)
    requires i < |lists| && visited <= |lists[i]| && had <= gone && before == start - PodsOf(had)
    requires forall k :: |had| <= k < |gone| ==> gone[k] in lists[i][..visited]
    requires forall a, b, p :: 0 <= a < b < |lists| && p in lists[a] ==> p !in lists[b]
    requires forall j, k :: i <= j < |lists| && 0 <= k < |lists[j]| ==> lists[j][k] in before
    ensures start - PodsOf(gone) <= before
    ensures forall j, k :: i < j < |lists| && 0 <= k < |lists[j]| ==> lists[j][k] in start - PodsOf(gone)
  {
    forall j, k | i < j < |lists| && 0 <= k < |lists[j]|
      ensures lists[j][k] in start - PodsOf(gone)
    {
      var p := lists[j][k];
      assert p in lists[j] && p in before;
    }
  }

  /** Each pod is on one node, once. */
  ghost predicate OneNode(lists: seq<seq<Pod>>) {
    && (forall i :: 0 <= i < |lists| ==> Distinct(lists[i]))
    && forall i, j, p :: 0 <= i < j < |lists| && p in lists[i] ==> p !in lists[j]
  }

  /** The pass after some of the nodes: what is gone and why, how far it came on each node, that
      those visited are settled, and that the pods of later nodes are all present. */
  ghost predicate SoFar(env: Env, ev: Evictor, lists: seq<seq<Pod>>, start: set<Pod>, gone: seq<Pod>, w: Walks) {
    && Justified(env, ev, start, gone) && Walked(env, ev, lists, start, gone, w)
    && AllSettled(env, ev, lists, w.cuts, start - PodsOf(gone))
    && forall j, k :: |w.cuts| <= j < |lists| && 0 <= k < |lists[j]| ==> lists[j][k] in start - PodsOf(gone)
  }

  /** One more node. */
  method PassNode(env: Env, ev: Evictor, lists: seq<seq<Pod>>, i: nat, g0: Grouped, ghost start: set<Pod>, gone0: seq<Pod>,
                  ghost w0: Walks)
    returns (g: Grouped, gone: seq<Pod>, total: bool, ghost w: Walks)
    requires i == |w0.cuts| < |lists| && OneNode(lists) && WellGrouped(g0) && Present(g0) == start - PodsOf(gone0)
    requires SoFar(env, ev, lists, start, gone0, w0)
    ensures WellGrouped(g) && Present(g) == start - PodsOf(gone) && SoFar(env, ev, lists, start, gone, w)
    ensures |w.cuts| == i + 1 && (TotalAt(ev, lists, w.cuts, i) <==> total)
    ensures forall j :: 0 <= j < i ==> TotalAt(ev, lists, w.cuts, j) == TotalAt(ev, lists, w0.cuts, j)
  {
    var cut;
    ghost var visited;
    g, gone, cut, visited := DescheduleNode(env, ev, lists[i], g0, start, gone0);
    OthersStay(lists, i, Present(g0), gone0, gone, start, visited);
    assert gone[..|gone|] == gone;
    WalkedNext(env, ev, lists, start, gone0, gone, w0, visited);
    AllSettledNext(env, ev, lists, w0.cuts, Present(g0), Present(g), visited);
    w := Walks(w0.cuts + [visited], w0.marks + [|gone|]);
    total := cut == Some(TotalLimit);
  }

  /** `Deschedule`: the nodes in order, each with its pods in some order. Every pod visited is
      settled: if it is still present and in conflict with a present pod, a filter refused it or
      its eviction failed. A pod is left unvisited only behind one of its node that was in
      conflict and met a limit, or on a node after the one where the total limit was met. Every
      pod gone was evicted while it conflicted with a pod still present. */
  method Deschedule(env: Env, ev: Evictor, lists: seq<seq<Pod>>, g0: Grouped)
    returns (g: Grouped, gone: seq<Pod>, stopped: bool, ghost walks: Walks)
    requires WellGrouped(g0) && OneNode(lists)
    requires forall i, k :: 0 <= i < |lists| && 0 <= k < |lists[i]| ==> lists[i][k] in Present(g0)
    ensures Present(g) == Present(g0) - PodsOf(gone) && SoFar(env, ev, lists, Present(g0), gone, walks)
    ensures if stopped then |walks.cuts| > 0 else |walks.cuts| == |lists|
    ensures forall i :: 0 <= i < |walks.cuts| ==> (TotalAt(ev, lists, walks.cuts, i) <==> stopped && i == |walks.cuts| - 1)
  {
    g, gone, stopped := g0, [], false;
    walks := Walks([], [0]);
    for i := 0 to |lists|
      invariant !stopped && WellGrouped(g) && |walks.cuts| == i
      invariant Present(g) == Present(g0) - PodsOf(gone) && SoFar(env, ev, lists, Present(g0), gone, walks)
      invariant forall j :: 0 <= j < i ==> !TotalAt(ev, lists, walks.cuts, j)
    {
      g, gone, stopped, walks := PassNode(env, ev, lists, i, g, Present(g0), gone, walks);
      if stopped {
        return;
      }
    }
  }
}
