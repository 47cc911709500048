/** What a node-utilization run guarantees as a whole. */
module UtilizationTheorems {
  import opened Common
  import opened Utilization

  // ------------------------------------------------------------- overshoot

  /** After the removals `done` a call is due: every destination total is strictly positive and, for
      LowNodeUtilization, some resource of the source node is above its target. */
  ghost predicate Due(s: Setup, done: seq<Removal>, node: string) {
    && node in s.usage && node in s.target
    && (forall r :: r in s.available ==> Moved(done, None, r) < s.available[r])
    && (s.low ==> exists r :: r in s.usage[node] && r in s.target[node]
                              && s.target[node][r] < s.usage[node][r] - Moved(done, Some(node), r))
  }

  /** Every eviction call, successful or not, was for an eligible pod and due after the removals
      before it. */
  ghost predicate CalledFor(s: Setup, attempts: seq<Attempt>, removed: seq<Removal>) {
    forall i :: 0 <= i < |attempts| ==>
      && attempts[i].before <= |removed| && s.eligible(attempts[i].pod)
      && Due(s, removed[..attempts[i].before], attempts[i].node)
  }

  lemma DueIfAllowed(s: Setup, done: seq<Removal>, node: string)
    requires MayEvict(s, done, node)
    ensures Due(s, done, node)
  {
    if s.low {
      var r :| r in s.usage[node] && r in s.target[node] && s.usage[node][r] - Moved(done, Some(node), r) > s.target[node][r];
      assert s.target[node][r] < s.usage[node][r] - Moved(done, Some(node), r);
    }
  }

  lemma EachCalledFor(s: Setup, attempts: seq<Attempt>, removed: seq<Removal>)
    requires Calls(s, attempts, removed)
    ensures CalledFor(s, attempts, removed)
  {
    forall i | 0 <= i < |attempts|
      ensures Due(s, removed[..attempts[i].before], attempts[i].node)
    {
      DueIfAllowed(s, removed[..attempts[i].before], attempts[i].node);
    }
  }

  /** Over the whole run, across all source nodes: every call is called for. So the load moved
      without the last pod is strictly below the headroom, and once a total is used up no node
      loses another pod. */
  lemma OvershootIsAtMostOnePod(s: Setup, attempts: seq<Attempt>, removed: seq<Removal>, r: string)
    requires Calls(s, attempts, removed) && r in s.available
    ensures CalledFor(s, attempts, removed)
    ensures removed != [] ==> Moved(removed[..|removed| - 1], None, r) < s.available[r]
    ensures forall k :: 0 <= k <= |removed| && Moved(removed[..k], None, r) >= s.available[r] ==>
              k == |removed| && forall i :: 0 <= i < |attempts| ==> attempts[i].before < k
  {
    EachCalledFor(s, attempts, removed);
    if removed != [] {
      var m := |removed| - 1;
      assert MayEvict(s, removed[..m], removed[m].node);
    }
    forall k, l | 0 <= k <= l <= |removed|
      ensures Moved(removed[..k], None, r) <= Moved(removed[..l], None, r)
    {
      MovedGrows(removed[..k], removed[..l], None, r);
    }
  }

  // ------------------------------------------- incremental usage is recomputed usage

  function Without(all: seq<Pod>, gone: set<Pod>): seq<Pod> {
    if all == [] then []
    else Without(all[..|all| - 1], gone) + if all[|all| - 1] in gone then [] else [all[|all| - 1]]
  }

  function GoneFrom(removed: seq<Removal>, n: string): set<Pod> {
    set x | x in removed && x.node == n :: x.pod
  }

  lemma WithoutLast(all: seq<Pod>, gone: set<Pod>, r: string)
    requires all != []
    ensures var front, last := all[..|all| - 1], all[|all| - 1];
            Load(Without(all, gone), r) == Load(Without(front, gone), r) + if last in gone then 0 else Charge(last, r)
  {
    var front, last := all[..|all| - 1], all[|all| - 1];
    if last in gone {
      assert Without(all, gone) == Without(front, gone);
    } else {
      assert Without(all, gone)[..|Without(front, gone)|] == Without(front, gone);
    }
  }

  lemma {:induction false} WithoutOneMore(all: seq<Pod>, gone: set<Pod>, p: Pod, r: string)
    requires Distinct(all) && p !in gone
    ensures Load(Without(all, gone), r) == Load(Without(all, gone + {p}), r) + if p in all then Charge(p, r) else 0
    decreases |all|
  {
    if all != [] {
      var front, last := all[..|all| - 1], all[|all| - 1];
      WithoutLast(all, gone, r);
      WithoutLast(all, gone + {p}, r);
      WithoutOneMore(front, gone, p, r);
      assert p in all <==> p in front || p == last by {
        assert all == front + [last];
      }
      assert last == p ==> p !in front;
    }
  }

  lemma {:induction false} WithoutNothing(all: seq<Pod>)
    ensures Without(all, {}) == all
    decreases |all|
  {
    if all != [] {
      WithoutNothing(all[..|all| - 1]);
    }
  }

  lemma GoneAppend(removed: seq<Removal>, x: Removal, n: string)
    requires forall i :: 0 <= i < |removed| ==> removed[i] != x
    ensures GoneFrom(removed + [x], n) == if x.node == n then GoneFrom(removed, n) + {x.pod} else GoneFrom(removed, n)
    ensures x.node == n ==> x.pod !in GoneFrom(removed, n)
  {
  }

  /** With request-based usage, a node's running usage always equals the usage summed from
      scratch over its pods not evicted; so it is never negative. */
  lemma {:induction false} UsageIsRecomputed(s: Setup, removed: seq<Removal>, n: string, all: seq<Pod>, r: string)
    requires n in s.usage && r in s.usage[n] && s.usage[n][r] == Load(all, r) && Distinct(all)
    requires forall i :: 0 <= i < |removed| && removed[i].node == n ==> removed[i].pod in all
    requires Distinct(removed)
    ensures Drop(s.usage[n], removed, Some(n))[r] == Load(Without(all, GoneFrom(removed, n)), r)
    decreases |removed|
  {
    if removed == [] {
      assert GoneFrom(removed, n) == {};
      WithoutNothing(all);
    } else {
      var front, last := removed[..|removed| - 1], removed[|removed| - 1];
      assert removed == front + [last];
      UsageIsRecomputed(s, front, n, all, r);
      GoneAppend(front, last, n);
      if last.node == n {
        assert removed[|front|] == last && last.pod in all;
        WithoutOneMore(all, GoneFrom(front, n), last.pod, r);
      }
    }
  }

  // ------------------------------------------------- the two ledgers agree

  function MovedOver(nodes: seq<string>, removed: seq<Removal>, r: string): nat {
    if nodes == [] then 0
    else MovedOver(nodes[..|nodes| - 1], removed, r) + Moved(removed, Some(nodes[|nodes| - 1]), r)
  }

  lemma {:induction false} OneNodeMoves(nodes: seq<string>, done: seq<Removal>, x: Removal, r: string)
    requires Distinct(nodes)
    ensures MovedOver(nodes, done + [x], r) == MovedOver(nodes, done, r) + if x.node in nodes then Charge(x.pod, r) else 0
    decreases |nodes|
  {
    if nodes != [] {
      var front, last := nodes[..|nodes| - 1], nodes[|nodes| - 1];
      assert nodes == front + [last] && last !in front;
      OneNodeMoves(front, done, x, r);
      assert (done + [x])[..|done|] == done;
    }
  }

  /** For every resource, what the destination totals lost is what the source nodes lost
      together. */
  lemma {:induction false} LedgersAgree(nodes: seq<string>, removed: seq<Removal>, r: string)
    requires Distinct(nodes)
    requires forall i :: 0 <= i < |removed| ==> removed[i].node in nodes
    ensures MovedOver(nodes, removed, r) == Moved(removed, None, r)
    decreases |removed|
  {
    if removed == [] {
      NothingMoved(nodes, r);
    } else {
      var front, last := removed[..|removed| - 1], removed[|removed| - 1];
      assert removed == front + [last];
      LedgersAgree(nodes, front, r);
      OneNodeMoves(nodes, front, last, r);
    }
  }

  lemma {:induction false} NothingMoved(nodes: seq<string>, r: string)
    ensures MovedOver(nodes, [], r) == 0
    decreases |nodes|
  {
    if nodes != [] { NothingMoved(nodes[..|nodes| - 1], r); }
  }

  // ------------------------------------------------- a run of the plugin

  /** What a run knows of its source nodes: all their pods, with usage computed from them,
      and which of the pods it may take. */
  ghost predicate Sources(s: Setup, nodes: seq<string>, pods: map<string, seq<Pod>>, removable: map<string, seq<Pod>>) {
    && Distinct(nodes)
    && forall n :: n in nodes ==>
         && n in s.usage && n in pods && n in removable
         && Distinct(pods[n]) && Distinct(removable[n]) && (forall p :: p in removable[n] ==> p in pods[n])
         && forall r :: r in s.usage[n] ==> s.usage[n][r] == Load(pods[n], r)
  }

  /** Usage is what recomputing it gives, what the destination totals lost is what the
      sources lost together, and without the last pod the totals are not used up. */
  ghost predicate Accounted(s: Setup, available: Quantities, usage: map<string, Quantities>, removed: seq<Removal>,
                            nodes: seq<string>, pods: map<string, seq<Pod>>)
  {
    && (forall n :: n in nodes ==>
          && n in usage && n in pods
          && forall r :: r in usage[n] ==> usage[n][r] == Load(Without(pods[n], GoneFrom(removed, n)), r))
    && (forall r :: r in s.available ==>
          && r in available && s.available[r] - available[r] == MovedOver(nodes, removed, r)
          && (removed != [] ==> Moved(removed[..|removed| - 1], None, r) < s.available[r]))
  }

  lemma RunIsAccounted(s: Setup, available: Quantities, usage: map<string, Quantities>, removed: seq<Removal>,
                       attempts: seq<Attempt>, nodes: seq<string>, pods: map<string, seq<Pod>>,
                       removable: map<string, seq<Pod>>)
    requires Sources(s, nodes, pods, removable) && OnceEach(removed, nodes, removable)
    requires Ledger(s, available, usage, removed) && Calls(s, attempts, removed)
    ensures Accounted(s, available, usage, removed, nodes, pods)
  {
    forall n, r | n in nodes && r in usage[n]
      ensures usage[n][r] == Load(Without(pods[n], GoneFrom(removed, n)), r)
    {
      UsageIsRecomputed(s, removed, n, pods[n], r);
    }
    forall r | r in s.available
      ensures MovedOver(nodes, removed, r) == Moved(removed, None, r)
      ensures removed != [] ==> Moved(removed[..|removed| - 1], None, r) < s.available[r]
    {
      LedgersAgree(nodes, removed, r);
      OvershootIsAtMostOnePod(s, attempts, removed, r);
    }
  }

  /** How the source nodes end: those the run came to are settled, in order, the others lost
      nothing, and only the total limit, met by the last pod tried, leaves others. */
  ghost predicate AllSettled(s: Setup, removed: seq<Removal>, nodes: seq<string>, removable: map<string, seq<Pod>>,
                             reached: seq<nat>, total: bool)
  {
    && |reached| <= |nodes| && (forall n :: n in nodes ==> n in removable)
    && (forall k :: 0 <= k < |reached| ==>
          && Settled(s, removed, nodes[k], removable[nodes[k]], reached[k])
          && (reached[k] > 0 && HitsTotal(s, removable[nodes[k]][reached[k] - 1]) <==> total && k == |reached| - 1))
    && (forall k, p :: |reached| <= k < |nodes| ==> Removal(p, nodes[k]) !in removed)
    && (if total then |reached| > 0 else |reached| == |nodes|)
  }

  lemma TraceSettlesAll(s: Setup, nodes: seq<string>, removable: map<string, seq<Pod>>, t: Trace, total: bool)
    requires Traced(s, nodes, removable, t, total) && Distinct(nodes) && forall n :: n in nodes ==> n in removable
    ensures AllSettled(s, t.logs[|t.reached|].removed, nodes, removable, t.reached, total)
  {
    forall k | 0 <= k < |t.reached|
      ensures Settled(s, t.logs[|t.reached|].removed, nodes[k], removable[nodes[k]], t.reached[k])
      ensures t.reached[k] > 0 && HitsTotal(s, removable[nodes[k]][t.reached[k] - 1]) <==> total && k == |t.reached| - 1
    {
      TraceSettles(s, nodes, removable, t, total, k);
      assert Worked(s, t.logs[k], t.logs[k + 1], nodes[k], removable[nodes[k]], total && k == |t.reached| - 1, t.reached[k]);
    }
    forall k, p | |t.reached| <= k < |nodes|
      ensures Removal(p, nodes[k]) !in t.logs[|t.reached|].removed
    {
      TraceSpares(s, nodes, removable, t, total, k, p);
    }
  }

  /** `nodes` are the source nodes, `pods` all the pods of each, `removable` those a run may
      take, in its order. The run is accounted for, call by call, and every node ends settled. */
  method Run(setup: Setup, nodes: seq<string>, pods: map<string, seq<Pod>>, removable: map<string, seq<Pod>>)
    returns (run: EvictionRun, total: bool, ghost trace: Trace)
    requires setup.Valid() && Sources(setup, nodes, pods, removable)
    ensures fresh(run) && run.Valid() && run.setup == setup
    ensures Traced(setup, nodes, removable, trace, total) && run.Done() == trace.logs[|trace.reached|]
    ensures Accounted(setup, run.available, run.usage, run.removed, nodes, pods)
    ensures CalledFor(setup, run.attempts, run.removed) && LimitsEndWork(setup, run.attempts)
    ensures AllSettled(setup, run.removed, nodes, removable, trace.reached, total)
  {
    run := new EvictionRun(setup);
    total, trace := run.EvictFromSourceNodes(nodes, removable);
    TraceIsOnceEach(setup, nodes, removable, trace, total);
    TraceSettlesAll(setup, nodes, removable, trace, total);
    CallsRespectLimits(setup, nodes, removable, trace, total);
    EachCalledFor(setup, run.attempts, run.removed);
    RunIsAccounted(setup, run.available, run.usage, run.removed, run.attempts, nodes, pods, removable);
  }
}
