/** RemoveDuplicates: finding duplicate pods per owner and node, computing the nodes they could land
    on, and evicting those above an even spread. Pods have at most one owner reference here. */
module Duplicates {
  import opened Common
  import NodeMatching
  import NodeSelectors
  import Sorting
  import TargetNodes

  /** What makes two pods duplicates: namespace, owner and the sorted container images. */
  datatype Owner = Owner(namespace: string, kind: string, name: string, images: seq<string>)

  /** `owner` is absent for a pod without owner reference or with an excluded owner kind. */
  datatype Pod = Pod(name: string, owner: Option<Owner>, spec: NodeMatching.PodSpec)

  datatype ContainerKey = ContainerKey(namespace: string, kind: string, name: string, image: string)

  function Keys(o: Owner): (ks: seq<ContainerKey>)
    ensures |ks| == |o.images|
    ensures forall i :: 0 <= i < |ks| ==> ks[i] == ContainerKey(o.namespace, o.kind, o.name, o.images[i])
  {
    seq(|o.images|, i requires 0 <= i < |o.images| => ContainerKey(o.namespace, o.kind, o.name, o.images[i]))
  }

  lemma KeysIdentifyOwner(a: Owner, b: Owner)
    requires Keys(a) == Keys(b) && a.images != []
    ensures a == b
  {
    assert Keys(a)[0] == Keys(b)[0];
    assert |a.images| == |b.images|;
    forall i | 0 <= i < |a.images|
      ensures a.images[i] == b.images[i]
    {
      assert Keys(a)[i] == Keys(b)[i];
    }
  }

  /** The pods of one owner, in order. */
  function Owned(pods: seq<Pod>, o: Owner): seq<Pod> {
    if pods == [] then []
    else Owned(pods[..|pods| - 1], o) + if pods[|pods| - 1].owner == Some(o) then [pods[|pods| - 1]] else []
  }

  function Lookup(m: map<ContainerKey, seq<seq<ContainerKey>>>, k: ContainerKey): seq<seq<ContainerKey>> {
    if k in m then m[k] else []
  }

  function DuplicatesOf(m: map<Owner, seq<Pod>>, o: Owner): seq<Pod> {
    if o in m then m[o] else []
  }

  function Occurrences(m: map<Owner, nat>, o: Owner): nat {
    if o in m then m[o] else 0
  }

  ghost predicate HasImages(pods: seq<Pod>) {
    forall p :: p in pods && p.owner.Some? ==> p.owner.value.images != []
  }

  /** The key lists recorded so far are those of the owners met so far. */
  ghost predicate Records(keysMap: map<ContainerKey, seq<seq<ContainerKey>>>, pods: seq<Pod>) {
    forall o: Owner :: o.images != [] ==> (Keys(o) in Lookup(keysMap, Keys(o)[0]) <==> Owned(pods, o) != [])
  }

  method Contains(lists: seq<seq<ContainerKey>>, keys: seq<ContainerKey>) returns (matched: bool)
    ensures matched <==> keys in lists
  {
    for i := 0 to |lists|
      invariant keys !in lists[..i]
    {
      if lists[i] == keys {
        return true;
      }
    }
    assert lists[..|lists|] == lists;
    return false;
  }

  lemma RecordsGrow(keysMap: map<ContainerKey, seq<seq<ContainerKey>>>, pods: seq<Pod>, p: Pod)
    requires Records(keysMap, pods)
    requires p.owner.Some? ==> p.owner.value.images != []
    ensures p.owner.None? ==> Records(keysMap, pods + [p])
    ensures p.owner.Some? ==>
              var keys := Keys(p.owner.value);
              if keys in Lookup(keysMap, keys[0]) then Records(keysMap, pods + [p])
              else Records(keysMap[keys[0] := Lookup(keysMap, keys[0]) + [keys]], pods + [p])
  {
    assert (pods + [p])[..|pods|] == pods;
    if p.owner.Some? {
      var own := p.owner.value;
      var keys := Keys(own);
      forall o: Owner | o.images != [] && Keys(o) == keys
        ensures o == own
      {
        KeysIdentifyOwner(own, o);
      }
    }
  }

  /** `own` without its first pod is recorded, if there is more than one. */
  ghost predicate RepeatsIn(duplicates: map<Owner, seq<Pod>>, o: Owner, own: seq<Pod>) {
    (o in duplicates <==> |own| > 1) && (o in duplicates ==> duplicates[o] == own[1..])
  }

  ghost predicate RepeatsOf(duplicates: map<Owner, seq<Pod>>, pods: seq<Pod>, o: Owner) {
    RepeatsIn(duplicates, o, Owned(pods, o))
  }

  /** Each owner's pods but the first are its duplicates. */
  ghost predicate Repeats(duplicates: map<Owner, seq<Pod>>, pods: seq<Pod>) {
    forall o :: RepeatsOf(duplicates, pods, o)
  }

  lemma OwnedAppend(pods: seq<Pod>, p: Pod, o: Owner)
    ensures Owned(pods + [p], o) == if p.owner == Some(o) then Owned(pods, o) + [p] else Owned(pods, o)
    ensures |Owned(pods + [p], o)| == |Owned(pods, o)| + if p.owner == Some(o) then 1 else 0
  {
    assert (pods + [p])[..|pods|] == pods;
  }

  lemma RepeatsSkip(duplicates: map<Owner, seq<Pod>>, pods: seq<Pod>, p: Pod)
    requires Repeats(duplicates, pods) && (p.owner.None? || Owned(pods, p.owner.value) == [])
    ensures Repeats(duplicates, pods + [p])
  {
    forall o
      ensures RepeatsOf(duplicates, pods + [p], o)
    {
      assert RepeatsOf(duplicates, pods, o);
      OwnedAppend(pods, p, o);
    }
  }

  lemma RepeatsInEntered(duplicates: map<Owner, seq<Pod>>, o: Owner, own: seq<Pod>, entry: Owner, p: Pod)
    requires RepeatsIn(duplicates, o, own) && (entry == o ==> own != [])
    ensures RepeatsIn(duplicates[entry := DuplicatesOf(duplicates, entry) + [p]], o, if entry == o then own + [p] else own)
  {
    if entry == o {
      assert (own + [p])[1..] == own[1..] + [p];
      assert DuplicatesOf(duplicates, o) == own[1..];
    }
  }

  lemma RepeatsOfEntered(duplicates: map<Owner, seq<Pod>>, pods: seq<Pod>, p: Pod, o: Owner)
    requires RepeatsOf(duplicates, pods, o) && p.owner.Some? && Owned(pods, p.owner.value) != []
    ensures RepeatsOf(duplicates[p.owner.value := DuplicatesOf(duplicates, p.owner.value) + [p]], pods + [p], o)
  {
    OwnedAppend(pods, p, o);
    RepeatsInEntered(duplicates, o, Owned(pods, o), p.owner.value, p);
  }

  lemma RepeatsEnter(duplicates: map<Owner, seq<Pod>>, pods: seq<Pod>, p: Pod)
    requires Repeats(duplicates, pods) && p.owner.Some? && Owned(pods, p.owner.value) != []
    ensures Repeats(duplicates[p.owner.value := DuplicatesOf(duplicates, p.owner.value) + [p]], pods + [p])
  {
    var entered := duplicates[p.owner.value := DuplicatesOf(duplicates, p.owner.value) + [p]];
    forall o
      ensures RepeatsOf(entered, pods + [p], o)
    {
      RepeatsOfEntered(duplicates, pods, p, o);
    }
  }

  /** Every owned pod is counted for its owner. */
  ghost predicate Tallies(occurrence0: map<Owner, nat>, occurrence: map<Owner, nat>, pods: seq<Pod>) {
    forall o :: Occurrences(occurrence, o) == Occurrences(occurrence0, o) + |Owned(pods, o)|
  }

  lemma OneMoreOccurrence(occurrence: map<Owner, nat>, own: Owner, o: Owner)
    ensures Occurrences(occurrence[own := Occurrences(occurrence, own) + 1], o) ==
            Occurrences(occurrence, o) + if o == own then 1 else 0
  {
  }

  lemma TalliesGrow(occurrence0: map<Owner, nat>, occurrence: map<Owner, nat>, pods: seq<Pod>, p: Pod)
    requires Tallies(occurrence0, occurrence, pods)
    ensures p.owner.None? ==> Tallies(occurrence0, occurrence, pods + [p])
    ensures p.owner.Some? ==>
              Tallies(occurrence0, occurrence[p.owner.value := Occurrences(occurrence, p.owner.value) + 1], pods + [p])
  {
    forall o { OwnedAppend(pods, p, o); }
    if p.owner.Some? {
      forall o { OneMoreOccurrence(occurrence, p.owner.value, o); }
    }
  }

  /** The loop over one node's pods. */
  method ScanNode(pods: seq<Pod>, occurrence0: map<Owner, nat>)
    returns (duplicates: map<Owner, seq<Pod>>, occurrence: map<Owner, nat>)
    requires HasImages(pods)
    ensures Tallies(occurrence0, occurrence, pods) && Repeats(duplicates, pods)
  {
    duplicates, occurrence := map[], occurrence0;
    var keysMap: map<ContainerKey, seq<seq<ContainerKey>>> := map[];
    for k := 0 to |pods|
      invariant Records(keysMap, pods[..k])
      invariant Tallies(occurrence0, occurrence, pods[..k])
      invariant Repeats(duplicates, pods[..k])
    {
      var pod := pods[k];
      assert pods[..k + 1] == pods[..k] + [pod];
      assert pod in pods;
      RecordsGrow(keysMap, pods[..k], pod);
      TalliesGrow(occurrence0, occurrence, pods[..k], pod);
      if pod.owner.None? {
        RepeatsSkip(duplicates, pods[..k], pod);
        continue;
      }
      var owner := pod.owner.value;
      occurrence := occurrence[owner := Occurrences(occurrence, owner) + 1];
      var keys := Keys(owner);
      var matched := Contains(Lookup(keysMap, keys[0]), keys);
      assert matched <==> Owned(pods[..k], owner) != [];
      if matched {
        RepeatsEnter(duplicates, pods[..k], pod);
        duplicates := duplicates[owner := DuplicatesOf(duplicates, owner) + [pod]];
      } else {
        RepeatsSkip(duplicates, pods[..k], pod);
        keysMap := keysMap[keys[0] := Lookup(keysMap, keys[0]) + [keys]];
      }
    }
    assert pods[..|pods|] == pods;
  }

  // ------------------------------------------------------------- all nodes

  datatype NodePods = NodePods(name: string, pods: seq<Pod>)

  ghost predicate NamedOnce(nodes: seq<NodePods>) {
    forall k, l :: 0 <= k < l < |nodes| ==> nodes[k].name != nodes[l].name
  }

  /** How many pods of an owner there are on all nodes. */
  function CountAll(nodes: seq<NodePods>, o: Owner): nat {
    if nodes == [] then 0 else CountAll(nodes[..|nodes| - 1], o) + |Owned(nodes[|nodes| - 1].pods, o)|
  }

  /** The names of the nodes. */
  ghost function NamesOf(nodes: seq<NodePods>): set<string> {
    set k | 0 <= k < |nodes| :: nodes[k].name
  }

  /** One node's duplicates of an owner: all its pods but the first. */
  ghost predicate SpreadAt(podNodes: map<string, seq<Pod>>, n: NodePods, o: Owner) {
    && (n.name in podNodes <==> |Owned(n.pods, o)| > 1)
    && (n.name in podNodes ==> podNodes[n.name] == Owned(n.pods, o)[1..])
  }

  /** The duplicates of an owner, by node. */
  ghost predicate Spread(podNodes: map<string, seq<Pod>>, nodes: seq<NodePods>, o: Owner) {
    && (forall k :: 0 <= k < |nodes| ==> SpreadAt(podNodes, nodes[k], o))
    && podNodes.Keys <= NamesOf(nodes)
  }

  function PodNodes(duplicatePods: map<Owner, map<string, seq<Pod>>>, o: Owner): map<string, seq<Pod>> {
    if o in duplicatePods then duplicatePods[o] else map[]
  }

  /** Enter one node's duplicates under their owners. */
  method Enter(duplicatePods: map<Owner, map<string, seq<Pod>>>, node: string, duplicates: map<Owner, seq<Pod>>)
    returns (result: map<Owner, map<string, seq<Pod>>>)
    ensures result.Keys == duplicatePods.Keys + duplicates.Keys
    ensures forall o :: PodNodes(result, o) ==
                        if o in duplicates then PodNodes(duplicatePods, o)[node := duplicates[o]] else PodNodes(duplicatePods, o)
  {
    result := duplicatePods;
    var todo := duplicates.Keys;
    while todo != {}
      invariant todo <= duplicates.Keys && result.Keys == duplicatePods.Keys + (duplicates.Keys - todo)
      invariant forall o :: PodNodes(result, o) ==
                            if o in duplicates && o !in todo then PodNodes(duplicatePods, o)[node := duplicates[o]]
                            else PodNodes(duplicatePods, o)
      decreases todo
    {
      var o :| o in todo;
      result := result[o := PodNodes(result, o)[node := duplicates[o]]];
      todo := todo - {o};
    }
  }

  lemma NamesOfOneMore(nodes: seq<NodePods>, n: NodePods)
    ensures NamesOf(nodes + [n]) == NamesOf(nodes) + {n.name}
  {
    var all := nodes + [n];
    forall m
      ensures m in NamesOf(all) <==> m in NamesOf(nodes) || m == n.name
    {
      if m in NamesOf(nodes) {
        var k :| 0 <= k < |nodes| && nodes[k].name == m;
        assert all[k].name == m;
      }
      assert all[|nodes|].name == n.name;
    }
  }

  lemma SpreadGrows(podNodes: map<string, seq<Pod>>, nodes: seq<NodePods>, o: Owner, n: NodePods,
                    duplicates: map<Owner, seq<Pod>>)
    requires Spread(podNodes, nodes, o) && NamedOnce(nodes + [n]) && RepeatsOf(duplicates, n.pods, o)
    ensures Spread(if o in duplicates then podNodes[n.name := duplicates[o]] else podNodes, nodes + [n], o)
  {
    var all := nodes + [n];
    var next := if o in duplicates then podNodes[n.name := duplicates[o]] else podNodes;
    NamesOfOneMore(nodes, n);
    assert n.name !in NamesOf(nodes) by {
      assert forall k :: 0 <= k < |nodes| ==> all[k].name != all[|nodes|].name && all[k] == nodes[k];
    }
    forall k | 0 <= k < |all|
      ensures SpreadAt(next, all[k], o)
    {
      if k < |nodes| {
        assert SpreadAt(podNodes, nodes[k], o) && nodes[k].name in NamesOf(nodes);
      }
    }
  }

  ghost predicate AllSpread(duplicatePods: map<Owner, map<string, seq<Pod>>>, nodes: seq<NodePods>) {
    forall o :: Spread(PodNodes(duplicatePods, o), nodes, o)
  }

  ghost predicate AllCounted(occurrence: map<Owner, nat>, nodes: seq<NodePods>) {
    forall o :: Occurrences(occurrence, o) == CountAll(nodes, o)
  }

  lemma AllSpreadNext(before: map<Owner, map<string, seq<Pod>>>, after: map<Owner, map<string, seq<Pod>>>,
                      nodes: seq<NodePods>, n: NodePods, duplicates: map<Owner, seq<Pod>>)
    requires AllSpread(before, nodes) && NamedOnce(nodes + [n]) && Repeats(duplicates, n.pods)
    requires forall o :: PodNodes(after, o) ==
                         if o in duplicates then PodNodes(before, o)[n.name := duplicates[o]] else PodNodes(before, o)
    ensures AllSpread(after, nodes + [n])
  {
    forall o
      ensures Spread(PodNodes(after, o), nodes + [n], o)
    {
      assert Spread(PodNodes(before, o), nodes, o) && RepeatsOf(duplicates, n.pods, o);
      SpreadGrows(PodNodes(before, o), nodes, o, n, duplicates);
    }
  }

  lemma AllCountedNext(before: map<Owner, nat>, after: map<Owner, nat>, nodes: seq<NodePods>, n: NodePods)
    requires AllCounted(before, nodes) && Tallies(before, after, n.pods)
    ensures AllCounted(after, nodes + [n])
  {
    assert (nodes + [n])[..|nodes|] == nodes;
  }

  /** What has been found on the nodes so far. */
  ghost predicate Found(duplicatePods: map<Owner, map<string, seq<Pod>>>, occurrence: map<Owner, nat>, nodes: seq<NodePods>) {
    && AllCounted(occurrence, nodes) && AllSpread(duplicatePods, nodes)
    && forall o :: o in duplicatePods ==> duplicatePods[o] != map[]
  }

  lemma EnteredIsNotEmpty(before: map<Owner, map<string, seq<Pod>>>, after: map<Owner, map<string, seq<Pod>>>, node: string,
                          duplicates: map<Owner, seq<Pod>>, o: Owner)
    requires o in before ==> before[o] != map[]
    requires o in after ==> o in before || o in duplicates
    requires PodNodes(after, o) == if o in duplicates then PodNodes(before, o)[node := duplicates[o]] else PodNodes(before, o)
    ensures o in after ==> after[o] != map[]
  {
    if o in after && o in duplicates {
      assert node in after[o];
    }
  }

  /** One more node scanned and entered. */
  method FindOn(duplicatePods0: map<Owner, map<string, seq<Pod>>>, occurrence0: map<Owner, nat>, n: NodePods,
                ghost done: seq<NodePods>)
    returns (duplicatePods: map<Owner, map<string, seq<Pod>>>, occurrence: map<Owner, nat>)
    requires Found(duplicatePods0, occurrence0, done) && NamedOnce(done + [n]) && HasImages(n.pods)
    ensures Found(duplicatePods, occurrence, done + [n])
  {
    var duplicates;
    duplicates, occurrence := ScanNode(n.pods, occurrence0);
    duplicatePods := Enter(duplicatePods0, n.name, duplicates);
    AllSpreadNext(duplicatePods0, duplicatePods, done, n, duplicates);
    AllCountedNext(occurrence0, occurrence, done, n);
    forall o | o in duplicatePods
      ensures duplicatePods[o] != map[]
    {
      EnteredIsNotEmpty(duplicatePods0, duplicatePods, n.name, duplicates, o);
    }
  }

  /** The first half of `Balance`: the duplicates of every owner and how often it occurs. */
  method FindDuplicates(nodes: seq<NodePods>)
    returns (duplicatePods: map<Owner, map<string, seq<Pod>>>, occurrence: map<Owner, nat>)
    requires NamedOnce(nodes) && forall k :: 0 <= k < |nodes| ==> HasImages(nodes[k].pods)
    ensures Found(duplicatePods, occurrence, nodes)
  {
    duplicatePods, occurrence := map[], map[];
    for k := 0 to |nodes|
      invariant Found(duplicatePods, occurrence, nodes[..k])
    {
      assert nodes[..k + 1] == nodes[..k] + [nodes[k]];
      duplicatePods, occurrence := FindOn(duplicatePods, occurrence, nodes[k], nodes[..k]);
    }
    assert nodes[..|nodes|] == nodes;
  }

  // ------------------------------------------------------------- eviction

  /** `a / b` rounded up. */
  function CeilDiv(a: nat, b: nat): (c: nat)
    requires b > 0
    ensures a <= b * c && (a > 0 ==> c > 0 && b * (c - 1) < a)
  {
    (a + b - 1) / b
  }

  /** The duplicates above the average; the list leaves out the node's first pod. */
  function Surplus(duplicates: seq<Pod>, upperAvg: nat): seq<Pod>
    requires upperAvg >= 1
  {
    if |duplicates| + 1 > upperAvg then duplicates[upperAvg - 1..] else []
  }

  predicate Limit(r: EvictResult) {
    r.NodeLimit? || r.TotalLimit?
  }

  predicate AllSucceed(pods: seq<Pod>, evict: Pod -> EvictResult) {
    forall k :: 0 <= k < |pods| ==> evict(pods[k]).Success?
  }

  /** The pods evicted when `pods` are tried in order up to the first limit. */
  function Taken(pods: seq<Pod>, evict: Pod -> EvictResult): seq<Pod> {
    if pods == [] || Limit(evict(pods[0])) then []
    else (if evict(pods[0]).Success? then [pods[0]] else []) + Taken(pods[1..], evict)
  }

  /** The first limit met is the total one. */
  predicate MeetsTotal(pods: seq<Pod>, evict: Pod -> EvictResult) {
    pods != [] && (evict(pods[0]).TotalLimit? || (!evict(pods[0]).NodeLimit? && MeetsTotal(pods[1..], evict)))
  }

  lemma {:induction false} TotalIsMet(pods: seq<Pod>, evict: Pod -> EvictResult)
    requires MeetsTotal(pods, evict)
    ensures exists p :: p in pods && evict(p).TotalLimit?
  {
    if evict(pods[0]).TotalLimit? {
      assert pods[0] in pods;
    } else {
      TotalIsMet(pods[1..], evict);
    }
  }

  lemma {:induction false} TakenBounds(pods: seq<Pod>, evict: Pod -> EvictResult)
    ensures |Taken(pods, evict)| <= |pods|
    ensures AllSucceed(pods, evict) ==> Taken(pods, evict) == pods
  {
    if pods != [] {
      TakenBounds(pods[1..], evict);
      assert forall k :: 0 <= k < |pods[1..]| ==> pods[1..][k] == pods[k + 1];
    }
  }

  /** Only pods whose eviction succeeds are taken; all of them, if no limit is met. */
  lemma {:induction false} TakenMeans(pods: seq<Pod>, evict: Pod -> EvictResult, p: Pod)
    ensures p in Taken(pods, evict) ==> p in pods && evict(p).Success?
    ensures (forall k :: 0 <= k < |pods| ==> !Limit(evict(pods[k]))) && p in pods && evict(p).Success? ==> p in Taken(pods, evict)
  {
    if pods != [] {
      TakenMeans(pods[1..], evict, p);
      assert forall k :: 0 <= k < |pods[1..]| ==> pods[1..][k] == pods[k + 1];
    }
  }

  /** The pods whose eviction succeeds, in order. */
  function Successes(pods: seq<Pod>, evict: Pod -> EvictResult): seq<Pod> {
    if pods == [] then []
    else Successes(pods[..|pods| - 1], evict) + if evict(pods[|pods| - 1]).Success? then [pods[|pods| - 1]] else []
  }

  lemma {:induction false} SuccessesHead(pods: seq<Pod>, evict: Pod -> EvictResult)
    requires pods != []
    ensures Successes(pods, evict) == (if evict(pods[0]).Success? then [pods[0]] else []) + Successes(pods[1..], evict)
    decreases |pods|
  {
    if |pods| > 1 {
      var front := pods[..|pods| - 1];
      SuccessesHead(front, evict);
      assert front[1..] == pods[1..][..|pods[1..]| - 1];
    }
  }

  /** The first `n` pods were tried and the next, if any, met a limit: gone are exactly those among
      the first `n` whose eviction succeeded. */
  ghost predicate TriedUpTo(pods: seq<Pod>, evict: Pod -> EvictResult, gone: seq<Pod>, total: bool, n: nat) {
    && n <= |pods| && gone == Successes(pods[..n], evict)
    && (forall k :: 0 <= k < n ==> evict(pods[k]).Success? || evict(pods[k]).OtherError?)
    && (n < |pods| ==> evict(pods[n]).NodeLimit? || evict(pods[n]).TotalLimit?)
    && (total <==> n < |pods| && evict(pods[n]).TotalLimit?)
  }

  lemma {:induction false} TakenUpTo(pods: seq<Pod>, evict: Pod -> EvictResult) returns (n: nat)
    ensures TriedUpTo(pods, evict, Taken(pods, evict), MeetsTotal(pods, evict), n)
  {
    if pods == [] || Limit(evict(pods[0])) {
      n := 0;
    } else {
      var rest := pods[1..];
      var m := TakenUpTo(rest, evict);
      n := m + 1;
      assert pods[..n][1..] == rest[..m];
      SuccessesHead(pods[..n], evict);
      assert forall k :: 1 <= k < |pods| ==> pods[k] == rest[k - 1];
    }
  }

  lemma TakenHead(pods: seq<Pod>, evict: Pod -> EvictResult)
    requires pods != []
    ensures Limit(evict(pods[0])) ==> Taken(pods, evict) == []
    ensures evict(pods[0]).Success? ==> Taken(pods, evict) == [pods[0]] + Taken(pods[1..], evict)
    ensures evict(pods[0]).OtherError? ==> Taken(pods, evict) == Taken(pods[1..], evict)
  {
  }

  /** The loop over one node's surplus pods, `evicted` of which are gone already. */
  method EvictInOrder(pods: seq<Pod>, evict: Pod -> EvictResult) returns (evicted: seq<Pod>, total: bool)
    ensures evicted == Taken(pods, evict)
    ensures total <==> MeetsTotal(pods, evict)
  {
    evicted := [];
    var rest := pods;
    while rest != []
      invariant evicted + Taken(rest, evict) == Taken(pods, evict)
      invariant MeetsTotal(rest, evict) == MeetsTotal(pods, evict)
      decreases |rest|
    {
      TakenHead(rest, evict);
      var pod := rest[0];
      match evict(pod) {
        case Success =>
          assert evicted + [pod] + Taken(rest[1..], evict) == evicted + ([pod] + Taken(rest[1..], evict));
          evicted := evicted + [pod];
        case NodeLimit => return evicted, false;
        case TotalLimit => return evicted, true;
        case OtherError =>
      }
      rest := rest[1..];
    }
    return evicted, false;
  }

  lemma FrontIsKept(own: seq<Pod>, evict: Pod -> EvictResult, m: nat, i: nat)
    requires Distinct(own) && i < m <= |own|
    ensures own[i] !in Taken(own[m..], evict)
  {
    TakenMeans(own[m..], evict, own[i]);
  }

  /** Of the pods `own` exactly those from position `m` on were tried, in order, up to the first
      limit, and none before that position is gone. */
  ghost predicate BackTried(own: seq<Pod>, m: nat, evict: Pod -> EvictResult, gone: seq<Pod>, total: bool)
    requires m <= |own|
  {
    && (exists tried :: TriedUpTo(own[m..], evict, gone, total, tried))
    && (Distinct(own) ==> forall i :: 0 <= i < m ==> own[i] !in gone)
    && (AllSucceed(own[m..], evict) ==> gone == own[m..])
    && |gone| <= |own| - m
  }

  lemma TakenFromBack(own: seq<Pod>, m: nat, evict: Pod -> EvictResult)
    requires m <= |own|
    ensures BackTried(own, m, evict, Taken(own[m..], evict), MeetsTotal(own[m..], evict))
  {
    var tried := TakenUpTo(own[m..], evict);
    TakenBounds(own[m..], evict);
    if Distinct(own) {
      forall i | 0 <= i < m { FrontIsKept(own, evict, m, i); }
    }
  }

  /** One node: evict the surplus, if there is any. The first `upperAvg - 1` duplicates stay, the
      others are tried in order. */
  method EvictSurplus(duplicates: seq<Pod>, upperAvg: nat, evict: Pod -> EvictResult) returns (evicted: seq<Pod>, total: bool)
    requires upperAvg >= 1
    ensures evicted == Taken(Surplus(duplicates, upperAvg), evict)
    ensures total <==> MeetsTotal(Surplus(duplicates, upperAvg), evict)
    ensures BackTried(duplicates, Min(|duplicates|, upperAvg - 1), evict, evicted, total)
  {
    if |duplicates| + 1 > upperAvg {
      evicted, total := EvictInOrder(duplicates[upperAvg - 1..], evict);
    } else {
      evicted, total := [], false;
    }
    TakenFromBack(duplicates, Min(|duplicates|, upperAvg - 1), evict);
  }

  /** What is done on one node visited: its surplus is tried, and the total limit is met there
      exactly if the run was cut off there. */
  ghost predicate HandledAt(duplicates: seq<Pod>, upperAvg: nat, evict: Pod -> EvictResult, gone: seq<Pod>, cutHere: bool)
  {
    && upperAvg >= 1
    && gone == Taken(Surplus(duplicates, upperAvg), evict)
    && (MeetsTotal(Surplus(duplicates, upperAvg), evict) <==> cutHere)
  }

  /** What is done for one owner: nothing with fewer than two target nodes; otherwise the surplus
      is tried on each node visited, and every node is visited unless the run is cut off at one. */
  ghost predicate Handled(podNodes: map<string, seq<Pod>>, occurrence: nat, targets: set<string>,
                          evict: Pod -> EvictResult, evicted: map<string, seq<Pod>>, cut: Option<string>)
  {
    if |targets| < 2 then evicted == map[] && cut.None?
    else
      && occurrence >= 1
      && evicted.Keys <= podNodes.Keys
      && (if cut.None? then evicted.Keys == podNodes.Keys else cut.value in evicted)
      && forall n :: n in evicted ==>
           HandledAt(podNodes[n], CeilDiv(occurrence, |targets|), evict, evicted[n], cut == Some(n))
  }

  /** One owner: every node with duplicates, in any order, until the total limit is hit. */
  method EvictOwner(podNodes: map<string, seq<Pod>>, occurrence: nat, targets: set<string>, evict: Pod -> EvictResult)
    returns (evicted: map<string, seq<Pod>>, cut: Option<string>)
    requires occurrence >= 1
    ensures Handled(podNodes, occurrence, targets, evict, evicted, cut)
  {
    evicted := map[];
    if |targets| < 2 {
      return evicted, None;
    }
    var upperAvg := CeilDiv(occurrence, |targets|);
    var todo := podNodes.Keys;
    while todo != {}
      invariant todo <= podNodes.Keys && evicted.Keys == podNodes.Keys - todo
      invariant forall n :: n in evicted ==> HandledAt(podNodes[n], upperAvg, evict, evicted[n], false)
      decreases todo
    {
      var node :| node in todo;
      var gone, stop := EvictSurplus(podNodes[node], upperAvg, evict);
      evicted := evicted[node := gone];
      todo := todo - {node};
      if stop {
        return evicted, Some(node);
      }
    }
    return evicted, None;
  }

  // ------------------------------------------------- what an owner ends up with

  /** When its surplus is evicted, a node with `count` pods of the owner keeps exactly
      min(count, upperAvg) of them, and so at least one. */
  lemma KeptOnNode(pods: seq<Pod>, o: Owner, upperAvg: nat)
    requires upperAvg >= 1 && |Owned(pods, o)| >= 1
    ensures var count := |Owned(pods, o)|;
            && count - |Surplus(Owned(pods, o)[1..], upperAvg)| == Min(count, upperAvg)
            && Min(count, upperAvg) >= 1
            && (count == 1 ==> Surplus(Owned(pods, o)[1..], upperAvg) == [])
  {
  }

  /** The surplus is the back of the owner's pods on the node, from position `upperAvg` on. */
  lemma SurplusIsBack(own: seq<Pod>, upperAvg: nat)
    requires upperAvg >= 1 && |own| >= 1
    ensures Surplus(own[1..], upperAvg) == own[Min(|own|, upperAvg)..]
  {
  }

  /** Evicted pods over all nodes, and room below the average over the target nodes. */
  function EvictedOver(nodes: seq<NodePods>, o: Owner, upperAvg: nat): nat {
    if nodes == [] then 0
    else EvictedOver(nodes[..|nodes| - 1], o, upperAvg)
         + |Owned(nodes[|nodes| - 1].pods, o)| - Min(|Owned(nodes[|nodes| - 1].pods, o)|, upperAvg)
  }

  function RoomOver(nodes: seq<NodePods>, targets: set<string>, o: Owner, upperAvg: nat): nat {
    if nodes == [] then 0
    else RoomOver(nodes[..|nodes| - 1], targets, o, upperAvg)
         + if nodes[|nodes| - 1].name in targets then upperAvg - Min(|Owned(nodes[|nodes| - 1].pods, o)|, upperAvg) else 0
  }

  /** The average once for every target node. */
  function ShareOver(nodes: seq<NodePods>, targets: set<string>, upperAvg: nat): nat {
    if nodes == [] then 0
    else ShareOver(nodes[..|nodes| - 1], targets, upperAvg) + if nodes[|nodes| - 1].name in targets then upperAvg else 0
  }

  lemma {:induction false} RoomBalance(nodes: seq<NodePods>, targets: set<string>, o: Owner, upperAvg: nat)
    ensures RoomOver(nodes, targets, o, upperAvg) + CountAll(nodes, o)
            >= EvictedOver(nodes, o, upperAvg) + ShareOver(nodes, targets, upperAvg)
    decreases |nodes|
  {
    if nodes != [] { RoomBalance(nodes[..|nodes| - 1], targets, o, upperAvg); }
  }

  lemma NamesOfLast(nodes: seq<NodePods>)
    requires NamedOnce(nodes) && nodes != []
    ensures NamesOf(nodes) == NamesOf(nodes[..|nodes| - 1]) + {nodes[|nodes| - 1].name}
    ensures nodes[|nodes| - 1].name !in NamesOf(nodes[..|nodes| - 1])
  {
    var m := |nodes| - 1;
    assert nodes[m].name in NamesOf(nodes);
  }

  function TargetsAmong(nodes: seq<NodePods>, targets: set<string>): nat {
    if nodes == [] then 0
    else TargetsAmong(nodes[..|nodes| - 1], targets) + if nodes[|nodes| - 1].name in targets then 1 else 0
  }

  lemma {:induction false} ShareIsProduct(nodes: seq<NodePods>, targets: set<string>, upperAvg: nat)
    ensures ShareOver(nodes, targets, upperAvg) == TargetsAmong(nodes, targets) * upperAvg
    decreases |nodes|
  {
    if nodes != [] {
      ShareIsProduct(nodes[..|nodes| - 1], targets, upperAvg);
      var t := TargetsAmong(nodes[..|nodes| - 1], targets);
      assert (t + 1) * upperAvg == t * upperAvg + upperAvg;
    }
  }

  lemma {:induction false} EveryTargetCounts(nodes: seq<NodePods>, targets: set<string>)
    requires NamedOnce(nodes) && targets <= NamesOf(nodes)
    ensures TargetsAmong(nodes, targets) == |targets|
    decreases |nodes|
  {
    if nodes == [] {
      assert targets == {};
    } else {
      var front, last := nodes[..|nodes| - 1], nodes[|nodes| - 1];
      NamesOfLast(nodes);
      EveryTargetCounts(front, targets - {last.name});
      OthersDoNotCount(front, targets, last.name);
    }
  }

  lemma {:induction false} OthersDoNotCount(nodes: seq<NodePods>, targets: set<string>, name: string)
    requires name !in NamesOf(nodes)
    ensures TargetsAmong(nodes, targets - {name}) == TargetsAmong(nodes, targets)
    decreases |nodes|
  {
    if nodes != [] {
      var front, m := nodes[..|nodes| - 1], |nodes| - 1;
      assert nodes[m].name in NamesOf(nodes);
      assert forall k :: 0 <= k < |front| ==> front[k].name == nodes[k].name && nodes[k].name in NamesOf(nodes);
      OthersDoNotCount(front, targets, name);
    }
  }

  /** The spare room below the average on the target nodes is at least the number evicted:
      every evicted pod has a place to go. */
  lemma RoomForEveryEvictedPod(nodes: seq<NodePods>, targets: set<string>, o: Owner)
    requires NamedOnce(nodes) && targets <= NamesOf(nodes) && |targets| >= 2
    ensures var upperAvg := CeilDiv(CountAll(nodes, o), |targets|);
            RoomOver(nodes, targets, o, upperAvg) >= EvictedOver(nodes, o, upperAvg)
  {
    var upperAvg := CeilDiv(CountAll(nodes, o), |targets|);
    RoomBalance(nodes, targets, o, upperAvg);
    ShareIsProduct(nodes, targets, upperAvg);
    EveryTargetCounts(nodes, targets);
  }

  function Gone(evicted: map<string, seq<Pod>>, n: string): nat {
    if n in evicted then |evicted[n]| else 0
  }

  function TotalEvicted(nodes: seq<NodePods>, evicted: map<string, seq<Pod>>): nat {
    if nodes == [] then 0
    else TotalEvicted(nodes[..|nodes| - 1], evicted) + Gone(evicted, nodes[|nodes| - 1].name)
  }

  lemma {:induction false} TotalIsBounded(nodes: seq<NodePods>, o: Owner, upperAvg: nat, evicted: map<string, seq<Pod>>)
    requires forall k :: 0 <= k < |nodes| ==>
               |Owned(nodes[k].pods, o)| - Gone(evicted, nodes[k].name) >= Min(|Owned(nodes[k].pods, o)|, upperAvg)
    ensures TotalEvicted(nodes, evicted) <= EvictedOver(nodes, o, upperAvg)
    decreases |nodes|
  {
    if nodes != [] {
      TotalIsBounded(nodes[..|nodes| - 1], o, upperAvg, evicted);
    }
  }

  lemma HandledTriesBack(own: seq<Pod>, upperAvg: nat, evict: Pod -> EvictResult, gone: seq<Pod>, total: bool)
    requires |own| >= 1 && HandledAt(own[1..], upperAvg, evict, gone, total)
    ensures BackTried(own, Min(|own|, upperAvg), evict, gone, total)
  {
    SurplusIsBack(own, upperAvg);
    TakenFromBack(own, Min(|own|, upperAvg), evict);
  }

  /** What an owner's work leaves on one node, `own` being its pods there in order. Where it was
      visited, exactly those from position `upperAvg` on were tried, in order, up to the first
      limit, and none before that position is gone. The node does not go below min(count, average)
      nor lose its last pod, and keeps exactly min(count, average) when it had no surplus, or was
      visited and every eviction there succeeded. */
  ghost predicate LeftEven(n: NodePods, o: Owner, upperAvg: nat, evict: Pod -> EvictResult,
                           evicted: map<string, seq<Pod>>, cut: Option<string>)
  {
    var own := Owned(n.pods, o);
    var count := |own|;
    && (n.name in evicted ==>
          count > 1 && BackTried(own, Min(count, upperAvg), evict, evicted[n.name], cut == Some(n.name)))
    && (cut.None? && count > 1 ==> n.name in evicted)
    && count - Gone(evicted, n.name) >= Min(count, upperAvg)
    && (count >= 1 ==> count - Gone(evicted, n.name) >= 1)
    && (count <= upperAvg || (n.name in evicted && AllSucceed(own[upperAvg..], evict)) ==>
          count - Gone(evicted, n.name) == Min(count, upperAvg))
  }

  /** How an owner's pods end up on all nodes; nothing is evicted elsewhere, and the target nodes
      have room below the average for every pod evicted. */
  ghost predicate EvenlySpread(nodes: seq<NodePods>, o: Owner, targets: set<string>, evict: Pod -> EvictResult,
                               evicted: map<string, seq<Pod>>, cut: Option<string>)
    requires |targets| >= 2
  {
    var upperAvg := CeilDiv(CountAll(nodes, o), |targets|);
    && evicted.Keys <= NamesOf(nodes)
    && (forall k :: 0 <= k < |nodes| ==> LeftEven(nodes[k], o, upperAvg, evict, evicted, cut))
    && TotalEvicted(nodes, evicted) <= RoomOver(nodes, targets, o, upperAvg)
  }

  lemma HandledLeavesEven(n: NodePods, o: Owner, podNodes: map<string, seq<Pod>>, upperAvg: nat,
                          evict: Pod -> EvictResult, evicted: map<string, seq<Pod>>, cut: Option<string>)
    requires upperAvg >= 1 && SpreadAt(podNodes, n, o) && (n.name in evicted ==> n.name in podNodes)
    requires cut.None? && n.name in podNodes ==> n.name in evicted
    requires n.name in evicted ==> HandledAt(podNodes[n.name], upperAvg, evict, evicted[n.name], cut == Some(n.name))
    ensures LeftEven(n, o, upperAvg, evict, evicted, cut)
  {
    if n.name in evicted {
      HandledTriesBack(Owned(n.pods, o), upperAvg, evict, evicted[n.name], cut == Some(n.name));
    }
  }

  lemma HandledIsEven(nodes: seq<NodePods>, o: Owner, podNodes: map<string, seq<Pod>>, targets: set<string>,
                      evict: Pod -> EvictResult, evicted: map<string, seq<Pod>>, cut: Option<string>)
    requires NamedOnce(nodes) && targets <= NamesOf(nodes) && |targets| >= 2 && CountAll(nodes, o) >= 1
    requires Spread(podNodes, nodes, o) && Handled(podNodes, CountAll(nodes, o), targets, evict, evicted, cut)
    ensures EvenlySpread(nodes, o, targets, evict, evicted, cut)
  {
    var upperAvg := CeilDiv(CountAll(nodes, o), |targets|);
    forall k | 0 <= k < |nodes|
      ensures LeftEven(nodes[k], o, upperAvg, evict, evicted, cut)
    {
      assert SpreadAt(podNodes, nodes[k], o);
      HandledLeavesEven(nodes[k], o, podNodes, upperAvg, evict, evicted, cut);
    }
    TotalIsBounded(nodes, o, upperAvg, evicted);
    RoomForEveryEvictedPod(nodes, targets, o);
  }

  /** An owner the run did not come to is left alone. */
  lemma UntouchedIsEven(nodes: seq<NodePods>, o: Owner, targets: set<string>, evict: Pod -> EvictResult, elsewhere: string)
    requires NamedOnce(nodes) && targets <= NamesOf(nodes) && |targets| >= 2 && CountAll(nodes, o) >= 1
    ensures EvenlySpread(nodes, o, targets, evict, map[], Some(elsewhere))
  {
    var upperAvg := CeilDiv(CountAll(nodes, o), |targets|);
    TotalIsBounded(nodes, o, upperAvg, map[]);
    RoomForEveryEvictedPod(nodes, targets, o);
  }

  lemma {:induction false} NodeCountsInAll(nodes: seq<NodePods>, o: Owner, k: nat)
    requires k < |nodes|
    ensures |Owned(nodes[k].pods, o)| <= CountAll(nodes, o)
    decreases |nodes|
  {
    if k < |nodes| - 1 { NodeCountsInAll(nodes[..|nodes| - 1], o, k); }
  }

  lemma DuplicatesOccur(nodes: seq<NodePods>, o: Owner, podNodes: map<string, seq<Pod>>)
    requires Spread(podNodes, nodes, o) && podNodes != map[]
    ensures CountAll(nodes, o) >= 1
  {
    var n :| n in podNodes;
    assert n in NamesOf(nodes);
    var k :| 0 <= k < |nodes| && nodes[k].name == n;
    assert SpreadAt(podNodes, nodes[k], o);
    NodeCountsInAll(nodes, o, k);
  }

  // ------------------------------------------------------- the target nodes

  /** What the duplicates of an owner ask of a node, all pods of it but the first on each node. */
  ghost function DuplicateSpecs(nodes: seq<NodePods>, o: Owner): set<NodeMatching.PodSpec> {
    set k, i | 0 <= k < |nodes| && 1 <= i < |Owned(nodes[k].pods, o)| :: Owned(nodes[k].pods, o)[i].spec
  }

  ghost function SpecsIn(podNodes: map<string, seq<Pod>>): set<NodeMatching.PodSpec> {
    set n, i | n in podNodes && 0 <= i < |podNodes[n]| :: podNodes[n][i].spec
  }

  lemma SpecsFound(podNodes: map<string, seq<Pod>>, nodes: seq<NodePods>, o: Owner)
    requires Spread(podNodes, nodes, o)
    ensures SpecsIn(podNodes) == DuplicateSpecs(nodes, o)
  {
    forall x | x in SpecsIn(podNodes)
      ensures x in DuplicateSpecs(nodes, o)
    {
      var n, i :| n in podNodes && 0 <= i < |podNodes[n]| && podNodes[n][i].spec == x;
      assert n in NamesOf(nodes);
      var k :| 0 <= k < |nodes| && nodes[k].name == n;
      assert SpreadAt(podNodes, nodes[k], o);
      assert Owned(nodes[k].pods, o)[i + 1].spec == x;
    }
    forall x | x in DuplicateSpecs(nodes, o)
      ensures x in SpecsIn(podNodes)
    {
      var k, i :| 0 <= k < |nodes| && 1 <= i < |Owned(nodes[k].pods, o)| && Owned(nodes[k].pods, o)[i].spec == x;
      assert SpreadAt(podNodes, nodes[k], o);
      assert podNodes[nodes[k].name][i - 1].spec == x;
    }
  }

  function Specs(pods: seq<Pod>): (specs: seq<NodeMatching.PodSpec>)
    ensures |specs| == |pods| && forall i :: 0 <= i < |specs| ==> specs[i] == pods[i].spec
  {
    seq(|pods|, i requires 0 <= i < |pods| => pods[i].spec)
  }

  ghost predicate Lists(specs: seq<NodeMatching.PodSpec>, podNodes: map<string, seq<Pod>>, done: set<string>) {
    forall x :: x in specs <==> exists n, i :: n in podNodes && n in done && 0 <= i < |podNodes[n]| && podNodes[n][i].spec == x
  }

  lemma ListsMore(specs: seq<NodeMatching.PodSpec>, podNodes: map<string, seq<Pod>>, done: set<string>, node: string)
    requires Lists(specs, podNodes, done) && node in podNodes
    ensures Lists(specs + Specs(podNodes[node]), podNodes, done + {node})
  {
    var more := Specs(podNodes[node]);
    forall x
      ensures x in specs + more <==>
              exists n, i :: n in podNodes && n in done + {node} && 0 <= i < |podNodes[n]| && podNodes[n][i].spec == x
    {
      if x in specs {
        var n, i :| n in podNodes && n in done && 0 <= i < |podNodes[n]| && podNodes[n][i].spec == x;
        assert n in done + {node};
      } else if x in more {
        var i :| 0 <= i < |more| && more[i] == x;
        assert podNodes[node][i].spec == x;
      }
      if n, i :| n in podNodes && n in done + {node} && 0 <= i < |podNodes[n]| && podNodes[n][i].spec == x {
        if n == node {
          assert more[i] == x;
        }
      }
    }
  }

  /** The duplicates of an owner, node by node in any order. */
  method ListSpecs(podNodes: map<string, seq<Pod>>) returns (specs: seq<NodeMatching.PodSpec>)
    ensures Sorting.Members(specs) == SpecsIn(podNodes)
  {
    specs := [];
    var todo := podNodes.Keys;
    while todo != {}
      invariant todo <= podNodes.Keys && Lists(specs, podNodes, podNodes.Keys - todo)
      decreases todo
    {
      var node :| node in todo;
      ListsMore(specs, podNodes, podNodes.Keys - todo, node);
      assert podNodes.Keys - (todo - {node}) == podNodes.Keys - todo + {node};
      specs := specs + Specs(podNodes[node]);
      todo := todo - {node};
    }
  }

  /** The nodes listed with their pods are the nodes considered as targets. A node whose pods could
      not be listed has none here. */
  ghost predicate SameNodes(nodes: seq<NodePods>, known: seq<NodeSelectors.Node>) {
    |known| == |nodes| && forall k :: 0 <= k < |nodes| ==> known[k].name == nodes[k].name
  }

  /** `targets` is what the shortcut may give for the duplicates of `o`. */
  ghost predicate TargetsFor(nodes: seq<NodePods>, known: seq<NodeSelectors.Node>, rules: NodeMatching.Rules, o: Owner,
                             targets: set<string>)
  {
    TargetNodes.Shortcut(targets, DuplicateSpecs(nodes, o), known, rules)
  }

  /** Every duplicate of `o` has a selector the API server admits. */
  ghost predicate AllAdmitted(nodes: seq<NodePods>, rules: NodeMatching.Rules, o: Owner) {
    forall p :: p in DuplicateSpecs(nodes, o) ==> NodeMatching.Admitted(p, rules)
  }

  lemma TargetsAreNamed(nodes: seq<NodePods>, known: seq<NodeSelectors.Node>, rules: NodeMatching.Rules,
                        specs: set<NodeMatching.PodSpec>)
    requires SameNodes(nodes, known)
    ensures TargetNodes.Targets(specs, known, rules) <= NamesOf(nodes)
  {
    forall name | name in TargetNodes.Targets(specs, known, rules)
      ensures name in NamesOf(nodes)
    {
      TargetNodes.TargetsAreNodes(specs, known, rules, name);
      var k :| 0 <= k < |known| && known[k].name == name;
      assert nodes[k].name == name;
    }
  }

  /** `getTargetNodes` on the duplicates found of one owner. */
  method FindTargets(nodes: seq<NodePods>, known: seq<NodeSelectors.Node>, rules: NodeMatching.Rules, ghost o: Owner,
                     podNodes: map<string, seq<Pod>>)
    returns (targets: set<string>)
    requires SameNodes(nodes, known) && Spread(podNodes, nodes, o)
    ensures TargetsFor(nodes, known, rules, o, targets) && targets <= NamesOf(nodes)
  {
    var specs := ListSpecs(podNodes);
    SpecsFound(podNodes, nodes, o);
    targets := TargetNodes.GetTargetNodes(specs, known, rules);
    ghost var chosen :| TargetNodes.OneOfEach(chosen, DuplicateSpecs(nodes, o)) &&
                        targets == TargetNodes.Targets(Sorting.Members(chosen), known, rules);
    TargetsAreNamed(nodes, known, rules, Sorting.Members(chosen));
  }

  // ------------------------------------------------------- from end to end

  function EvictedOf(evicted: map<Owner, map<string, seq<Pod>>>, o: Owner): map<string, seq<Pod>> {
    if o in evicted then evicted[o] else map[]
  }

  /** Where the total limit ended the run. */
  datatype Cut = Cut(owner: Owner, node: string)

  /** How the cut concerns an owner: it was cut off at a node, or handled whole; an owner not come
      to because of the cut counts as cut off, at a node it was not visited on. */
  function CutFor(cut: Option<Cut>, evicted: map<Owner, map<string, seq<Pod>>>, o: Owner): Option<string> {
    if cut.Some? && (o == cut.value.owner || o !in evicted) then Some(cut.value.node) else None
  }

  /** What `Balance` did, in terms of the duplicates found. */
  ghost predicate Progress(nodes: seq<NodePods>, targets: map<Owner, set<string>>, evict: Pod -> EvictResult,
                           duplicatePods: map<Owner, map<string, seq<Pod>>>,
                           evicted: map<Owner, map<string, seq<Pod>>>, cut: Option<Cut>)
  {
    && evicted.Keys == targets.Keys && evicted.Keys <= duplicatePods.Keys
    && (cut.Some? ==> cut.value.owner in evicted && |targets[cut.value.owner]| >= 2)
    && forall o :: o in evicted ==>
         && CountAll(nodes, o) >= 1
         && Handled(duplicatePods[o], CountAll(nodes, o), targets[o], evict, evicted[o], CutFor(cut, evicted, o))
  }

  /** The target nodes of an owner that was come to; of the others any nodes, as nothing is evicted. */
  ghost predicate MayTarget(nodes: seq<NodePods>, targets: map<Owner, set<string>>, o: Owner, ts: set<string>) {
    ts <= NamesOf(nodes) && |ts| >= 2 && (o in targets ==> ts == targets[o])
  }

  lemma ProgressMeans(nodes: seq<NodePods>, targets: map<Owner, set<string>>, evict: Pod -> EvictResult,
                      duplicatePods: map<Owner, map<string, seq<Pod>>>,
                      evicted: map<Owner, map<string, seq<Pod>>>, cut: Option<Cut>, o: Owner, ts: set<string>)
    requires Progress(nodes, targets, evict, duplicatePods, evicted, cut)
    requires cut.None? ==> evicted.Keys == duplicatePods.Keys
    requires NamedOnce(nodes) && Spread(PodNodes(duplicatePods, o), nodes, o)
    requires MayTarget(nodes, targets, o, ts) && CountAll(nodes, o) >= 1
    ensures EvenlySpread(nodes, o, ts, evict, EvictedOf(evicted, o), CutFor(cut, evicted, o))
  {
    if o in evicted {
      HandledIsEven(nodes, o, duplicatePods[o], ts, evict, evicted[o], CutFor(cut, evicted, o));
    } else if cut.Some? {
      UntouchedIsEven(nodes, o, ts, evict, cut.value.node);
    } else {
      HandledIsEven(nodes, o, map[], ts, evict, map[], None);
    }
  }

  lemma ProgressNext(nodes: seq<NodePods>, targets: map<Owner, set<string>>, evict: Pod -> EvictResult,
                     duplicatePods: map<Owner, map<string, seq<Pod>>>, evicted: map<Owner, map<string, seq<Pod>>>,
                     o: Owner, ts: set<string>, gone: map<string, seq<Pod>>, at: Option<string>)
    requires Progress(nodes, targets, evict, duplicatePods, evicted, None)
    requires o in duplicatePods && o !in evicted && CountAll(nodes, o) >= 1
    requires Handled(duplicatePods[o], CountAll(nodes, o), ts, evict, gone, at)
    ensures Progress(nodes, targets[o := ts], evict, duplicatePods, evicted[o := gone],
                     if at.Some? then Some(Cut(o, at.value)) else None)
  {
  }

  /** Every owner with duplicates was come to, unless the total limit ended the run. */
  ghost predicate AllCameUp(nodes: seq<NodePods>, targets: map<Owner, set<string>>, cut: Option<Cut>) {
    cut.None? ==> forall o, k :: 0 <= k < |nodes| && |Owned(nodes[k].pods, o)| > 1 ==> o in targets
  }

  lemma NoneForgotten(nodes: seq<NodePods>, targets: map<Owner, set<string>>,
                      duplicatePods: map<Owner, map<string, seq<Pod>>>, cut: Option<Cut>)
    requires AllSpread(duplicatePods, nodes) && (cut.None? ==> targets.Keys == duplicatePods.Keys)
    ensures AllCameUp(nodes, targets, cut)
  {
    forall o, k | cut.None? && 0 <= k < |nodes| && |Owned(nodes[k].pods, o)| > 1
      ensures o in targets
    {
      assert Spread(PodNodes(duplicatePods, o), nodes, o);
      assert SpreadAt(PodNodes(duplicatePods, o), nodes[k], o);
    }
  }

  /** How the run left every owner, for the target nodes computed. */
  ghost predicate AllEven(nodes: seq<NodePods>, targets: map<Owner, set<string>>, evict: Pod -> EvictResult,
                          evicted: map<Owner, map<string, seq<Pod>>>, cut: Option<Cut>)
  {
    && targets.Keys == evicted.Keys
    && (forall o :: CountAll(nodes, o) == 0 || (o in targets && |targets[o]| < 2) ==> EvictedOf(evicted, o) == map[])
    && (forall o, ts :: MayTarget(nodes, targets, o, ts) && CountAll(nodes, o) >= 1 ==>
          EvenlySpread(nodes, o, ts, evict, EvictedOf(evicted, o), CutFor(cut, evicted, o)))
    && (cut.Some? ==> cut.value.node in EvictedOf(evicted, cut.value.owner))
  }

  lemma AllEvenAtEnd(nodes: seq<NodePods>, targets: map<Owner, set<string>>, evict: Pod -> EvictResult,
                     duplicatePods: map<Owner, map<string, seq<Pod>>>,
                     evicted: map<Owner, map<string, seq<Pod>>>, cut: Option<Cut>)
    requires Progress(nodes, targets, evict, duplicatePods, evicted, cut)
    requires cut.None? ==> evicted.Keys == duplicatePods.Keys
    requires NamedOnce(nodes) && AllSpread(duplicatePods, nodes)
    ensures AllEven(nodes, targets, evict, evicted, cut)
  {
    forall o, ts | MayTarget(nodes, targets, o, ts) && CountAll(nodes, o) >= 1
      ensures EvenlySpread(nodes, o, ts, evict, EvictedOf(evicted, o), CutFor(cut, evicted, o))
    {
      assert Spread(PodNodes(duplicatePods, o), nodes, o);
      ProgressMeans(nodes, targets, evict, duplicatePods, evicted, cut, o, ts);
    }
  }

  /** The target nodes are nodes, and those the shortcut may give for the duplicates. */
  ghost predicate AllTargets(nodes: seq<NodePods>, known: seq<NodeSelectors.Node>, rules: NodeMatching.Rules,
                             targets: map<Owner, set<string>>)
  {
    forall o :: o in targets ==> TargetsFor(nodes, known, rules, o, targets[o]) && targets[o] <= NamesOf(nodes)
  }

  /** The target nodes of one more owner. */
  method AddTargets(nodes: seq<NodePods>, known: seq<NodeSelectors.Node>, rules: NodeMatching.Rules, o: Owner,
                    podNodes: map<string, seq<Pod>>, targets0: map<Owner, set<string>>)
    returns (ts: set<string>, targets: map<Owner, set<string>>)
    requires SameNodes(nodes, known) && Spread(podNodes, nodes, o) && AllTargets(nodes, known, rules, targets0)
    ensures targets == targets0[o := ts] && AllTargets(nodes, known, rules, targets)
  {
    ts := FindTargets(nodes, known, rules, o, podNodes);
    targets := targets0[o := ts];
  }

  /** The surplus of one more owner, with its target nodes. */
  method PassOwner(nodes: seq<NodePods>, evict: Pod -> EvictResult, duplicatePods: map<Owner, map<string, seq<Pod>>>,
                   occurrence: nat, evicted0: map<Owner, map<string, seq<Pod>>>, ghost targets: map<Owner, set<string>>,
                   o: Owner, ts: set<string>)
    returns (evicted: map<Owner, map<string, seq<Pod>>>, cut: Option<Cut>)
    requires o in duplicatePods && o !in evicted0 && occurrence == CountAll(nodes, o)
    requires Spread(duplicatePods[o], nodes, o) && duplicatePods[o] != map[]
    requires Progress(nodes, targets, evict, duplicatePods, evicted0, None)
    ensures evicted.Keys == evicted0.Keys + {o}
    ensures Progress(nodes, targets[o := ts], evict, duplicatePods, evicted, cut)
  {
    DuplicatesOccur(nodes, o, duplicatePods[o]);
    var gone, at := EvictOwner(duplicatePods[o], occurrence, ts, evict);
    ProgressNext(nodes, targets, evict, duplicatePods, evicted0, o, ts, gone, at);
    evicted, cut := evicted0[o := gone], if at.Some? then Some(Cut(o, at.value)) else None;
  }

  /** `Balance` from end to end: find the duplicates, then go through their owners in any order
      until the total limit is hit, computing the target nodes of each owner's duplicates. */
  method Balance(nodes: seq<NodePods>, known: seq<NodeSelectors.Node>, rules: NodeMatching.Rules, evict: Pod -> EvictResult)
    returns (evicted: map<Owner, map<string, seq<Pod>>>, targets: map<Owner, set<string>>, cut: Option<Cut>)
    requires NamedOnce(nodes) && SameNodes(nodes, known) && forall k :: 0 <= k < |nodes| ==> HasImages(nodes[k].pods)
    ensures AllTargets(nodes, known, rules, targets)
    ensures AllEven(nodes, targets, evict, evicted, cut) && AllCameUp(nodes, targets, cut)
  {
    var duplicatePods, occurrence := FindDuplicates(nodes);
    evicted, targets, cut := map[], map[], None;
    var todo := duplicatePods.Keys;
    while todo != {} && cut.None?
      invariant todo <= duplicatePods.Keys && evicted.Keys == duplicatePods.Keys - todo
      invariant Progress(nodes, targets, evict, duplicatePods, evicted, cut)
      invariant AllTargets(nodes, known, rules, targets)
      decreases todo
    {
      var o :| o in todo;
      var count := Occurrences(occurrence, o);
      assert count == CountAll(nodes, o) && Spread(PodNodes(duplicatePods, o), nodes, o);
      var ts, more := AddTargets(nodes, known, rules, o, duplicatePods[o], targets);
      evicted, cut := PassOwner(nodes, evict, duplicatePods, count, evicted, targets, o, ts);
      targets, todo := more, todo - {o};
    }
    AllEvenAtEnd(nodes, targets, evict, duplicatePods, evicted, cut);
    NoneForgotten(nodes, targets, duplicatePods, cut);
  }

  /** An owner whose duplicates are admitted ends up evenly spread over exactly the nodes on which
      some duplicate of it that could run on two nodes could run. */
  lemma EvenOverFeasibleNodes(nodes: seq<NodePods>, known: seq<NodeSelectors.Node>, rules: NodeMatching.Rules,
                              evict: Pod -> EvictResult, evicted: map<Owner, map<string, seq<Pod>>>,
                              targets: map<Owner, set<string>>, cut: Option<Cut>, o: Owner)
    requires SameNodes(nodes, known) && AllTargets(nodes, known, rules, targets) && AllEven(nodes, targets, evict, evicted, cut)
    requires AllAdmitted(nodes, rules, o) && CountAll(nodes, o) >= 1
    ensures var ts := TargetNodes.Targets(DuplicateSpecs(nodes, o), known, rules);
            if |ts| < 2 then EvictedOf(evicted, o) == map[]
            else EvenlySpread(nodes, o, ts, evict, EvictedOf(evicted, o), CutFor(cut, evicted, o))
  {
    var ts := TargetNodes.Targets(DuplicateSpecs(nodes, o), known, rules);
    TargetsAreNamed(nodes, known, rules, DuplicateSpecs(nodes, o));
    if o in targets {
      TargetNodes.ShortcutIsExact(targets[o], DuplicateSpecs(nodes, o), known, rules);
    }
    if |ts| >= 2 {
      assert MayTarget(nodes, targets, o, ts);
    }
  }
}
