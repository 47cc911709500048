/** Eviction limits: the evictor itself, and what holds over every interleaving of evictions,
    informer events, cache cleaning and counter resets. */
module EvictionLimits {
  import opened Common
  import opened Evictions

  datatype Limits = Limits(total: Option<nat>, perNode: Option<nat>, perNamespace: Option<nat>)

  datatype Counters = Counters(node: map<string, nat>, namespace: map<string, nat>, total: nat)

  const Zero: Counters := Counters(map[], map[], 0)

  /** Evictions counted in a bucket since the last reset. */
  function Evicted(c: Counters, b: Bucket): nat {
    match b
    case All => c.total
    case OnNode(n) => Get(c.node, n)
    case InNamespace(n) => Get(c.namespace, n)
  }

  /** The limit on a bucket; pods without a node have none. */
  function LimitOf(l: Limits, b: Bucket): Option<nat> {
    match b
    case All => l.total
    case OnNode(n) => if n == "" then None else l.perNode
    case InNamespace(n) => l.perNamespace
  }

  predicate Within(x: nat, limit: Option<nat>) {
    limit.Some? ==> x <= limit.value
  }

  /** The limit check of one bucket. */
  predicate Passes(l: Limits, c: Counters, r: Requests, b: Bucket) {
    Within(Evicted(c, b) + Outstanding(r, b) + 1, LimitOf(l, b))
  }

  /** The counters after one more eviction. */
  function Charge(c: Counters, p: Pod): Counters {
    Counters(if p.node == "" then c.node else c.node[p.node := Get(c.node, p.node) + 1],
             c.namespace[p.namespace := Get(c.namespace, p.namespace) + 1],
             c.total + 1)
  }

  lemma ChargeCounts(c: Counters, p: Pod, b: Bucket)
    ensures b == OnNode("") || Evicted(Charge(c, p), b) == Evicted(c, b) + if HoldsPod(b, p) then 1 else 0
    ensures Get(Charge(c, p).node, "") == Get(c.node, "")
  {
  }

  // -------------------------------------------------------------- the evictor

  /** The API server's answer to an eviction; `Background` is TooManyRequests with the
      background-eviction text. */
  datatype Response = Accepted | Background | Rejected

  datatype Outcome =
    | Counted | AlreadyRequested | InBackground | IgnoredCompleted
    | MissingUid | OverTotal | OverNode | OverNamespace | Failed

  /** What becomes of the API server's answer. */
  function Reply(background: bool, p: Pod, resp: Response): Outcome {
    if resp.Accepted? then Counted
    else if background && p.wantsBackground && resp.Background? then
      if p.completed then IgnoredCompleted else InBackground
    else Failed
  }

  /** What `EvictPod` decides when nothing interferes. */
  function Decide(l: Limits, c: Counters, r: Requests, background: bool, p: Pod, resp: Response): Outcome {
    if p.uid == "" then MissingUid
    else if background && p.wantsBackground && p.uid in r then AlreadyRequested
    else if Exceeded(l, c, r, p).Some? then Exceeded(l, c, r, p).value
    else Reply(background, p, resp)
  }

  /** The first limit the pod runs into, if any. */
  function Exceeded(l: Limits, c: Counters, r: Requests, p: Pod): Option<Outcome> {
    if !Passes(l, c, r, All) then Some(OverTotal)
    else if p.node != "" && !Passes(l, c, r, OnNode(p.node)) then Some(OverNode)
    else if !Passes(l, c, r, InNamespace(p.namespace)) then Some(OverNamespace)
    else None
  }

  /** No room for one more in the total, on the pod's node, or in its namespace: evictions and
      outstanding requests have used the limit up. */
  ghost predicate TotalFull(l: Limits, c: Counters, r: Requests) {
    l.total.Some? && c.total + |r| >= l.total.value
  }

  ghost predicate NodeFull(l: Limits, c: Counters, r: Requests, node: string) {
    node != "" && l.perNode.Some? && Get(c.node, node) + |set u | u in r && r[u].node == node| >= l.perNode.value
  }

  ghost predicate NamespaceFull(l: Limits, c: Counters, r: Requests, namespace: string) {
    && l.perNamespace.Some?
    && Get(c.namespace, namespace) + |set u | u in r && r[u].namespace == namespace| >= l.perNamespace.value
  }

  /** The pod comes before the limit checks, and passes them. */
  ghost predicate ToBeChecked(r: Requests, background: bool, p: Pod) {
    p.uid != "" && !(background && p.wantsBackground && p.uid in r)
  }

  ghost predicate HasRoom(l: Limits, c: Counters, r: Requests, p: Pod) {
    !TotalFull(l, c, r) && !NodeFull(l, c, r, p.node) && !NamespaceFull(l, c, r, p.namespace)
  }

  /** When each outcome of an eviction arises, and only then. */
  ghost predicate Answers(l: Limits, c: Counters, r: Requests, background: bool, p: Pod, resp: Response, o: Outcome) {
    && (o.MissingUid? <==> p.uid == "")
    && (o.AlreadyRequested? <==> p.uid != "" && background && p.wantsBackground && p.uid in r)
    && (o.OverTotal? <==> ToBeChecked(r, background, p) && TotalFull(l, c, r))
    && (o.OverNode? <==> ToBeChecked(r, background, p) && !TotalFull(l, c, r) && NodeFull(l, c, r, p.node))
    && (o.OverNamespace? <==>
          && ToBeChecked(r, background, p) && !TotalFull(l, c, r) && !NodeFull(l, c, r, p.node)
          && NamespaceFull(l, c, r, p.namespace))
    && (o.Counted? <==> ToBeChecked(r, background, p) && HasRoom(l, c, r, p) && resp.Accepted?)
    && (o.InBackground? <==>
          && p.uid != "" && p.uid !in r && HasRoom(l, c, r, p)
          && background && p.wantsBackground && !p.completed && resp.Background?)
    && (o.IgnoredCompleted? <==>
          && p.uid != "" && p.uid !in r && HasRoom(l, c, r, p)
          && background && p.wantsBackground && p.completed && resp.Background?)
    && (o.Failed? <==>
          && ToBeChecked(r, background, p) && HasRoom(l, c, r, p) && !resp.Accepted?
          && !(background && p.wantsBackground && resp.Background?))
  }

  lemma FullMeans(l: Limits, c: Counters, r: Requests, p: Pod)
    ensures TotalFull(l, c, r) <==> !Passes(l, c, r, All)
    ensures NodeFull(l, c, r, p.node) <==> p.node != "" && !Passes(l, c, r, OnNode(p.node))
    ensures NamespaceFull(l, c, r, p.namespace) <==> !Passes(l, c, r, InNamespace(p.namespace))
  {
    assert In(r, All) == r.Keys;
    assert In(r, OnNode(p.node)) == set u | u in r && r[u].node == p.node;
    assert In(r, InNamespace(p.namespace)) == set u | u in r && r[u].namespace == p.namespace;
  }

  lemma OutcomesByCase(l: Limits, c: Counters, r: Requests, background: bool, p: Pod, resp: Response)
    ensures Answers(l, c, r, background, p, resp, Decide(l, c, r, background, p, resp))
  {
    FullMeans(l, c, r, p);
  }

  class PodEvictor {
    var nodePodCount: map<string, nat>
    var namespacePodCount: map<string, nat>
    var totalPodCount: nat
    const limits: Limits
    const background: bool
    const erCache: EvictionRequestsCache

    constructor (limits: Limits, background: bool, erCache: EvictionRequestsCache)
      ensures State() == Zero && this.limits == limits && this.background == background && this.erCache == erCache
    {
      nodePodCount, namespacePodCount, totalPodCount := map[], map[], 0;
      this.limits, this.background, this.erCache := limits, background, erCache;
    }

    function State(): Counters
      reads this
    {
      Counters(nodePodCount, namespacePodCount, totalPodCount)
    }

    /** Without the background feature no request is outstanding. */
    ghost predicate Valid()
      reads this, erCache
    {
      erCache.Valid() && (!background ==> erCache.requests == map[])
    }

    method ResetCounters()
      modifies this
      ensures State() == Zero
    {
      nodePodCount, namespacePodCount, totalPodCount := map[], map[], 0;
    }

    method CheckLimits(p: Pod) returns (exceeded: Option<Outcome>)
      requires Valid()
      ensures exceeded == Exceeded(limits, State(), erCache.requests, p)
    {
      assert In(erCache.requests, All) == erCache.requests.Keys;
      var total := totalPodCount + (if background then erCache.requestsTotal else 0) + 1;
      if limits.total.Some? && total > limits.total.value {
        return Some(OverTotal);
      }
      if p.node != "" {
        var onNode := if background then Get(erCache.requestsPerNode, p.node) else 0;
        assert onNode == Outstanding(erCache.requests, BucketOf(ByNode, p.node));
        if limits.perNode.Some? && Get(nodePodCount, p.node) + onNode + 1 > limits.perNode.value {
          return Some(OverNode);
        }
      }
      var inNamespace := if background then Get(erCache.requestsPerNamespace, p.namespace) else 0;
      assert inNamespace == Outstanding(erCache.requests, BucketOf(ByNamespace, p.namespace));
      if limits.perNamespace.Some? && Get(namespacePodCount, p.namespace) + inNamespace + 1 > limits.perNamespace.value {
        return Some(OverNamespace);
      }
      return None;
    }

    method Count(p: Pod)
      modifies this
      ensures State() == Charge(old(State()), p)
    {
      if p.node != "" {
        nodePodCount := nodePodCount[p.node := Get(nodePodCount, p.node) + 1];
      }
      namespacePodCount := namespacePodCount[p.namespace := Get(namespacePodCount, p.namespace) + 1];
      totalPodCount := totalPodCount + 1;
    }

    /** `evictPod`: the call itself. The pod is entered in the cache exactly when its eviction goes on
        in the background. */
    method Request(p: Pod, resp: Response, profile: string, strategy: string, now: int) returns (o: Outcome)
      requires Valid() && p.uid != ""
      modifies erCache
      ensures Valid() && o == Reply(background, p, resp)
      ensures erCache.requests == if o.InBackground? then Assume(old(erCache.requests), p, profile, strategy, now)
                                  else old(erCache.requests)
    {
      if resp.Accepted? {
        return Counted;
      }
      if background && p.wantsBackground && resp.Background? {
        if p.completed {
          return IgnoredCompleted;
        }
        erCache.AssumePod(p, profile, strategy, now);
        return InBackground;
      }
      return Failed;
    }

    /** Count the pod exactly on success, enter it in the cache exactly when it goes on in
        the background, and change nothing otherwise. */
    method EvictPod(p: Pod, resp: Response, profile: string, strategy: string, now: int) returns (o: Outcome)
      requires Valid()
      modifies this, erCache
      ensures Valid()
      ensures o == Decide(limits, old(State()), old(erCache.requests), background, p, resp)
      ensures Answers(limits, old(State()), old(erCache.requests), background, p, resp, o)
      ensures State() == if o.Counted? then Charge(old(State()), p) else old(State())
      ensures erCache.requests == if o.InBackground? then Assume(old(erCache.requests), p, profile, strategy, now)
                                  else old(erCache.requests)
      ensures p.uid in erCache.requests && p.uid !in old(erCache.requests) ==>
                resp.Background? && Records(old(erCache.requests), p, profile, strategy, now, erCache.requests[p.uid])
    {
      ghost var before := erCache.requests;
      OutcomesByCase(limits, State(), before, background, p, resp);
      if p.uid == "" {
        o := MissingUid;
      } else if background && p.wantsBackground && p.uid in erCache.requests {
        o := AlreadyRequested;
      } else {
        var exceeded := CheckLimits(p);
        if exceeded.Some? {
          o := exceeded.value;
        } else {
          o := Request(p, resp, profile, strategy, now);
          if o.Counted? {
            Count(p);
          }
        }
      }
      AssumeRecords(before, p, profile, strategy, now);
    }
  }

  // ------------------------------------------------------- the interleaved protocol

  /** How far the one eviction under the evictor's lock has come. */
  datatype Progress = Idle | TotalChecked(pod: Pod) | NodeChecked(pod: Pod) | AllChecked(pod: Pod)

  /** `early`: the informer added the pod in flight to the cache after its limit checks. */
  datatype State = State(counters: Counters, requests: Requests, at: Progress, early: bool)

  datatype Step =
    | Enter(pod: Pod) | CheckNode | CheckNamespace | GiveUp        // EvictPod, one lock section at a time
    | RespondAccepted | RespondBackground(profile: string, strategy: string, now: int)
    | ResetAll
    | InformerAdd(pod: Pod) | InformerDelete(uid: string) | CleanUp(now: int, timeout: nat)

  predicate Enabled(l: Limits, s: State, step: Step) {
    match step
    case Enter(p) => s.at.Idle? && p.uid != "" && Passes(l, s.counters, s.requests, All)
    case CheckNode =>
      s.at.TotalChecked? && (s.at.pod.node == "" || Passes(l, s.counters, s.requests, OnNode(s.at.pod.node)))
    case CheckNamespace => s.at.NodeChecked? && Passes(l, s.counters, s.requests, InNamespace(s.at.pod.namespace))
    case GiveUp => !s.at.Idle?
    case RespondAccepted => s.at.AllChecked?
    case RespondBackground(_, _, _) => s.at.AllChecked?
    case ResetAll => s.at.Idle?
    case _ => true
  }

  function Apply(l: Limits, s: State, step: Step): State
    requires Enabled(l, s, step)
  {
    match step
    case Enter(p) => s.(at := TotalChecked(p), early := false)
    case CheckNode => s.(at := NodeChecked(s.at.pod))
    case CheckNamespace => s.(at := AllChecked(s.at.pod))
    case GiveUp => s.(at := Idle)
    case RespondAccepted => s.(counters := Charge(s.counters, s.at.pod), at := Idle)
    case RespondBackground(profile, strategy, now) =>
      s.(requests := Assume(s.requests, s.at.pod, profile, strategy, now), at := Idle)
    case ResetAll => s.(counters := Zero)
    case InformerAdd(p) =>
      s.(requests := Add(s.requests, p), early := s.early || (!s.at.Idle? && p.uid == s.at.pod.uid && p.uid !in s.requests))
    case InformerDelete(u) => s.(requests := s.requests - {u})
    case CleanUp(now, timeout) => s.(requests := Clean(s.requests, now, timeout))
  }

  const Begin: State := State(Zero, map[], Idle, false)

  /** The buckets whose check the eviction in flight has passed. */
  ghost predicate Passed(at: Progress, b: Bucket) {
    match at
    case Idle => false
    case TotalChecked(_) => b.All?
    case NodeChecked(p) => b.All? || (b.OnNode? && b.node == p.node)
    case AllChecked(p) => HoldsPod(b, p)
  }

  // ------------------------------------------- evictions never exceed the limits

  ghost function SumValues(m: map<string, nat>): nat {
    if m == map[] then 0 else
      var k :| k in m;
      m[k] + SumValues(m - {k})
  }

  lemma {:induction false} SumValuesOf(m: map<string, nat>, k: string)
    requires k in m
    ensures SumValues(m) == m[k] + SumValues(m - {k})
    decreases |m|
  {
    var j :| j in m && SumValues(m) == m[j] + SumValues(m - {j});
    if j != k {
      var a, b := m - {j}, m - {k};
      assert a - {k} == b - {j};
      assert m.Keys == a.Keys + {j} && m.Keys == b.Keys + {k};
      SumValuesOf(a, k);
      SumValuesOf(b, j);
    }
  }

  lemma SumValuesUp(m: map<string, nat>, k: string)
    ensures SumValues(m[k := Get(m, k) + 1]) == SumValues(m) + 1
  {
    var up := m[k := Get(m, k) + 1];
    SumValuesOf(up, k);
    assert up - {k} == m - {k};
    if k in m {
      SumValuesOf(m, k);
    } else {
      assert m - {k} == m;
    }
  }

  ghost predicate LimitInv(l: Limits, s: State) {
    && s.counters.total == SumValues(s.counters.namespace)
    && forall b: Bucket ::
         && Within(Evicted(s.counters, b), LimitOf(l, b))
         && (Passed(s.at, b) ==> Within(Evicted(s.counters, b) + 1, LimitOf(l, b)))
  }

  lemma LimitInvKept(l: Limits, s: State, step: Step)
    requires LimitInv(l, s) && Enabled(l, s, step)
    ensures LimitInv(l, Apply(l, s, step))
  {
    var t := Apply(l, s, step);
    if step.RespondAccepted? {
      SumValuesUp(s.counters.namespace, s.at.pod.namespace);
      forall b: Bucket { ChargeCounts(s.counters, s.at.pod, b); }
    }
    forall b: Bucket
      ensures Within(Evicted(t.counters, b), LimitOf(l, b))
      ensures Passed(t.at, b) ==> Within(Evicted(t.counters, b) + 1, LimitOf(l, b))
    {
      assert Within(Evicted(s.counters, b), LimitOf(l, b));
      assert Passed(s.at, b) ==> Within(Evicted(s.counters, b) + 1, LimitOf(l, b));
    }
  }

  ghost predicate Reaches(l: Limits, s: State, run: seq<Step>, t: State)
    decreases run
  {
    if run == [] then s == t
    else Enabled(l, s, run[0]) && Reaches(l, Apply(l, s, run[0]), run[1..], t)
  }

  lemma {:induction false} RunKeepsLimits(l: Limits, s: State, run: seq<Step>, t: State)
    requires LimitInv(l, s) && Reaches(l, s, run, t)
    ensures LimitInv(l, t)
    decreases run
  {
    if run != [] {
      LimitInvKept(l, s, run[0]);
      RunKeepsLimits(l, Apply(l, s, run[0]), run[1..], t);
    }
  }

  /** Over every run: evictions since the last reset stay within the total limit, within the
      limit of every namespace and of every named node, and their total is the sum over the
      namespaces. */
  lemma EvictionsStayWithinLimits(l: Limits, run: seq<Step>, s: State, b: Bucket)
    requires Reaches(l, Begin, run, s)
    ensures Within(Evicted(s.counters, b), LimitOf(l, b))
    ensures s.counters.total == SumValues(s.counters.namespace)
  {
    RunKeepsLimits(l, Begin, run, s);
  }

  // ------------------------------------ evictions plus outstanding requests

  /** The informer adds only the pod in flight, after its limit checks, and the API server
      does not accept an eviction outright whose pod was just added that way. */
  ghost predicate Orderly(s: State, step: Step) {
    match step
    case InformerAdd(p) => s.at.AllChecked? && p == s.at.pod
    case RespondAccepted => s.at.AllChecked? && !(s.early && s.at.pod.uid in s.requests)
    case _ => true
  }

  ghost predicate RequestInv(l: Limits, s: State) {
    forall b: Bucket ::
      && Within(Evicted(s.counters, b) + Outstanding(s.requests, b), LimitOf(l, b))
      && (Passed(s.at, b) ==>
            && Within(Evicted(s.counters, b) + 1 + Outstanding(s.requests - {s.at.pod.uid}, b), LimitOf(l, b))
            && (!s.early ==> Within(Evicted(s.counters, b) + 1 + Outstanding(s.requests, b), LimitOf(l, b))))
  }

  lemma RequestInvAfterAccept(l: Limits, s: State)
    requires RequestInv(l, s) && Enabled(l, s, RespondAccepted) && Orderly(s, RespondAccepted)
    ensures RequestInv(l, Apply(l, s, RespondAccepted))
  {
    var t := Apply(l, s, RespondAccepted);
    forall b: Bucket
      ensures Within(Evicted(t.counters, b) + Outstanding(t.requests, b), LimitOf(l, b))
    {
      ChargeCounts(s.counters, s.at.pod, b);
      OutstandingAfterDelete(s.requests, s.at.pod.uid, b);
    }
  }

  /** An entry for the pod in flight, made by an assume or by the informer. */
  lemma EntryForPodInFlight(l: Limits, s: State, r: Requests, b: Bucket)
    requires RequestInv(l, s) && s.at.AllChecked?
    requires var u := s.at.pod.uid;
             && r - {u} == s.requests - {u} && u in r
             && (if u in s.requests then r[u].node == s.requests[u].node && r[u].namespace == s.requests[u].namespace
                 else r[u].node == s.at.pod.node && r[u].namespace == s.at.pod.namespace)
    ensures Within(Evicted(s.counters, b) + Outstanding(r, b), LimitOf(l, b))
  {
    var u := s.at.pod.uid;
    OutstandingAfterDelete(r, u, b);
    OutstandingAfterDelete(s.requests, u, b);
    assert Within(Evicted(s.counters, b) + Outstanding(s.requests, b), LimitOf(l, b));
  }

  lemma RequestInvAfterBackground(l: Limits, s: State, profile: string, strategy: string, now: int)
    requires RequestInv(l, s) && s.at.AllChecked?
    ensures RequestInv(l, Apply(l, s, RespondBackground(profile, strategy, now)))
  {
    var t := Apply(l, s, RespondBackground(profile, strategy, now));
    assert t.requests - {s.at.pod.uid} == s.requests - {s.at.pod.uid};
    forall b: Bucket
      ensures Within(Evicted(t.counters, b) + Outstanding(t.requests, b), LimitOf(l, b))
    {
      EntryForPodInFlight(l, s, t.requests, b);
    }
  }

  lemma RequestInvAfterAdd(l: Limits, s: State, p: Pod)
    requires RequestInv(l, s) && Orderly(s, InformerAdd(p))
    ensures RequestInv(l, Apply(l, s, InformerAdd(p)))
  {
    var t := Apply(l, s, InformerAdd(p));
    assert t.requests - {p.uid} == s.requests - {p.uid};
    forall b: Bucket
      ensures Within(Evicted(t.counters, b) + Outstanding(t.requests, b), LimitOf(l, b))
    {
      EntryForPodInFlight(l, s, t.requests, b);
    }
  }

  lemma RequestInvAfterRemoval(l: Limits, s: State, r: Requests)
    requires RequestInv(l, s) && forall u :: u in r ==> u in s.requests && s.requests[u] == r[u]
    ensures RequestInv(l, s.(requests := r))
  {
    forall b: Bucket
      ensures Outstanding(r, b) <= Outstanding(s.requests, b)
      ensures !s.at.Idle? ==> Outstanding(r - {s.at.pod.uid}, b) <= Outstanding(s.requests - {s.at.pod.uid}, b)
    {
      OutstandingIsMonotone(r, s.requests, b);
      if !s.at.Idle? {
        OutstandingIsMonotone(r - {s.at.pod.uid}, s.requests - {s.at.pod.uid}, b);
      }
    }
  }

  lemma RequestInvAfterCheck(l: Limits, s: State, step: Step)
    requires RequestInv(l, s) && Enabled(l, s, step)
    requires step.Enter? || step.CheckNode? || step.CheckNamespace? || step.GiveUp? || step.ResetAll?
    requires step.CheckNode? || step.CheckNamespace? ==> !s.early
    ensures RequestInv(l, Apply(l, s, step))
  {
    var t := Apply(l, s, step);
    forall b: Bucket
      ensures Within(Evicted(t.counters, b) + Outstanding(t.requests, b), LimitOf(l, b))
      ensures Passed(t.at, b) ==>
                && Within(Evicted(t.counters, b) + 1 + Outstanding(t.requests - {t.at.pod.uid}, b), LimitOf(l, b))
                && Within(Evicted(t.counters, b) + 1 + Outstanding(t.requests, b), LimitOf(l, b))
    {
      assert Within(Evicted(s.counters, b) + Outstanding(s.requests, b), LimitOf(l, b));
      if !t.at.Idle? {
        OutstandingAfterDelete(t.requests, t.at.pod.uid, b);
      }
    }
  }

  /** Between the first check and the last nothing is added, so nothing is early. */
  ghost predicate EarlyOnlyAtTheEnd(s: State) {
    s.early ==> s.at.Idle? || s.at.AllChecked?
  }

  lemma RequestInvKept(l: Limits, s: State, step: Step)
    requires RequestInv(l, s) && EarlyOnlyAtTheEnd(s) && Enabled(l, s, step) && Orderly(s, step)
    ensures RequestInv(l, Apply(l, s, step)) && EarlyOnlyAtTheEnd(Apply(l, s, step))
  {
    match step
    case RespondAccepted => RequestInvAfterAccept(l, s);
    case RespondBackground(profile, strategy, now) => RequestInvAfterBackground(l, s, profile, strategy, now);
    case InformerAdd(p) => RequestInvAfterAdd(l, s, p);
    case InformerDelete(u) => RequestInvAfterRemoval(l, s, s.requests - {u});
    case CleanUp(now, timeout) => RequestInvAfterRemoval(l, s, Clean(s.requests, now, timeout));
    case _ => RequestInvAfterCheck(l, s, step);
  }

  ghost predicate OrderlyRun(l: Limits, s: State, run: seq<Step>)
    decreases run
  {
    run != [] ==> Orderly(s, run[0]) && Enabled(l, s, run[0]) && OrderlyRun(l, Apply(l, s, run[0]), run[1..])
  }

  lemma {:induction false} OrderlyRunKeeps(l: Limits, s: State, run: seq<Step>, t: State)
    requires RequestInv(l, s) && EarlyOnlyAtTheEnd(s) && Reaches(l, s, run, t) && OrderlyRun(l, s, run)
    ensures RequestInv(l, t)
    decreases run
  {
    if run != [] {
      RequestInvKept(l, s, run[0]);
      OrderlyRunKeeps(l, Apply(l, s, run[0]), run[1..], t);
    }
  }

  /** When cache entries are made only for the pod in flight, evictions together with the
      outstanding requests stay within every limit, over any number of resets. */
  lemma OutstandingStaysWithinLimits(l: Limits, run: seq<Step>, s: State, b: Bucket)
    requires Reaches(l, Begin, run, s) && OrderlyRun(l, Begin, run)
    ensures Within(Evicted(s.counters, b) + Outstanding(s.requests, b), LimitOf(l, b))
  {
    forall c: Bucket
      ensures Outstanding(Begin.requests, c) == 0
    {
      assert In(Begin.requests, c) == {};
    }
    OrderlyRunKeeps(l, Begin, run, s);
  }

  // ------------------------------------ evictions plus assumed requests, whatever happens

  datatype Place = Place(node: string, namespace: string)

  /** Every pod the evictor or the informer meets is at its UID's place: it does not change node
      or namespace. */
  ghost predicate Housed(home: string -> Place, step: Step) {
    match step
    case Enter(p) => home(p.uid) == Place(p.node, p.namespace)
    case InformerAdd(p) => home(p.uid) == Place(p.node, p.namespace)
    case _ => true
  }

  ghost predicate AtHome(home: string -> Place, s: State) {
    && (forall u :: u in s.requests ==> home(u) == Place(s.requests[u].node, s.requests[u].namespace))
    && (!s.at.Idle? ==> home(s.at.pod.uid) == Place(s.at.pod.node, s.at.pod.namespace))
  }

  lemma AtHomeKept(l: Limits, s: State, step: Step, home: string -> Place)
    requires Enabled(l, s, step) && AtHome(home, s) && Housed(home, step)
    ensures AtHome(home, Apply(l, s, step))
  {
  }

  ghost predicate AssumedInv(l: Limits, s: State, b: Bucket) {
    && Within(Evicted(s.counters, b) + |AssumedIn(s.requests, b)|, LimitOf(l, b))
    && (Passed(s.at, b) ==> Within(Evicted(s.counters, b) + 1 + |AssumedIn(s.requests, b)|, LimitOf(l, b)))
  }

  lemma AssumedInvAfterBackground(l: Limits, s: State, profile: string, strategy: string, now: int, b: Bucket,
                                  home: string -> Place)
    requires AssumedInv(l, s, b) && s.at.AllChecked? && (b.All? || AtHome(home, s))
    ensures AssumedInv(l, Apply(l, s, RespondBackground(profile, strategy, now)), b)
  {
    AssumedAfterAssume(s.requests, s.at.pod, profile, strategy, now, b);
  }

  lemma AssumedInvAfterCheck(l: Limits, s: State, step: Step, b: Bucket)
    requires AssumedInv(l, s, b) && Enabled(l, s, step)
    requires step.Enter? || step.CheckNode? || step.CheckNamespace? || step.GiveUp? || step.ResetAll? || step.RespondAccepted?
    ensures AssumedInv(l, Apply(l, s, step), b)
  {
    AssumedOrAdded(s.requests, b);
    if step.RespondAccepted? {
      ChargeCounts(s.counters, s.at.pod, b);
    }
  }

  lemma AssumedInvAfterOthers(l: Limits, s: State, step: Step, b: Bucket)
    requires AssumedInv(l, s, b) && Enabled(l, s, step)
    requires step.InformerAdd? || step.InformerDelete? || step.CleanUp?
    ensures AssumedInv(l, Apply(l, s, step), b)
  {
    FewerAssumed(s.requests, Apply(l, s, step).requests, b);
  }

  lemma AssumedInvKept(l: Limits, s: State, step: Step, b: Bucket, home: string -> Place)
    requires AssumedInv(l, s, b) && Enabled(l, s, step) && (b.All? || AtHome(home, s))
    ensures AssumedInv(l, Apply(l, s, step), b)
  {
    match step
    case RespondBackground(profile, strategy, now) => AssumedInvAfterBackground(l, s, profile, strategy, now, b, home);
    case InformerAdd(_) => AssumedInvAfterOthers(l, s, step, b);
    case InformerDelete(_) => AssumedInvAfterOthers(l, s, step, b);
    case CleanUp(_, _) => AssumedInvAfterOthers(l, s, step, b);
    case _ => AssumedInvAfterCheck(l, s, step, b);
  }

  lemma {:induction false} RunKeepsAssumed(l: Limits, s: State, run: seq<Step>, t: State, b: Bucket, home: string -> Place)
    requires AssumedInv(l, s, b) && Reaches(l, s, run, t)
    requires b.All? || (AtHome(home, s) && forall i :: 0 <= i < |run| ==> Housed(home, run[i]))
    ensures AssumedInv(l, t, b)
    decreases run
  {
    if run != [] {
      AssumedInvKept(l, s, run[0], b, home);
      if !b.All? {
        AtHomeKept(l, s, run[0], home);
      }
      RunKeepsAssumed(l, Apply(l, s, run[0]), run[1..], t, b, home);
    }
  }

  /** Over every interleaving and any number of resets: evictions together with the requests the
      evictor assumed stay within the total limit, and, as pods do not change place, within every
      node's and namespace's. So evictions and all outstanding requests together exceed a limit
      by at most the requests the informer added there on its own. */
  lemma AssumedStaysWithinLimits(l: Limits, run: seq<Step>, s: State, b: Bucket, home: string -> Place)
    requires Reaches(l, Begin, run, s)
    requires b.All? || forall i :: 0 <= i < |run| ==> Housed(home, run[i])
    ensures Within(Evicted(s.counters, b) + |AssumedIn(s.requests, b)|, LimitOf(l, b))
    ensures LimitOf(l, b).Some? ==>
              Evicted(s.counters, b) + Outstanding(s.requests, b) <= LimitOf(l, b).value + |AddedIn(s.requests, b)|
  {
    assert AssumedIn(Begin.requests, b) == {};
    RunKeepsAssumed(l, Begin, run, s, b, home);
    AssumedOrAdded(s.requests, b);
  }

  // ------------------------------------------------ the method and the protocol

  lemma ReachesFirst(l: Limits, s: State, step: Step, run: seq<Step>, t: State)
    requires Enabled(l, s, step) && Reaches(l, Apply(l, s, step), run, t)
    ensures Reaches(l, s, [step] + run, t)
  {
    assert ([step] + run)[1..] == run;
  }

  /** The four lock sections of an eviction that passes its checks. */
  lemma FourSections(l: Limits, s: State, p: Pod, last: Step)
    requires s.at.Idle? && p.uid != "" && Exceeded(l, s.counters, s.requests, p).None?
    requires last.RespondAccepted? || last.RespondBackground?
    ensures var ready := s.(at := AllChecked(p), early := false);
            && Enabled(l, ready, last)
            && Reaches(l, s, [Enter(p)] + ([CheckNode] + ([CheckNamespace] + ([last] + []))), Apply(l, ready, last))
  {
    var s1 := Apply(l, s, Enter(p));
    var s2 := Apply(l, s1, CheckNode);
    var s3 := Apply(l, s2, CheckNamespace);
    var s4 := Apply(l, s3, last);
    ReachesFirst(l, s3, last, [], s4);
    ReachesFirst(l, s2, CheckNamespace, [last] + [], s4);
    ReachesFirst(l, s1, CheckNode, [CheckNamespace] + ([last] + []), s4);
    ReachesFirst(l, s, Enter(p), [CheckNode] + ([CheckNamespace] + ([last] + [])), s4);
  }

  /** An undisturbed `EvictPod` is a run of the protocol. */
  lemma EvictPodIsARun(l: Limits, s: State, background: bool, p: Pod, resp: Response,
                       profile: string, strategy: string, now: int)
    requires s.at.Idle?
    ensures var o := Decide(l, s.counters, s.requests, background, p, resp);
            exists run, t ::
              && Reaches(l, s, run, t) && t.at.Idle?
              && t.counters == (if o.Counted? then Charge(s.counters, p) else s.counters)
              && t.requests == if o.InBackground? then Assume(s.requests, p, profile, strategy, now) else s.requests
  {
    var o := Decide(l, s.counters, s.requests, background, p, resp);
    if o.Counted? {
      FourSections(l, s, p, RespondAccepted);
    } else if o.InBackground? {
      FourSections(l, s, p, RespondBackground(profile, strategy, now));
    } else {
      assert Reaches(l, s, [], s);
    }
  }

  lemma ChecksFromTheStart(l: Limits, p: Pod, rest: seq<Step>, t: State)
    requires l == Limits(Some(1), None, None) && p.uid != ""
    requires Reaches(l, State(Zero, map[], AllChecked(p), false), rest, t)
    ensures Reaches(l, Begin, [Enter(p)] + ([CheckNode] + ([CheckNamespace] + rest)), t)
  {
    assert In(map[], All) == {};
    var s1 := Apply(l, Begin, Enter(p));
    var s2 := Apply(l, s1, CheckNode);
    ReachesFirst(l, s2, CheckNamespace, rest, t);
    ReachesFirst(l, s1, CheckNode, [CheckNamespace] + rest, t);
    ReachesFirst(l, Begin, Enter(p), [CheckNode] + ([CheckNamespace] + rest), t);
  }

  /** Both conditions on an orderly run are needed. With a total limit of 1: a cache entry the
      informer makes for another pod, */
  lemma ForeignEntryExceedsLimit(p: Pod, q: Pod)
    requires p.uid != "" && q.uid != p.uid
    ensures exists s: State :: s.counters.total + Outstanding(s.requests, All) == 2
              && Reaches(Limits(Some(1), None, None), Begin,
                         [Enter(p), CheckNode, CheckNamespace, RespondAccepted, InformerAdd(q)], s)
  {
    var l := Limits(Some(1), None, None);
    var s3 := State(Zero, map[], AllChecked(p), false);
    var s4 := Apply(l, s3, RespondAccepted);
    var s5 := Apply(l, s4, InformerAdd(q));
    assert In(map[], All) == {};
    OutstandingAfterInsert(map[], q.uid, s5.requests[q.uid], All);
    ReachesFirst(l, s4, InformerAdd(q), [], s5);
    ReachesFirst(l, s3, RespondAccepted, [InformerAdd(q)], s5);
    ChecksFromTheStart(l, p, [RespondAccepted] + [InformerAdd(q)], s5);
    assert [Enter(p)] + ([CheckNode] + ([CheckNamespace] + ([RespondAccepted] + [InformerAdd(q)])))
        == [Enter(p), CheckNode, CheckNamespace, RespondAccepted, InformerAdd(q)];
  }

  /** or an outright eviction of a pod the informer has just added, goes over it. */
  lemma AcceptAfterEntryExceedsLimit(p: Pod)
    requires p.uid != ""
    ensures exists s: State :: s.counters.total + Outstanding(s.requests, All) == 2
              && Reaches(Limits(Some(1), None, None), Begin,
                         [Enter(p), CheckNode, CheckNamespace, InformerAdd(p), RespondAccepted], s)
  {
    var l := Limits(Some(1), None, None);
    var s3 := State(Zero, map[], AllChecked(p), false);
    var s4 := Apply(l, s3, InformerAdd(p));
    var s5 := Apply(l, s4, RespondAccepted);
    assert In(map[], All) == {};
    OutstandingAfterInsert(map[], p.uid, s4.requests[p.uid], All);
    ReachesFirst(l, s4, RespondAccepted, [], s5);
    ReachesFirst(l, s3, InformerAdd(p), [RespondAccepted], s5);
    ChecksFromTheStart(l, p, [InformerAdd(p)] + [RespondAccepted], s5);
    assert [Enter(p)] + ([CheckNode] + ([CheckNamespace] + ([InformerAdd(p)] + [RespondAccepted])))
        == [Enter(p), CheckNode, CheckNamespace, InformerAdd(p), RespondAccepted];
  }
}
