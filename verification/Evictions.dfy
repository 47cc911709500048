/** The pod evictor and its cache of background eviction requests. */
module Evictions {
  /** `wantsBackground`: the pod carries the eviction-request annotation;
      `completed`: its phase is Succeeded or Failed. */
  datatype Pod = Pod(uid: string, namespace: string, name: string, node: string,
                     wantsBackground: bool, completed: bool)

  datatype Item = Item(name: string, namespace: string, node: string,
                       strategy: string, profile: string, assumed: bool, timestamp: int)

  type Requests = map<string, Item>

  // ------------------------------------------------- the request map's operations

  function Add(r: Requests, p: Pod): Requests {
    if p.uid in r then r else r[p.uid := Item(p.name, p.namespace, p.node, "", "", false, 0)]
  }

  /** An entry already assumed stays; one only added is upgraded in place. */
  function Assume(r: Requests, p: Pod, profile: string, strategy: string, now: int): Requests {
    if p.uid in r then
      if r[p.uid].assumed then r
      else r[p.uid := r[p.uid].(strategy := strategy, profile := profile, assumed := true, timestamp := now)]
    else r[p.uid := Item(p.name, p.namespace, p.node, strategy, profile, true, now)]
  }

  /** What the entry of a pod holds once it has been assumed: the strategy, profile and time of the
      first to assume it, at the place it was first entered with. */
  ghost predicate Records(before: Requests, p: Pod, profile: string, strategy: string, now: int, item: Item) {
    if p.uid in before && before[p.uid].assumed then item == before[p.uid]
    else
      && item.assumed && item.strategy == strategy && item.profile == profile && item.timestamp == now
      && (if p.uid in before
          then && item.name == before[p.uid].name && item.namespace == before[p.uid].namespace
               && item.node == before[p.uid].node
          else item.name == p.name && item.namespace == p.namespace && item.node == p.node)
  }

  lemma AssumeRecords(r: Requests, p: Pod, profile: string, strategy: string, now: int)
    ensures var after := Assume(r, p, profile, strategy, now);
            p.uid in after && after - {p.uid} == r - {p.uid} && Records(r, p, profile, strategy, now, after[p.uid])
  {
  }

  predicate TimedOut(item: Item, now: int, timeout: nat) {
    item.assumed && now - item.timestamp > timeout
  }

  function Clean(r: Requests, now: int, timeout: nat): Requests {
    map u | u in r && !TimedOut(r[u], now, timeout) :: r[u]
  }

  // -------------------------------------------------------------- buckets

  /** What is counted and limited: everything, one node, one namespace. */
  datatype Bucket = All | OnNode(node: string) | InNamespace(namespace: string)

  predicate Holds(b: Bucket, item: Item) {
    match b
    case All => true
    case OnNode(n) => item.node == n
    case InNamespace(n) => item.namespace == n
  }

  predicate HoldsPod(b: Bucket, p: Pod) {
    match b
    case All => true
    case OnNode(n) => p.node == n
    case InNamespace(n) => p.namespace == n
  }

  function In(r: Requests, b: Bucket): set<string> {
    set u | u in r && Holds(b, r[u])
  }

  /** The number of outstanding requests in a bucket. */
  function Outstanding(r: Requests, b: Bucket): nat {
    |In(r, b)|
  }

  /** The requests in a bucket that the evictor itself assumed, and those only added. */
  function AssumedIn(r: Requests, b: Bucket): set<string> {
    set u | u in r && r[u].assumed && Holds(b, r[u])
  }

  function AddedIn(r: Requests, b: Bucket): set<string> {
    set u | u in r && !r[u].assumed && Holds(b, r[u])
  }

  lemma AssumedOrAdded(r: Requests, b: Bucket)
    ensures Outstanding(r, b) == |AssumedIn(r, b)| + |AddedIn(r, b)|
  {
    assert In(r, b) == AssumedIn(r, b) + AddedIn(r, b);
  }

  lemma FewerAssumed(r: Requests, less: Requests, b: Bucket)
    requires forall u :: u in less && less[u].assumed ==> u in r && r[u] == less[u]
    ensures |AssumedIn(less, b)| <= |AssumedIn(r, b)|
  {
    FewerElements(AssumedIn(less, b), AssumedIn(r, b));
  }

  lemma FewerElements(a: set<string>, b: set<string>)
    requires a <= b
    ensures |a| <= |b|
  {
    assert b == a + (b - a);
  }

  lemma AssumedAfterSet(r: Requests, u: string, item: Item, b: Bucket)
    ensures |AssumedIn(r[u := item], b)| <= |AssumedIn(r, b)| + if Holds(b, item) then 1 else 0
  {
    if Holds(b, item) {
      FewerElements(AssumedIn(r[u := item], b), AssumedIn(r, b) + {u});
    } else {
      FewerElements(AssumedIn(r[u := item], b), AssumedIn(r, b));
    }
  }

  /** Assuming a request adds at most its own entry, at the place of the entry it upgrades. */
  lemma AssumedAfterAssume(r: Requests, p: Pod, profile: string, strategy: string, now: int, b: Bucket)
    ensures var t := Assume(r, p, profile, strategy, now);
            |AssumedIn(t, b)| <= |AssumedIn(r, b)| + if Holds(b, t[p.uid]) then 1 else 0
  {
    AssumedAfterSet(r, p.uid, Assume(r, p, profile, strategy, now)[p.uid], b);
  }

  lemma OutstandingAfterInsert(r: Requests, u: string, item: Item, b: Bucket)
    requires u !in r
    ensures Outstanding(r[u := item], b) == Outstanding(r, b) + if Holds(b, item) then 1 else 0
  {
    assert In(r[u := item], b) == In(r, b) + if Holds(b, item) then {u} else {};
  }

  lemma OutstandingAfterDelete(r: Requests, u: string, b: Bucket)
    ensures Outstanding(r - {u}, b) == Outstanding(r, b) - if u in r && Holds(b, r[u]) then 1 else 0
  {
    assert In(r - {u}, b) == In(r, b) - {u};
  }

  lemma OutstandingAfterUpgrade(r: Requests, u: string, item: Item, b: Bucket)
    requires u in r && item.node == r[u].node && item.namespace == r[u].namespace
    ensures Outstanding(r[u := item], b) == Outstanding(r, b)
  {
    assert In(r[u := item], b) == In(r, b);
  }

  lemma OutstandingIsMonotone(r: Requests, s: Requests, b: Bucket)
    requires forall u :: u in r ==> u in s && s[u] == r[u]
    ensures Outstanding(r, b) <= Outstanding(s, b)
  {
    var rest := In(s, b) - In(r, b);
    assert In(s, b) == In(r, b) + rest;
  }

  // -------------------------------------------------------------- the cache

  function Get(c: map<string, nat>, k: string): nat {
    if k in c then c[k] else 0
  }

  /** The two keyed counters of the cache. */
  datatype Axis = ByNode | ByNamespace

  function BucketOf(axis: Axis, k: string): Bucket {
    if axis.ByNode? then OnNode(k) else InNamespace(k)
  }

  /** Counters that agree with the request map and keep no zero entry. */
  ghost predicate Counts(c: map<string, nat>, r: Requests, axis: Axis) {
    forall k :: Get(c, k) == Outstanding(r, BucketOf(axis, k)) && (k in c ==> c[k] > 0)
  }

  /** Decrement, dropping the entry when it reaches zero. */
  function Decrement(c: map<string, nat>, k: string): map<string, nat>
    requires Get(c, k) > 0
  {
    if c[k] == 1 then c - {k} else c[k := c[k] - 1]
  }

  lemma CountsAfterInsert(c: map<string, nat>, r: Requests, axis: Axis, u: string, item: Item, k: string)
    requires Counts(c, r, axis) && u !in r && forall j :: Holds(BucketOf(axis, j), item) <==> j == k
    ensures Counts(c[k := Get(c, k) + 1], r[u := item], axis)
  {
    forall j { OutstandingAfterInsert(r, u, item, BucketOf(axis, j)); }
  }

  lemma CountsAfterDelete(c: map<string, nat>, r: Requests, axis: Axis, u: string, k: string)
    requires Counts(c, r, axis) && u in r && forall j :: Holds(BucketOf(axis, j), r[u]) <==> j == k
    ensures Get(c, k) > 0 && Counts(Decrement(c, k), r - {u}, axis)
  {
    forall j { OutstandingAfterDelete(r, u, BucketOf(axis, j)); }
    assert u in In(r, BucketOf(axis, k));
  }

  lemma CountsAfterUpgrade(c: map<string, nat>, r: Requests, axis: Axis, u: string, item: Item)
    requires Counts(c, r, axis) && u in r && item.node == r[u].node && item.namespace == r[u].namespace
    ensures Counts(c, r[u := item], axis)
  {
    forall j { OutstandingAfterUpgrade(r, u, item, BucketOf(axis, j)); }
  }

  class EvictionRequestsCache {
    var requests: Requests
    var requestsPerNode: map<string, nat>
    var requestsPerNamespace: map<string, nat>
    var requestsTotal: nat
    const timeout: nat

    ghost predicate Valid()
      reads this
    {
      && Counts(requestsPerNode, requests, ByNode)
      && Counts(requestsPerNamespace, requests, ByNamespace)
      && requestsTotal == |requests|
    }

    constructor (timeout: nat)
      ensures Valid() && requests == map[] && this.timeout == timeout
    {
      requests, requestsPerNode, requestsPerNamespace, requestsTotal := map[], map[], map[], 0;
      this.timeout := timeout;
    }

    /** The counters go up by one along with the new entry. */
    method Insert(uid: string, item: Item)
      requires Valid() && uid !in requests
      modifies this
      ensures Valid() && requests == old(requests)[uid := item]
    {
      CountsAfterInsert(requestsPerNode, requests, ByNode, uid, item, item.node);
      CountsAfterInsert(requestsPerNamespace, requests, ByNamespace, uid, item, item.namespace);
      requests := requests[uid := item];
      requestsPerNode := requestsPerNode[item.node := Get(requestsPerNode, item.node) + 1];
      requestsPerNamespace := requestsPerNamespace[item.namespace := Get(requestsPerNamespace, item.namespace) + 1];
      requestsTotal := requestsTotal + 1;
    }

    method AddPod(p: Pod)
      requires Valid() && p.uid != ""
      modifies this
      ensures Valid() && requests == Add(old(requests), p)
      ensures requests == if p.uid in old(requests) then old(requests)
                          else old(requests)[p.uid := Item(p.name, p.namespace, p.node, "", "", false, 0)]
    {
      if p.uid !in requests {
        Insert(p.uid, Item(p.name, p.namespace, p.node, "", "", false, 0));
      }
    }

    method AssumePod(p: Pod, profile: string, strategy: string, now: int)
      requires Valid() && p.uid != ""
      modifies this
      ensures Valid() && requests == Assume(old(requests), p, profile, strategy, now)
      ensures p.uid in requests && requests - {p.uid} == old(requests) - {p.uid}
      ensures Records(old(requests), p, profile, strategy, now, requests[p.uid])
    {
      if p.uid in requests {
        var item := requests[p.uid];
        if item.assumed {
          return;
        }
        var upgraded := Item(item.name, item.namespace, item.node, strategy, profile, true, now);
        CountsAfterUpgrade(requestsPerNode, requests, ByNode, p.uid, upgraded);
        CountsAfterUpgrade(requestsPerNamespace, requests, ByNamespace, p.uid, upgraded);
        requests := requests[p.uid := upgraded];
      } else {
        Insert(p.uid, Item(p.name, p.namespace, p.node, strategy, profile, true, now));
      }
    }

    /** No counter underflows: each is at least one while the entry exists. */
    method DeleteItem(uid: string)
      requires Valid() && uid in requests
      modifies this
      ensures Valid() && requests == old(requests) - {uid}
    {
      var item := requests[uid];
      CountsAfterDelete(requestsPerNode, requests, ByNode, uid, item.node);
      CountsAfterDelete(requestsPerNamespace, requests, ByNamespace, uid, item.namespace);
      requestsPerNode := Decrement(requestsPerNode, item.node);
      requestsPerNamespace := Decrement(requestsPerNamespace, item.namespace);
      requestsTotal := requestsTotal - 1;
      requests := requests - {uid};
    }

    method DeletePod(p: Pod)
      requires Valid() && p.uid != ""
      modifies this
      ensures Valid() && requests == old(requests) - {p.uid}
    {
      if p.uid in requests {
        DeleteItem(p.uid);
      }
    }

    /** Deleting while iterating, in any order, removes exactly the timed-out entries. */
    method CleanCache(now: int)
      requires Valid()
      modifies this
      ensures Valid() && requests == Clean(old(requests), now, timeout)
    {
      var todo := requests.Keys;
      while todo != {}
        invariant Valid() && todo <= requests.Keys <= old(requests).Keys
        invariant forall u :: u in requests ==> requests[u] == old(requests)[u]
        invariant forall u :: u in old(requests) && u !in todo ==>
                    (u in requests <==> !TimedOut(old(requests)[u], now, timeout))
        decreases todo
      {
        var uid :| uid in todo;
        if TimedOut(requests[uid], now, timeout) {
          DeleteItem(uid);
        }
        todo := todo - {uid};
      }
    }
  }

  // ------------------------------------------- an assumed entry stays as it is

  datatype CacheOp =
    | OpAdd(pod: Pod) | OpAssume(pod: Pod, profile: string, strategy: string, now: int)
    | OpDelete(uid: string) | OpClean(now: int, timeout: nat)

  function Do(r: Requests, op: CacheOp): Requests {
    match op
    case OpAdd(p) => Add(r, p)
    case OpAssume(p, profile, strategy, now) => Assume(r, p, profile, strategy, now)
    case OpDelete(u) => r - {u}
    case OpClean(now, timeout) => Clean(r, now, timeout)
  }

  function DoAll(r: Requests, ops: seq<CacheOp>): Requests
    decreases ops
  {
    if ops == [] then r else DoAll(Do(r, ops[0]), ops[1..])
  }

  ghost predicate StaysIn(r: Requests, ops: seq<CacheOp>, u: string)
    decreases ops
  {
    u in r && (ops != [] ==> StaysIn(Do(r, ops[0]), ops[1..], u))
  }

  /** Over any operations, as long as an entry is not removed its pod, node and namespace
      stay, and once it is assumed its strategy, profile and timestamp stay too. */
  lemma {:induction false} AssumedEntryIsFixed(r: Requests, ops: seq<CacheOp>, u: string)
    requires StaysIn(r, ops, u)
    ensures u in DoAll(r, ops)
    ensures var a, z := r[u], DoAll(r, ops)[u];
            && z.name == a.name && z.namespace == a.namespace && z.node == a.node
            && (a.assumed ==> z == a)
    decreases ops
  {
    if ops != [] {
      AssumedEntryIsFixed(Do(r, ops[0]), ops[1..], u);
    }
  }

  // ------------------------------------------- how long an assumed entry lives

  /** The operation deletes no entry of `u`, and if it cleans the cache an entry assumed at `since`
      has not timed out. */
  predicate Spares(op: CacheOp, u: string, since: int) {
    match op
    case OpDelete(v) => v != u
    case OpClean(now, timeout) => now - since <= timeout
    case _ => true
  }

  lemma {:induction false} SparedEntryStays(r: Requests, ops: seq<CacheOp>, u: string)
    requires u in r && r[u].assumed && forall i :: 0 <= i < |ops| ==> Spares(ops[i], u, r[u].timestamp)
    ensures u in DoAll(r, ops) && DoAll(r, ops)[u] == r[u]
    decreases ops
  {
    if ops != [] {
      assert Spares(ops[0], u, r[u].timestamp);
      SparedEntryStays(Do(r, ops[0]), ops[1..], u);
    }
  }

  lemma {:induction false} DoAllOn(r: Requests, ops: seq<CacheOp>, last: CacheOp)
    ensures DoAll(r, ops + [last]) == Do(DoAll(r, ops), last)
    decreases ops
  {
    if ops != [] {
      assert (ops + [last])[1..] == ops[1..] + [last];
      DoAllOn(Do(r, ops[0]), ops[1..], last);
    }
  }

  /** A request assumed at `now`, new or upgraded, is recorded with that strategy, profile and time.
      Whatever is added, assumed or deleted for other pods meanwhile, it survives every cleaning up
      to its timeout unchanged, and is gone after the first one past it. */
  lemma AssumedLifetime(r: Requests, p: Pod, profile: string, strategy: string, now: int, ops: seq<CacheOp>, t: int, timeout: nat)
    requires p.uid in r ==> !r[p.uid].assumed
    requires forall i :: 0 <= i < |ops| ==> Spares(ops[i], p.uid, now)
    ensures var later := DoAll(Assume(r, p, profile, strategy, now), ops);
            p.uid in later && Records(r, p, profile, strategy, now, later[p.uid])
    ensures p.uid in DoAll(Assume(r, p, profile, strategy, now), ops + [OpClean(t, timeout)]) <==> t - now <= timeout
  {
    var start := Assume(r, p, profile, strategy, now);
    AssumeRecords(r, p, profile, strategy, now);
    SparedEntryStays(start, ops, p.uid);
    DoAllOn(start, ops, OpClean(t, timeout));
  }

  /** An entry that was only added does not time out: whatever happens for other pods, it stays as it
      is until it is assumed or deleted. */
  lemma {:induction false} AddedEntryNeverTimesOut(r: Requests, ops: seq<CacheOp>, u: string)
    requires u in r && !r[u].assumed
    requires forall i :: 0 <= i < |ops| ==>
               ops[i] != OpDelete(u) && (ops[i].OpAssume? ==> ops[i].pod.uid != u)
    ensures u in DoAll(r, ops) && DoAll(r, ops)[u] == r[u]
    decreases ops
  {
    if ops != [] {
      assert ops[0] != OpDelete(u) && (ops[0].OpAssume? ==> ops[0].pod.uid != u);
      AddedEntryNeverTimesOut(Do(r, ops[0]), ops[1..], u);
    }
  }
}
