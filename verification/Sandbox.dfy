/** The dry-run sandbox: a fake pod store kept in step with the real one by ordered events,
    simulated evictions that delete from the fake store, and the restore that undoes them. */
module Sandbox {
  import opened Common

  type Uid = string

  datatype Key = Key(namespace: string, name: string)

  /** `spec` stands for everything an update may change. */
  datatype Pod = Pod(key: Key, uid: Uid, spec: string)

  datatype Event = Added(pod: Pod) | Updated(pod: Pod) | Deleted(pod: Pod)

  type Store = map<Key, Pod>

  // ---------------------------------------------- the tracker and the handlers

  /** Adding what exists fails with AlreadyExists and leaves the object alone. */
  function TrackerAdd(s: Store, p: Pod): Store {
    if p.key in s then s else s[p.key := p]
  }

  /** Updating what does not exist fails with NotFound. */
  function TrackerUpdate(s: Store, p: Pod): Store {
    if p.key in s then s[p.key := p] else s
  }

  function TrackerDelete(s: Store, k: Key): Store {
    s - {k}
  }

  function Handle(s: Store, e: Event): Store {
    match e
    case Added(p) => TrackerAdd(s, p)
    case Updated(p) => TrackerUpdate(s, p)
    case Deleted(p) => TrackerDelete(s, p.key)
  }

  // ------------------------------------------------------------- the sandbox

  /** The pods that restoring puts back: those the lister still has under the evicted UID. */
  function Restorable(lister: Store, evicted: map<Uid, Key>): Store {
    map k | k in lister && lister[k].uid in evicted && evicted[lister[k].uid] == k :: lister[k]
  }

  lemma RestorableGrows(lister: Store, done: map<Uid, Key>, u: Uid, k: Key)
    requires u !in done
    ensures Restorable(lister, done[u := k]) ==
            Restorable(lister, done) + if k in lister && lister[k].uid == u then map[k := lister[k]] else map[]
  {
  }

  lemma RestorableStep(lister: Store, done: map<Uid, Key>, u: Uid, k: Key, base: Store)
    requires u !in done
    ensures var fake := Restorable(lister, done) + base;
            Restorable(lister, done[u := k]) + base ==
            if k in lister && lister[k].uid == u && k !in fake then fake[k := lister[k]] else fake
  {
    RestorableGrows(lister, done, u, k);
  }

  class KubeClientSandbox {
    var fake: Store
    var evicted: map<Uid, Key>

    constructor ()
      ensures fake == map[] && evicted == map[]
    {
      fake, evicted := map[], map[];
    }

    method OnAdd(p: Pod)
      modifies this`fake
      ensures fake == Handle(old(fake), Added(p))
    {
      if p.key !in fake {
        fake := fake[p.key := p];
      }
    }

    method OnUpdate(p: Pod)
      modifies this`fake
      ensures fake == Handle(old(fake), Updated(p))
    {
      if p.key in fake {
        fake := fake[p.key := p];
      }
    }

    method OnDelete(p: Pod)
      modifies this`fake
      ensures fake == Handle(old(fake), Deleted(p))
    {
      fake := fake - {p.key};
    }

    /** The eviction reactor: remember the pod's UID, then delete it; a pod the fake store
        does not have is an error. */
    method React(k: Key) returns (ok: bool)
      modifies this
      ensures ok <==> k in old(fake)
      ensures fake == old(fake) - {k}
      ensures evicted == if ok then old(evicted)[old(fake)[k].uid := k] else old(evicted)
    {
      if k in fake {
        evicted := evicted[fake[k].uid := k];
      }
      ok := k in fake;
      fake := fake - {k};
    }

    /** The restore loop, with the lister standing still: whatever the order of the cache,
        exactly the restorable pods missing from the fake store come back, at the lister's
        version, and nothing else changes. */
    method RestoreEvictedPods(lister: Store)
      modifies this`fake
      ensures fake == Restorable(lister, evicted) + old(fake)
    {
      var todo := evicted.Keys;
      ghost var done: map<Uid, Key> := map[];
      while todo != {}
        invariant todo <= evicted.Keys && done.Keys == evicted.Keys - todo
        invariant forall u :: u in done ==> done[u] == evicted[u]
        invariant fake == Restorable(lister, done) + old(fake)
        decreases todo
      {
        var uid :| uid in todo;
        var k := evicted[uid];
        if k in lister && lister[k].uid == uid && k !in fake {
          fake := fake[k := lister[k]];
        }
        RestorableStep(lister, done, uid, k, old(fake));
        done := done[uid := k];
        todo := todo - {uid};
      }
      assert done == evicted;
    }

    method Reset()
      modifies this`evicted
      ensures evicted == map[]
    {
      evicted := map[];
    }
  }

  // ------------------------------------------------------------- the protocol

  /** Evictions happen while `Running`; `Restoring` holds the entries still to process. */
  datatype Phase = Running | Restoring(todo: set<Uid>)

  /** `live` is the lister's store, `queue` the events not yet handed to the sandbox, `read` the
      pod a restore has read from the lister and not yet added to the tracker.
      `seen`, `arrived` and `born` only record history: the real store as the events handed
      over so far describe it, the UIDs whose add event was handed over, and the key every
      UID was created for. */
  datatype State = State(live: Store, queue: seq<Event>, fake: Store, evicted: map<Uid, Key>, phase: Phase,
                         read: Option<Pod>, seen: Store, arrived: set<Uid>, born: map<Uid, Key>)

  datatype Step =
    | Create(pod: Pod) | Modify(pod: Pod) | Remove(key: Key)   // the real cluster
    | Deliver                                                  // the informer hands over one event
    | Evict(key: Key)                                          // a plugin evicts in the fake store
    | BeginRestore | RestoreRead(uid: Uid) | RestoreAdd | AbortRestore | Reset

  function Initial(): State {
    State(map[], [], map[], map[], Running, None, map[], {}, map[])
  }

  /** UIDs are never reused, an update keeps its UID, a cycle's evictions all come before its
      restore, and no event of a pod is handed over while that pod is being restored, between
      the lister's read and the tracker's add. */
  ghost predicate Enabled(s: State, step: Step) {
    match step
    case Create(p) => p.key !in s.live && p.uid !in s.born
    case Modify(p) => p.key in s.live && s.live[p.key].uid == p.uid
    case Remove(k) => k in s.live
    case Deliver => s.queue != [] && (s.read.Some? ==> s.queue[0].pod.key != s.read.value.key)
    case Evict(k) => s.phase.Running?
    case BeginRestore => s.phase.Running?
    case RestoreRead(u) => s.phase.Restoring? && u in s.phase.todo && s.read.None?
    case RestoreAdd => s.phase.Restoring? && s.read.Some?
    case AbortRestore => s.phase.Restoring?
    case Reset => s.phase == Restoring({}) && s.read.None?
  }

  ghost function Apply(s: State, step: Step): State
    requires Enabled(s, step)
  {
    match step
    case Create(p) => s.(live := s.live[p.key := p], queue := s.queue + [Added(p)], born := s.born[p.uid := p.key])
    case Modify(p) => s.(live := s.live[p.key := p], queue := s.queue + [Updated(p)])
    case Remove(k) => s.(live := s.live - {k}, queue := s.queue + [Deleted(s.live[k])])
    case Deliver =>
      var e := s.queue[0];
      s.(queue := s.queue[1..], fake := Handle(s.fake, e), seen := Handle(s.seen, e),
      arrived := if e.Added? then s.arrived + {e.pod.uid} else s.arrived)
    case Evict(k) => if k in s.fake then s.(fake := s.fake - {k}, evicted := s.evicted[s.fake[k].uid := k]) else s
    case BeginRestore => s.(phase := Restoring(s.evicted.Keys))
    case RestoreRead(u) =>
      if u in s.evicted && s.evicted[u] in s.live && s.live[s.evicted[u]].uid == u
      then s.(read := Some(s.live[s.evicted[u]])) else s.(phase := Restoring(s.phase.todo - {u}))
    case RestoreAdd =>
      s.(fake := TrackerAdd(s.fake, s.read.value), read := None, phase := Restoring(s.phase.todo - {s.read.value.uid}))
    case AbortRestore => s.(phase := Running, read := None)
    case Reset => s.(phase := Running, evicted := map[])
  }

  // ------------------------------------------------------------- one key's story

  ghost function Pending(q: seq<Event>, k: Key): seq<Event> {
    if q == [] then [] else (if q[0].pod.key == k then [q[0]] else []) + Pending(q[1..], k)
  }

  lemma {:induction false} PendingAppend(q: seq<Event>, e: Event, k: Key)
    ensures Pending(q + [e], k) == Pending(q, k) + if e.pod.key == k then [e] else []
  {
    if q == [] {
      assert [e][1..] == [];
    } else {
      assert (q + [e])[1..] == q[1..] + [e];
      PendingAppend(q[1..], e, k);
    }
  }

  /** `evs` is a history the real store could have produced for one key. */
  ghost predicate Legal(from: Option<Pod>, evs: seq<Event>, to: Option<Pod>)
    decreases evs
  {
    if evs == [] then from == to
    else match evs[0]
      case Added(p) => from.None? && Legal(Some(p), evs[1..], to)
      case Updated(p) => from.Some? && from.value.uid == p.uid && Legal(Some(p), evs[1..], to)
      case Deleted(p) => from.Some? && Legal(None, evs[1..], to)
  }

  lemma {:induction false} LegalAppend(from: Option<Pod>, evs: seq<Event>, mid: Option<Pod>, e: Event, to: Option<Pod>)
    requires Legal(from, evs, mid) && Legal(mid, [e], to)
    ensures Legal(from, evs + [e], to)
    decreases evs
  {
    if evs == [] {
      assert evs + [e] == [e];
    } else {
      assert (evs + [e])[1..] == evs[1..] + [e] && (evs + [e])[0] == evs[0];
      var next := match evs[0] case Added(p) => Some(p) case Updated(p) => Some(p) case Deleted(_) => None;
      LegalAppend(next, evs[1..], mid, e, to);
    }
  }

  ghost predicate Removes(evs: seq<Event>) {
    exists i :: 0 <= i < |evs| && evs[i].Deleted?
  }

  ghost predicate Adds(evs: seq<Event>, u: Uid) {
    exists i :: 0 <= i < |evs| && evs[i].Added? && evs[i].pod.uid == u
  }

  /** A pod is there at the end with UID `u` exactly if it was there all along, or its add
      is among the events. */
  lemma {:induction false} LegalUid(from: Option<Pod>, evs: seq<Event>, to: Option<Pod>, u: Uid)
    requires Legal(from, evs, to) && !Adds(evs, u)
    ensures to.Some? && to.value.uid == u ==> from.Some? && from.value.uid == u
    ensures from.Some? && from.value.uid == u ==> (Removes(evs) <==> !(to.Some? && to.value.uid == u))
    decreases evs
  {
    if evs != [] {
      var rest := evs[1..];
      var next := match evs[0] case Added(p) => Some(p) case Updated(p) => Some(p) case Deleted(_) => None;
      assert forall i :: 0 <= i < |rest| ==> rest[i] == evs[i + 1];
      LegalUid(next, rest, to, u);
      if Removes(rest) {
        var i :| 0 <= i < |rest| && rest[i].Deleted?;
        assert evs[i + 1].Deleted?;
      }
      if Removes(evs) && !evs[0].Deleted? {
        var i :| 0 <= i < |evs| && evs[i].Deleted?;
        assert rest[i - 1].Deleted?;
      }
    }
  }

  // ------------------------------------------------------------- the invariant

  ghost predicate WellKeyed(s: Store, born: map<Uid, Key>) {
    forall k :: k in s ==> s[k].key == k && s[k].uid in born && born[s[k].uid] == k
  }

  /** Bookkeeping: UIDs belong to one key, and the add event of a UID is either handed over
      (then the UID is in `arrived`) or still queued, once. */
  ghost predicate Bookkeeping(s: State) {
    && WellKeyed(s.live, s.born) && WellKeyed(s.fake, s.born) && WellKeyed(s.seen, s.born)
    && (forall i :: 0 <= i < |s.queue| ==> s.queue[i].pod.uid in s.born && s.born[s.queue[i].pod.uid] == s.queue[i].pod.key)
    && (forall i :: 0 <= i < |s.queue| && s.queue[i].Added? ==> s.queue[i].pod.uid !in s.arrived)
    && (forall i, j :: 0 <= i < j < |s.queue| && s.queue[i].Added? && s.queue[j].Added? ==>
                         s.queue[i].pod.uid != s.queue[j].pod.uid)
    && (forall k :: k in s.seen ==> s.seen[k].uid in s.arrived)
    && s.arrived <= s.born.Keys
    && (forall u :: u in s.evicted ==> u in s.arrived && u in s.born && s.born[u] == s.evicted[u])
    && (s.phase.Restoring? ==> s.phase.todo <= s.evicted.Keys)
  }

  /** An entry of the evicted cache that a restore can still act on. */
  ghost predicate Recoverable(s: State, u: Uid) {
    u in s.evicted && (s.phase.Restoring? ==> u in s.phase.todo)
  }

  /** The state of one key. Either the fake store has what the delivered events describe (or
      a newer version of the same pod, with an event pending that settles the difference),
      or it lacks a pod that a restore will put back or that is about to be deleted. */
  ghost predicate KeyInv(s: State, k: Key) {
    && Legal(Look(s.seen, k), Pending(s.queue, k), Look(s.live, k))
    && match Look(s.fake, k)
       case Some(p) =>
         k in s.seen && s.seen[k].uid == p.uid && (s.seen[k] == p || Pending(s.queue, k) != [])
       case None =>
         k in s.seen ==> Removes(Pending(s.queue, k)) || Recoverable(s, s.seen[k].uid)
  }

  /** The pod read is the one the delivered events describe, or a newer version of it with an
      event pending that settles the difference. */
  ghost predicate ReadInv(s: State) {
    s.read.Some? ==>
      var p := s.read.value;
      && s.phase.Restoring? && p.uid in s.phase.todo
      && p.uid in s.born && s.born[p.uid] == p.key
      && p.key in s.seen && s.seen[p.key].uid == p.uid
      && (Pending(s.queue, p.key) == [] ==> s.seen[p.key] == p)
  }

  ghost predicate Inv(s: State) {
    Bookkeeping(s) && ReadInv(s) && forall k :: KeyInv(s, k)
  }

  // ------------------------------------------------ every step keeps the invariant

  lemma HeadOfPending(q: seq<Event>, k: Key)
    requires q != []
    ensures Pending(q, k) == if q[0].pod.key == k then [q[0]] + Pending(q[1..], k) else Pending(q[1..], k)
    ensures q[0].pod.key == k ==> Pending(q, k)[1..] == Pending(q[1..], k)
  {
  }

  /** The add of a UID that has arrived is no longer pending. */
  lemma {:induction false} ArrivedIsNotPending(q: seq<Event>, k: Key, u: Uid)
    requires forall i :: 0 <= i < |q| && q[i].Added? ==> q[i].pod.uid != u
    ensures !Adds(Pending(q, k), u)
  {
    if q != [] {
      ArrivedIsNotPending(q[1..], k, u);
      HeadOfPending(q, k);
    }
  }

  lemma RealStepKey(s: State, t: State, e: Event, k: Key)
    requires KeyInv(s, k) && t == s.(live := t.live, queue := s.queue + [e], born := t.born)
    requires if k == e.pod.key then Legal(Look(s.live, k), [e], Look(t.live, k)) else Look(t.live, k) == Look(s.live, k)
    ensures KeyInv(t, k)
  {
    PendingAppend(s.queue, e, k);
    if k == e.pod.key {
      LegalAppend(Look(s.seen, k), Pending(s.queue, k), Look(s.live, k), e, Look(t.live, k));
    } else {
      assert Pending(t.queue, k) == Pending(s.queue, k);
    }
    if Removes(Pending(s.queue, k)) {
      var i :| 0 <= i < |Pending(s.queue, k)| && Pending(s.queue, k)[i].Deleted?;
      assert Pending(t.queue, k)[i].Deleted?;
    }
  }

  lemma RealStepKeeps(s: State, t: State, e: Event)
    requires Inv(s) && Bookkeeping(t)
    requires t == s.(live := t.live, queue := s.queue + [e], born := t.born)
    requires forall u :: u in s.born ==> u in t.born && t.born[u] == s.born[u]
    requires forall k :: k != e.pod.key ==> Look(t.live, k) == Look(s.live, k)
    requires Legal(Look(s.live, e.pod.key), [e], Look(t.live, e.pod.key))
    ensures Inv(t)
  {
    if s.read.Some? {
      PendingAppend(s.queue, e, s.read.value.key);
    }
    forall k
      ensures KeyInv(t, k)
    {
      RealStepKey(s, t, e, k);
    }
  }

  lemma DeliverStores(s: State)
    requires Enabled(s, Deliver) && WellKeyed(s.fake, s.born) && WellKeyed(s.seen, s.born)
    requires s.queue[0].pod.uid in s.born && s.born[s.queue[0].pod.uid] == s.queue[0].pod.key
    ensures var t := Apply(s, Deliver); WellKeyed(t.fake, t.born) && WellKeyed(t.seen, t.born)
  {
  }

  lemma DeliverArrives(s: State)
    requires Enabled(s, Deliver) && KeyInv(s, s.queue[0].pod.key)
    requires s.queue[0].pod.uid in s.born && s.arrived <= s.born.Keys
    requires forall k :: k in s.seen ==> s.seen[k].uid in s.arrived
    ensures var t := Apply(s, Deliver);
            t.arrived <= t.born.Keys && forall k :: k in t.seen ==> t.seen[k].uid in t.arrived
  {
    HeadOfPending(s.queue, s.queue[0].pod.key);
  }

  lemma DeliverQueue(s: State)
    requires Bookkeeping(s) && Enabled(s, Deliver)
    ensures var t := Apply(s, Deliver);
            && (forall i :: 0 <= i < |t.queue| ==>
                  t.queue[i].pod.uid in t.born && t.born[t.queue[i].pod.uid] == t.queue[i].pod.key)
            && (forall i :: 0 <= i < |t.queue| && t.queue[i].Added? ==> t.queue[i].pod.uid !in t.arrived)
            && (forall i, j :: 0 <= i < j < |t.queue| && t.queue[i].Added? && t.queue[j].Added? ==>
                                 t.queue[i].pod.uid != t.queue[j].pod.uid)
  {
    var t := Apply(s, Deliver);
    assert forall i :: 0 <= i < |t.queue| ==> t.queue[i] == s.queue[i + 1];
  }

  lemma DeliverBooks(s: State)
    requires Inv(s) && Enabled(s, Deliver)
    ensures Bookkeeping(Apply(s, Deliver))
  {
    assert KeyInv(s, s.queue[0].pod.key);
    DeliverStores(s);
    DeliverArrives(s);
    DeliverQueue(s);
  }

  lemma DeliverOtherKey(s: State, k: Key)
    requires KeyInv(s, k) && Enabled(s, Deliver) && k != s.queue[0].pod.key
    ensures KeyInv(Apply(s, Deliver), k)
  {
    HeadOfPending(s.queue, k);
  }

  lemma DeliverOwnKey(s: State)
    requires Enabled(s, Deliver) && KeyInv(s, s.queue[0].pod.key)
    ensures KeyInv(Apply(s, Deliver), s.queue[0].pod.key)
  {
    var e, t := s.queue[0], Apply(s, Deliver);
    HeadOfPending(s.queue, e.pod.key);
    var evs, rest := Pending(s.queue, e.pod.key), Pending(t.queue, e.pod.key);
    assert evs[0] == e && evs[1..] == rest;
    if Removes(evs) && !e.Deleted? {
      var i :| 0 <= i < |evs| && evs[i].Deleted?;
      assert rest[i - 1].Deleted?;
    }
  }

  lemma DeliverRead(s: State)
    requires ReadInv(s) && Enabled(s, Deliver)
    ensures ReadInv(Apply(s, Deliver))
  {
    if s.read.Some? {
      HeadOfPending(s.queue, s.read.value.key);
    }
  }

  lemma DeliverKeeps(s: State)
    requires Inv(s) && Enabled(s, Deliver)
    ensures Inv(Apply(s, Deliver))
  {
    DeliverBooks(s);
    DeliverRead(s);
    forall k
      ensures KeyInv(Apply(s, Deliver), k)
    {
      assert KeyInv(s, k);
      if k == s.queue[0].pod.key {
        DeliverOwnKey(s);
      } else {
        DeliverOtherKey(s, k);
      }
    }
  }

  lemma EvictKeeps(s: State, k: Key)
    requires Inv(s) && s.phase.Running?
    ensures Inv(Apply(s, Evict(k)))
  {
    var t := Apply(s, Evict(k));
    assert KeyInv(s, k);
    forall l
      ensures KeyInv(t, l)
    {
      assert KeyInv(s, l);
    }
  }

  /** What a restore reads is a pod the delivered events describe, up to pending updates. */
  lemma RestoreReads(s: State, u: Uid)
    requires Bookkeeping(s) && Enabled(s, RestoreRead(u)) && u in s.evicted && KeyInv(s, s.evicted[u])
    ensures ReadInv(Apply(s, RestoreRead(u)))
  {
    var k := s.evicted[u];
    ArrivedIsNotPending(s.queue, k, u);
    LegalUid(Look(s.seen, k), Pending(s.queue, k), Look(s.live, k), u);
  }

  /** An entry given up is one whose pod is gone, or about to be deleted. */
  lemma RestoreReadKey(s: State, u: Uid, l: Key)
    requires Bookkeeping(s) && Enabled(s, RestoreRead(u)) && u in s.evicted && KeyInv(s, l)
    ensures KeyInv(Apply(s, RestoreRead(u)), l)
  {
    if l == s.evicted[u] {
      ArrivedIsNotPending(s.queue, l, u);
      LegalUid(Look(s.seen, l), Pending(s.queue, l), Look(s.live, l), u);
    }
  }

  lemma RestoreReadKeeps(s: State, u: Uid)
    requires Inv(s) && Enabled(s, RestoreRead(u))
    ensures Inv(Apply(s, RestoreRead(u)))
  {
    assert u in s.evicted && KeyInv(s, s.evicted[u]);
    RestoreReads(s, u);
    forall l
      ensures KeyInv(Apply(s, RestoreRead(u)), l)
    {
      assert KeyInv(s, l);
      RestoreReadKey(s, u, l);
    }
  }

  lemma RestoreAddKey(s: State, l: Key)
    requires Bookkeeping(s) && ReadInv(s) && Enabled(s, RestoreAdd) && KeyInv(s, l)
    ensures KeyInv(Apply(s, RestoreAdd), l)
  {
  }

  lemma RestoreAddBooks(s: State)
    requires Bookkeeping(s) && ReadInv(s) && Enabled(s, RestoreAdd)
    ensures Bookkeeping(Apply(s, RestoreAdd))
  {
  }

  lemma RestoreAddKeeps(s: State)
    requires Inv(s) && Enabled(s, RestoreAdd)
    ensures Inv(Apply(s, RestoreAdd))
  {
    RestoreAddBooks(s);
    forall l
      ensures KeyInv(Apply(s, RestoreAdd), l)
    {
      RestoreAddKey(s, l);
    }
  }

  lemma OtherStepsKeep(s: State, step: Step)
    requires Inv(s) && Enabled(s, step) && (step.BeginRestore? || step.AbortRestore? || step.Reset?)
    ensures Inv(Apply(s, step))
  {
    forall k
      ensures KeyInv(Apply(s, step), k)
    {
      assert KeyInv(s, k);
    }
  }

  lemma CreateBooks(s: State, p: Pod)
    requires Bookkeeping(s) && Enabled(s, Create(p))
    ensures Bookkeeping(Apply(s, Create(p)))
  {
    var t := Apply(s, Create(p));
    forall i | 0 <= i < |t.queue| && t.queue[i].Added?
      ensures t.queue[i].pod.uid !in s.arrived
    {
    }
  }

  lemma CreateKeeps(s: State, p: Pod)
    requires Inv(s) && Enabled(s, Create(p))
    ensures Inv(Apply(s, Create(p)))
  {
    CreateBooks(s, p);
    RealStepKeeps(s, Apply(s, Create(p)), Added(p));
  }

  lemma ModifyKeeps(s: State, p: Pod)
    requires Inv(s) && Enabled(s, Modify(p))
    ensures Inv(Apply(s, Modify(p)))
  {
    RealStepKeeps(s, Apply(s, Modify(p)), Updated(p));
  }

  lemma RemoveKeeps(s: State, k: Key)
    requires Inv(s) && Enabled(s, Remove(k))
    ensures Inv(Apply(s, Remove(k)))
  {
    RealStepKeeps(s, Apply(s, Remove(k)), Deleted(s.live[k]));
  }

  lemma StepKeeps(s: State, step: Step)
    requires Inv(s) && Enabled(s, step)
    ensures Inv(Apply(s, step))
  {
    match step
    case Create(p) => CreateKeeps(s, p);
    case Modify(p) => ModifyKeeps(s, p);
    case Remove(k) => RemoveKeeps(s, k);
    case Deliver => DeliverKeeps(s);
    case Evict(k) => EvictKeeps(s, k);
    case RestoreRead(u) => RestoreReadKeeps(s, u);
    case RestoreAdd => RestoreAddKeeps(s);
    case _ => OtherStepsKeep(s, step);
  }

  // ------------------------------------------------------------- whole runs

  /** `t` is reached from `s` by the steps `run`, in that order. */
  ghost predicate Reaches(s: State, run: seq<Step>, t: State)
    decreases run
  {
    if run == [] then s == t
    else Enabled(s, run[0]) && Reaches(Apply(s, run[0]), run[1..], t)
  }

  lemma {:induction false} RunKeeps(s: State, run: seq<Step>, t: State)
    requires Inv(s) && Reaches(s, run, t)
    ensures Inv(t)
    decreases run
  {
    if run != [] {
      StepKeeps(s, run[0]);
      RunKeeps(Apply(s, run[0]), run[1..], t);
    }
  }

  /** What the handlers make of one key when they get the events `evs`. */
  ghost function Replay(v: Option<Pod>, evs: seq<Event>): Option<Pod>
    decreases evs
  {
    if evs == [] then v
    else match evs[0]
      case Added(p) => Replay(if v.None? then Some(p) else v, evs[1..])
      case Updated(p) => Replay(if v.Some? then Some(p) else None, evs[1..])
      case Deleted(_) => Replay(None, evs[1..])
  }

  lemma {:induction false} ReplayFollowsHistory(from: Option<Pod>, evs: seq<Event>, to: Option<Pod>)
    requires Legal(from, evs, to)
    ensures Replay(from, evs) == to
    ensures Removes(evs) ==> Replay(None, evs) == to
    ensures !Removes(evs) && from.Some? ==> forall i :: 0 <= i < |evs| ==> evs[i].Updated?
    decreases evs
  {
    if evs != [] {
      var rest := evs[1..];
      assert forall i :: 0 <= i < |rest| ==> rest[i] == evs[i + 1];
      var next := match evs[0] case Added(p) => Some(p) case Updated(p) => Some(p) case Deleted(_) => None;
      ReplayFollowsHistory(next, rest, to);
      if Removes(evs) && !evs[0].Deleted? {
        var i :| 0 <= i < |evs| && evs[i].Deleted?;
        assert rest[i - 1].Deleted?;
      }
      if Removes(rest) {
        var i :| 0 <= i < |rest| && rest[i].Deleted?;
        assert evs[i + 1].Deleted?;
      }
    }
  }

  /** In every reachable state each key either replays its pending events to the real state,
      or is missing from the fake store with the real pod's UID in the evicted cache and only
      updates pending. */
  lemma EveryKeyIsMirroredOrEvicted(run: seq<Step>, s: State, k: Key)
    requires Reaches(Initial(), run, s)
    ensures var evs := Pending(s.queue, k);
            || Replay(Look(s.fake, k), evs) == Look(s.live, k)
            || (&& k !in s.fake && k in s.live && s.live[k].uid in s.evicted && s.evicted[s.live[k].uid] == k
                && forall i :: 0 <= i < |evs| ==> evs[i].Updated?)
  {
    RunKeeps(Initial(), run, s);
    var evs := Pending(s.queue, k);
    assert KeyInv(s, k);
    ReplayFollowsHistory(Look(s.seen, k), evs, Look(s.live, k));
    if k !in s.fake && k in s.seen && !Removes(evs) {
      var u := s.seen[k].uid;
      ArrivedIsNotPending(s.queue, k, u);
      LegalUid(Look(s.seen, k), evs, Look(s.live, k), u);
    }
  }

  /** The state after handing over every queued event. */
  ghost function Drained(s: State): State
    requires s.read.None?
    decreases |s.queue|
  {
    if s.queue == [] then s else Drained(Apply(s, Deliver))
  }

  lemma {:induction false} DrainKeeps(s: State)
    requires Inv(s) && s.read.None?
    ensures Inv(Drained(s)) && Drained(s).queue == []
    ensures Drained(s).live == s.live && Drained(s).evicted == s.evicted && Drained(s).phase == s.phase
    decreases |s.queue|
  {
    if s.queue != [] {
      DeliverKeeps(s);
      DrainKeeps(Apply(s, Deliver));
    }
  }

  lemma NothingPendingAgrees(s: State, k: Key)
    requires KeyInv(s, k) && s.queue == [] && s.evicted == map[]
    ensures Look(s.fake, k) == Look(s.live, k)
  {
  }

  lemma SameStore(a: Store, b: Store)
    requires forall k :: Look(a, k) == Look(b, k)
    ensures a == b
  {
    forall k
      ensures k in a <==> k in b
      ensures k in a ==> a[k] == b[k]
    {
      assert Look(a, k) == Look(b, k);
    }
  }

  lemma {:induction false} ReachesThen(s: State, run: seq<Step>, t: State, step: Step)
    requires Reaches(s, run, t) && Enabled(t, step)
    ensures Reaches(s, run + [step], Apply(t, step))
    decreases run
  {
    if run == [] {
      assert [] + [step] == [step] && [step][1..] == [];
    } else {
      assert (run + [step])[1..] == run[1..] + [step];
      ReachesThen(Apply(s, run[0]), run[1..], t, step);
    }
  }

  /** Whatever happened over any number of cycles: once the cache is reset (or nothing is
      evicted) and the queue has drained, the fake store equals the real one. */
  lemma MirrorConverges(run: seq<Step>, s: State)
    requires Reaches(Initial(), run, s) && s.evicted == map[]
    ensures s.read.None? && Drained(s).fake == s.live
  {
    RunKeeps(Initial(), run, s);
    DrainKeeps(s);
    forall k
      ensures Look(Drained(s).fake, k) == Look(s.live, k)
    {
      NothingPendingAgrees(Drained(s), k);
    }
    SameStore(Drained(s).fake, s.live);
  }

  /** So after every cycle: once it is reset and the queue has drained, the stores are equal. */
  lemma EveryCycleConverges(run: seq<Step>, s: State)
    requires Reaches(Initial(), run, s) && Enabled(s, Reset)
    ensures Drained(Apply(s, Reset)).fake == s.live
  {
    ReachesThen(Initial(), run, s, Reset);
    MirrorConverges(run + [Reset], Apply(s, Reset));
  }

  // ------------------------------------------------------------- evictions within a cycle

  /** The eviction that put `u` into the cache, with no reset since. */
  ghost predicate PutBy(run: seq<Step>, i: nat, k: Key) {
    i < |run| && run[i] == Evict(k) && forall j :: i <= j < |run| ==> run[j] != Reset
  }

  lemma StepEvicts(s: State, step: Step, u: Uid)
    requires Enabled(s, step) && u in Apply(s, step).evicted
    ensures step != Reset
    ensures Look(s.evicted, u) == Look(Apply(s, step).evicted, u) || step == Evict(Apply(s, step).evicted[u])
  {
  }

  lemma PutEarlier(step: Step, rest: seq<Step>, i: nat, k: Key)
    requires PutBy(rest, i, k)
    ensures PutBy([step] + rest, i + 1, k)
  {
  }

  /** Every entry of the cache stems from an eviction of its key since the last reset. */
  lemma {:induction false} EvictedSinceReset(s: State, run: seq<Step>, t: State, u: Uid)
    requires Reaches(s, run, t) && u in t.evicted
    ensures || (Look(s.evicted, u) == Look(t.evicted, u) && Reset !in run)
            || exists i :: PutBy(run, i, t.evicted[u])
    decreases run
  {
    if run != [] {
      var rest, mid := run[1..], Apply(s, run[0]);
      assert run == [run[0]] + rest;
      EvictedSinceReset(mid, rest, t, u);
      if i: nat :| PutBy(rest, i, t.evicted[u]) {
        PutEarlier(run[0], rest, i, t.evicted[u]);
      } else {
        StepEvicts(s, run[0], u);
        if run[0] == Evict(t.evicted[u]) {
          assert PutBy(run, 0, t.evicted[u]);
        }
      }
    }
  }

  ghost predicate NoAddPending(queue: seq<Event>, k: Key) {
    forall i :: 0 <= i < |queue| && queue[i].Added? ==> queue[i].pod.key != k
  }

  predicate NeitherRestoresNorCreates(step: Step, k: Key) {
    step != RestoreAdd && (step.Create? ==> step.pod.key != k)
  }

  lemma StepKeepsGone(s: State, step: Step, k: Key)
    requires Enabled(s, step) && NeitherRestoresNorCreates(step, k) && NoAddPending(s.queue, k)
    ensures NoAddPending(Apply(s, step).queue, k)
    ensures k !in s.fake ==> k !in Apply(s, step).fake
  {
  }

  /** Whatever events of the pod are handed over, a pod missing from the fake store is back only
      after a restore, or once a pod is created anew under its key. */
  lemma {:induction false} EvictedStaysGone(s: State, run: seq<Step>, t: State, k: Key)
    requires Reaches(s, run, t) && k !in s.fake && NoAddPending(s.queue, k)
    requires forall i :: 0 <= i < |run| ==> NeitherRestoresNorCreates(run[i], k)
    ensures k !in t.fake
    decreases run
  {
    if run != [] {
      StepKeepsGone(s, run[0], k);
      EvictedStaysGone(Apply(s, run[0]), run[1..], t, k);
    }
  }

  /** A simulated eviction takes effect, is remembered, and lasts. */
  lemma EvictionTakesEffect(s: State, k: Key, run: seq<Step>, t: State)
    requires Enabled(s, Evict(k)) && Reaches(Apply(s, Evict(k)), run, t) && NoAddPending(s.queue, k)
    requires forall i :: 0 <= i < |run| ==> NeitherRestoresNorCreates(run[i], k)
    ensures k !in t.fake
    ensures k in s.fake ==> Look(Apply(s, Evict(k)).evicted, s.fake[k].uid) == Some(k)
  {
    EvictedStaysGone(Apply(s, Evict(k)), run, t, k);
  }

  // ------------------------------------------------------------- the loop and the steps

  /** Entries of the cache that the restore steps in `run` process. */
  ghost function Processed(evicted: map<Uid, Key>, run: seq<Step>): map<Uid, Key> {
    map u | u in evicted && RestoreRead(u) in run :: evicted[u]
  }

  /** The fake store once the pod read, if any, is added. */
  ghost function Completed(s: State): Store {
    if s.read.Some? then TrackerAdd(s.fake, s.read.value) else s.fake
  }

  lemma RestoreReadAdds(s: State, u: Uid)
    requires Enabled(s, RestoreRead(u)) && u in s.evicted && forall k :: k in s.live ==> s.live[k].key == k
    ensures Completed(Apply(s, RestoreRead(u))) == Restorable(s.live, map[u := s.evicted[u]]) + Completed(s)
  {
    var k := s.evicted[u];
    RestorableGrows(s.live, map[], u, k);
    assert Restorable(s.live, map[]) == map[] && map[][u := k] == map[u := k];
    assert k in s.live && s.live[k].uid == u ==> Restorable(s.live, map[u := k]) == map[k := s.live[k]];
  }

  lemma RestoreAddCompletes(s: State)
    requires Enabled(s, RestoreAdd)
    ensures Completed(Apply(s, RestoreAdd)) == Completed(s)
  {
  }

  lemma ProcessedSkip(evicted: map<Uid, Key>, run: seq<Step>)
    requires run != [] && run[0].RestoreAdd?
    ensures Processed(evicted, run) == Processed(evicted, run[1..])
  {
    assert run == [run[0]] + run[1..];
  }

  lemma PlusAssociates(a: Store, b: Store, c: Store)
    ensures a + (b + c) == (a + b) + c
  {
  }

  lemma ProcessedHead(lister: Store, evicted: map<Uid, Key>, u: Uid, run: seq<Step>)
    requires run != [] && run[0] == RestoreRead(u) && u in evicted
    ensures Restorable(lister, Processed(evicted, run)) ==
            Restorable(lister, Processed(evicted, run[1..])) + Restorable(lister, map[u := evicted[u]])
  {
    assert run == [run[0]] + run[1..];
    assert Processed(evicted, run) == Processed(evicted, run[1..])[u := evicted[u]];
  }

  lemma ProcessedJoins(lister: Store, evicted: map<Uid, Key>, u: Uid, run: seq<Step>, x: Store, y: Store, z: Store)
    requires run != [] && run[0] == RestoreRead(u) && u in evicted
    requires y == Restorable(lister, map[u := evicted[u]]) + x
    requires z == Restorable(lister, Processed(evicted, run[1..])) + y
    ensures z == Restorable(lister, Processed(evicted, run)) + x
  {
    ProcessedHead(lister, evicted, u, run);
    PlusAssociates(Restorable(lister, Processed(evicted, run[1..])), Restorable(lister, map[u := evicted[u]]), x);
  }

  lemma RestoreStepFrame(s: State, step: Step)
    requires Enabled(s, step) && (step.RestoreRead? || step.RestoreAdd?)
    ensures var t := Apply(s, step);
            t.live == s.live && t.evicted == s.evicted && t.phase.Restoring? && t.phase.todo <= s.phase.todo
  {
  }

  /** The restore steps, when nothing comes between them, do what the restore loop does. */
  lemma {:induction false} RestoreStepsMatchLoop(s: State, run: seq<Step>, t: State)
    requires Reaches(s, run, t) && forall i :: 0 <= i < |run| ==> run[i].RestoreRead? || run[i].RestoreAdd?
    requires s.phase.Restoring? && s.phase.todo <= s.evicted.Keys && forall k :: k in s.live ==> s.live[k].key == k
    ensures Completed(t) == Restorable(s.live, Processed(s.evicted, run)) + Completed(s)
    decreases run
  {
    if run == [] {
      assert Processed(s.evicted, run) == map[];
      assert Restorable(s.live, map[]) == map[];
    } else if run[0].RestoreAdd? {
      RestoreAddCompletes(s);
      RestoreStepFrame(s, RestoreAdd);
      RestoreStepsMatchLoop(Apply(s, RestoreAdd), run[1..], t);
      ProcessedSkip(s.evicted, run);
    } else {
      var u := run[0].uid;
      RestoreReadAdds(s, u);
      RestoreStepFrame(s, run[0]);
      RestoreStepsMatchLoop(Apply(s, run[0]), run[1..], t);
      ProcessedJoins(s.live, s.evicted, u, run, Completed(s), Completed(Apply(s, run[0])), Completed(t));
    }
  }

  /** The one pod of the cluster has been evicted and its restore has read it. */
  ghost function PodRead(p: Pod): State {
    State(map[p.key := p], [], map[], map[p.uid := p.key], Restoring({p.uid}), Some(p),
          map[p.key := p], {p.uid}, map[p.uid := p.key])
  }

  lemma PodReadIsReachable(p: Pod) returns (run: seq<Step>)
    ensures Reaches(Initial(), run, PodRead(p))
  {
    var s0 := Initial();
    assert Reaches(s0, [], s0);
    ReachesThen(s0, [], s0, Create(p));
    var s1 := Apply(s0, Create(p));
    run := [] + [Create(p)];
    assert s1.queue == [Added(p)] && s1.queue[1..] == [];
    ReachesThen(s0, run, s1, Deliver);
    var s2 := Apply(s1, Deliver);
    run := run + [Deliver];
    ReachesThen(s0, run, s2, Evict(p.key));
    var s3 := Apply(s2, Evict(p.key));
    run := run + [Evict(p.key)];
    ReachesThen(s0, run, s3, BeginRestore);
    var s4 := Apply(s3, BeginRestore);
    run := run + [BeginRestore];
    assert s4.evicted == map[p.uid := p.key] && s4.phase == Restoring({p.uid}) && s4.fake == map[];
    ReachesThen(s0, run, s4, RestoreRead(p.uid));
    run := run + [RestoreRead(p.uid)];
    assert Apply(s4, RestoreRead(p.uid)) == PodRead(p);
  }

  /** Handing over `e` before the pod read is added ends out of step with the real store and
      with nothing left to repair it; adding first does not. */
  ghost predicate OrderMatters(s: State, p: Pod, e: Event) {
    && s.read == Some(p) && s.queue == [e]
    && Handle(TrackerAdd(s.fake, p), e) == s.live
    && TrackerAdd(Handle(s.fake, e), p) != s.live
  }

  /** Why no event of a pod may be handed over between the read and the add. If the pod is
      deleted in between, the restore brings it back for good; */
  lemma DeleteInBetweenDiverges(p: Pod)
    ensures exists run, s :: Reaches(Initial(), run, s) && OrderMatters(s, p, Deleted(p))
  {
    var run := PodReadIsReachable(p);
    var s := Apply(PodRead(p), Remove(p.key));
    ReachesThen(Initial(), run, PodRead(p), Remove(p.key));
    assert s.live == map[] && s.queue == [Deleted(p)];
    assert OrderMatters(s, p, Deleted(p));
  }

  /** if it is updated, the restore brings back the version before the update. */
  lemma UpdateInBetweenDiverges(p: Pod, q: Pod)
    requires q.key == p.key && q.uid == p.uid && q != p
    ensures exists run, s :: Reaches(Initial(), run, s) && OrderMatters(s, p, Updated(q))
  {
    var run := PodReadIsReachable(p);
    var s := Apply(PodRead(p), Modify(q));
    ReachesThen(Initial(), run, PodRead(p), Modify(q));
    assert s.live == map[p.key := q] && s.queue == [Updated(q)];
    assert s.live[p.key] != TrackerAdd(Handle(s.fake, Updated(q)), p)[p.key];
    assert OrderMatters(s, p, Updated(q));
  }
}
