/** The quality-of-service class of a pod, computed from sums over its containers. */
module Qos {
  import opened Common

  datatype Resource = Cpu | Memory | Other(name: string)

  /** Requests and limits in the resource's base unit; a resource may be absent. */
  datatype Container = Container(requests: map<Resource, int>, limits: map<Resource, int>)

  datatype Class = Guaranteed | Burstable | BestEffort

  predicate Supported(r: Resource) {
    r.Cpu? || r.Memory?
  }

  /** A quantity as far as it counts: absent, zero and negative ones do not. */
  function Part(m: map<Resource, int>, r: Resource): nat {
    if r in m && m[r] > 0 then m[r] else 0
  }

  function RequestSum(cs: seq<Container>, r: Resource): nat {
    if cs == [] then 0 else RequestSum(cs[..|cs| - 1], r) + Part(cs[|cs| - 1].requests, r)
  }

  function LimitSum(cs: seq<Container>, r: Resource): nat {
    if cs == [] then 0 else LimitSum(cs[..|cs| - 1], r) + Part(cs[|cs| - 1].limits, r)
  }

  ghost predicate Limited(c: Container) {
    Part(c.limits, Cpu) > 0 && Part(c.limits, Memory) > 0
  }

  /** The map holds exactly the positive sums of the two resources. */
  ghost predicate Tracks(m: map<Resource, nat>, cpu: nat, memory: nat) {
    && m.Keys == (if cpu > 0 then {Cpu} else {}) + (if memory > 0 then {Memory} else {})
    && (cpu > 0 ==> m[Cpu] == cpu)
    && (memory > 0 ==> m[Memory] == memory)
  }

  /** What of a list counts while the resources in `todo` are still to come. */
  ghost function Done(list: map<Resource, int>, todo: set<Resource>, r: Resource): nat {
    if r in todo then 0 else Part(list, r)
  }

  /** One container's list added to the running map, resource by resource; `found` are the
      supported resources with a positive quantity. */
  method AddList(m: map<Resource, nat>, list: map<Resource, int>, ghost cpu: nat, ghost memory: nat)
    returns (result: map<Resource, nat>, found: set<Resource>)
    requires Tracks(m, cpu, memory)
    ensures Tracks(result, cpu + Part(list, Cpu), memory + Part(list, Memory))
    ensures forall r :: r in found <==> Supported(r) && Part(list, r) > 0
  {
    result, found := m, {};
    var todo := list.Keys;
    while todo != {}
      invariant todo <= list.Keys
      invariant Tracks(result, cpu + Done(list, todo, Cpu), memory + Done(list, todo, Memory))
      invariant forall r :: r in found <==> Supported(r) && Done(list, todo, r) > 0
      decreases todo
    {
      var r :| r in todo;
      if Supported(r) && list[r] > 0 {
        result := result[r := (if r in result then result[r] else 0) + list[r]];
        found := found + {r};
      }
      todo := todo - {r};
    }
  }

  ghost predicate SameSums(all: seq<Container>) {
    RequestSum(all, Cpu) == LimitSum(all, Cpu) && RequestSum(all, Memory) == LimitSum(all, Memory)
  }

  ghost predicate NothingAsked(all: seq<Container>) {
    RequestSum(all, Cpu) == LimitSum(all, Cpu) == RequestSum(all, Memory) == LimitSum(all, Memory) == 0
  }

  lemma {:induction false} LimitedSums(all: seq<Container>)
    requires all != [] && forall c :: c in all ==> Limited(c)
    ensures LimitSum(all, Cpu) > 0 && LimitSum(all, Memory) > 0
  {
    assert Limited(all[|all| - 1]);
  }

  lemma SumsAppend(cs: seq<Container>, c: Container, r: Resource)
    ensures RequestSum(cs + [c], r) == RequestSum(cs, r) + Part(c.requests, r)
    ensures LimitSum(cs + [c], r) == LimitSum(cs, r) + Part(c.limits, r)
  {
    assert (cs + [c])[..|cs|] == cs;
  }

  ghost predicate Sums(requests: map<Resource, nat>, limits: map<Resource, nat>, cs: seq<Container>) {
    && Tracks(requests, RequestSum(cs, Cpu), RequestSum(cs, Memory))
    && Tracks(limits, LimitSum(cs, Cpu), LimitSum(cs, Memory))
  }

  /** One container added to the sums; `limited` says whether it has both limits. */
  method AddContainer(requests: map<Resource, nat>, limits: map<Resource, nat>, c: Container, ghost done: seq<Container>)
    returns (newRequests: map<Resource, nat>, newLimits: map<Resource, nat>, limited: bool)
    requires Sums(requests, limits, done)
    ensures Sums(newRequests, newLimits, done + [c]) && (limited <==> Limited(c))
  {
    SumsAppend(done, c, Cpu);
    SumsAppend(done, c, Memory);
    var ignored, limitsFound;
    newRequests, ignored := AddList(requests, c.requests, RequestSum(done, Cpu), RequestSum(done, Memory));
    newLimits, limitsFound := AddList(limits, c.limits, LimitSum(done, Cpu), LimitSum(done, Memory));
    limited := Cpu in limitsFound && Memory in limitsFound;
  }

  /** The loop over the containers: the sums, and whether every one has both limits. */
  method SumUp(all: seq<Container>)
    returns (requests: map<Resource, nat>, limits: map<Resource, nat>, limited: bool)
    ensures Sums(requests, limits, all)
    ensures limited <==> forall c :: c in all ==> Limited(c)
  {
    requests, limits, limited := map[], map[], true;
    for k := 0 to |all|
      invariant Sums(requests, limits, all[..k])
      invariant limited <==> forall l :: 0 <= l < k ==> Limited(all[l])
    {
      assert all[..k + 1] == all[..k] + [all[k]];
      var both;
      requests, limits, both := AddContainer(requests, limits, all[k], all[..k]);
      if !both {
        limited := false;
      }
    }
    assert all[..|all|] == all;
  }

  /** `GetPodQOS`; `all` are the containers followed by the init containers. */
  method GetPodQOS(preset: Option<Class>, all: seq<Container>) returns (qos: Class)
    ensures preset.Some? ==> qos == preset.value
    ensures preset.None? ==> (qos == BestEffort <==> NothingAsked(all))
    ensures preset.None? ==> (qos == Guaranteed <==> all != [] && (forall c :: c in all ==> Limited(c)) && SameSums(all))
  {
    if preset.Some? {
      return preset.value;
    }
    var requests, limits, isGuaranteed := SumUp(all);
    assert |requests| == |requests.Keys| && |limits| == |limits.Keys|;
    if |requests| == 0 && |limits| == 0 {
      if all != [] && isGuaranteed { LimitedSums(all); }
      return BestEffort;
    }
    if isGuaranteed {
      if all != [] { LimitedSums(all); }
      isGuaranteed := forall r :: r in requests ==> r in limits && limits[r] == requests[r];
    }
    if isGuaranteed && |requests| == |limits| {
      return Guaranteed;
    }
    return Burstable;
  }

  // ------------------------------------------------- sums against single containers

  /** Requests and limits of one container agree. */
  ghost predicate Matched(c: Container) {
    Part(c.requests, Cpu) == Part(c.limits, Cpu) && Part(c.requests, Memory) == Part(c.limits, Memory)
  }

  /** No container asks for more than its own limit. */
  ghost predicate RequestsBelowLimits(cs: seq<Container>) {
    forall c :: c in cs ==>
      && (Part(c.limits, Cpu) > 0 ==> Part(c.requests, Cpu) <= Part(c.limits, Cpu))
      && (Part(c.limits, Memory) > 0 ==> Part(c.requests, Memory) <= Part(c.limits, Memory))
  }

  lemma {:induction false} SumsBelow(cs: seq<Container>, r: Resource)
    requires forall c :: c in cs ==> Part(c.requests, r) <= Part(c.limits, r)
    ensures RequestSum(cs, r) <= LimitSum(cs, r)
    ensures RequestSum(cs, r) == LimitSum(cs, r) <==> forall c :: c in cs ==> Part(c.requests, r) == Part(c.limits, r)
    decreases |cs|
  {
    if cs != [] {
      var front, last := cs[..|cs| - 1], cs[|cs| - 1];
      assert cs == front + [last] && last in cs;
      SumsBelow(front, r);
    }
  }

  /** For pods whose containers stay below their limits the test on sums is the test on every
      container: positive cpu and memory limits, equal to the requests. */
  lemma SumsDecideContainerwise(all: seq<Container>)
    requires RequestsBelowLimits(all) && forall c :: c in all ==> Limited(c)
    ensures SameSums(all) <==> forall c :: c in all ==> Matched(c)
  {
    forall c | c in all
      ensures Part(c.requests, Cpu) <= Part(c.limits, Cpu) && Part(c.requests, Memory) <= Part(c.limits, Memory)
    {
      assert Limited(c);
    }
    SumsBelow(all, Cpu);
    SumsBelow(all, Memory);
  }

  /** Without that, sums can match where containers do not: one over its limit hides one below. */
  lemma SumsCanHideMismatch()
    ensures exists a, b :: Limited(a) && Limited(b) && !Matched(a) && !Matched(b) && SameSums([a, b])
  {
    var a := Container(map[Cpu := 3, Memory := 1], map[Cpu := 1, Memory := 1]);
    var b := Container(map[Cpu := 1, Memory := 1], map[Cpu := 3, Memory := 1]);
    assert [] + [a] == [a] && [a] + [b] == [a, b];
    SumsAppend([], a, Cpu);
    SumsAppend([], a, Memory);
    SumsAppend([a], b, Cpu);
    SumsAppend([a], b, Memory);
    assert Limited(a) && Limited(b) && !Matched(a) && !Matched(b) && SameSums([a, b]);
  }

  /** The pod's class, container by container. */
  method ClassifyPod(preset: Option<Class>, containers: seq<Container>, initContainers: seq<Container>) returns (qos: Class)
    requires RequestsBelowLimits(containers + initContainers)
    ensures preset.None? ==>
              (qos == Guaranteed <==> && containers + initContainers != []
                                      && forall c :: c in containers + initContainers ==> Limited(c) && Matched(c))
  {
    qos := GetPodQOS(preset, containers + initContainers);
    if forall c :: c in containers + initContainers ==> Limited(c) {
      SumsDecideContainerwise(containers + initContainers);
    }
  }
}
