/** Comparing toleration lists in canonical form, and what equality means for taints. */
module Tolerations {
  import opened Common
  import opened Sorting

  datatype Toleration = Toleration(key: string, operator: string, value: string, effect: string, seconds: Option<int>)

  datatype Taint = Taint(key: string, value: string, effect: string)

  /** The part of a toleration that matching compares. */
  datatype Core = Core(key: string, value: string, effect: string, operator: string)

  function CoreOf(t: Toleration): Core {
    Core(t.key, t.value, t.effect, t.operator)
  }

  function Cores(s: seq<Toleration>): (c: seq<Core>)
    ensures |c| == |s| && forall k :: 0 <= k < |s| ==> c[k] == CoreOf(s[k])
  {
    seq(|s|, k requires 0 <= k < |s| => CoreOf(s[k]))
  }

  predicate MatchToleration(a: Toleration, b: Toleration) {
    a.key == b.key && a.effect == b.effect && a.operator == b.operator && a.value == b.value
  }

  /** The comparator: by key, value, effect, operator. */
  predicate CoreBefore(a: Core, b: Core) {
    if StringLess(a.key, b.key) then true
    else if StringLess(b.key, a.key) then false
    else if StringLess(a.value, b.value) then true
    else if StringLess(b.value, a.value) then false
    else if StringLess(a.effect, b.effect) then true
    else if StringLess(b.effect, a.effect) then false
    else StringLess(a.operator, b.operator)
  }

  lemma CoreAntisymmetric(a: Core, b: Core)
    ensures Leq(CoreBefore, a, b) && Leq(CoreBefore, b, a) ==> a == b
  {
    StringTotal(a.key, b.key);
    StringTotal(a.value, b.value);
    StringTotal(a.effect, b.effect);
    StringTotal(a.operator, b.operator);
  }

  lemma StringChain(a: string, b: string, c: string)
    ensures !StringLess(b, a) && !StringLess(c, b) ==> !StringLess(c, a)
    ensures !StringLess(b, a) && !StringLess(c, b) && a == c ==> a == b
  {
    StringTotal(a, b);
    StringTotal(b, c);
    StringTotal(a, c);
    StringTransitive(c, b, a);
    StringTransitive(a, b, c);
  }

  lemma CoreTransitive(a: Core, b: Core, c: Core)
    requires Leq(CoreBefore, a, b) && Leq(CoreBefore, b, c)
    ensures Leq(CoreBefore, a, c)
  {
    StringTotal(a.key, b.key); StringTotal(b.key, c.key); StringTotal(a.key, c.key); StringChain(a.key, b.key, c.key);
    StringTotal(a.value, b.value); StringTotal(b.value, c.value); StringTotal(a.value, c.value);
    StringChain(a.value, b.value, c.value);
    StringTotal(a.effect, b.effect); StringTotal(b.effect, c.effect); StringTotal(a.effect, c.effect);
    StringChain(a.effect, b.effect, c.effect);
    StringTotal(a.operator, b.operator); StringTotal(b.operator, c.operator); StringTotal(a.operator, c.operator);
    StringChain(a.operator, b.operator, c.operator);
  }

  lemma CoreOrders()
    ensures Orders(CoreBefore)
  {
    forall a, b
      ensures Leq(CoreBefore, a, b) && Leq(CoreBefore, b, a) ==> a == b
    {
      CoreAntisymmetric(a, b);
    }
    forall a, b, c | Leq(CoreBefore, a, b) && Leq(CoreBefore, b, c)
      ensures Leq(CoreBefore, a, c)
    {
      CoreTransitive(a, b, c);
    }
  }

  // ------------------------------------------------------------- comparing lists

  lemma CoresAppend(s: seq<Toleration>, t: Toleration)
    ensures Cores(s + [t]) == Cores(s) + [CoreOf(t)]
  {
  }

  /** `unique` holds the tuples of `done` without neighbouring repeats. */
  ghost predicate UniqueOf(unique: seq<Toleration>, done: seq<Toleration>) {
    Cores(unique) == Dedup(Cores(done))
  }

  lemma UniqueStep(unique: seq<Toleration>, done: seq<Toleration>, t: Toleration)
    requires unique != [] && UniqueOf(unique, done)
    ensures if MatchToleration(t, unique[|unique| - 1]) then UniqueOf(unique, done + [t]) else UniqueOf(unique + [t], done + [t])
  {
    CoresAppend(done, t);
    CoresAppend(unique, t);
    DedupAppend(Cores(done), CoreOf(t));
    assert Cores(unique)[|unique| - 1] == CoreOf(unique[|unique| - 1]);
  }

  /** The loop of `uniqueSortTolerations`, on the sorted copy. */
  method UniqueTolerations(sorted: seq<Toleration>) returns (unique: seq<Toleration>)
    ensures UniqueOf(unique, sorted)
  {
    if |sorted| < 2 {
      return sorted;
    }
    unique := [sorted[0]];
    ghost var done := unique;
    for k := 1 to |sorted|
      invariant unique != [] && done == sorted[..k] && UniqueOf(unique, done)
    {
      UniqueStep(unique, done, sorted[k]);
      if !MatchToleration(sorted[k], unique[|unique| - 1]) {
        unique := unique + [sorted[k]];
      }
      done := done + [sorted[k]];
    }
    assert done == sorted;
  }

  /** A sorted copy of a toleration list; tolerations that differ only in their seconds may
      come in any order. */
  ghost predicate SortedTolerations(t: seq<Toleration>, sorted: seq<Toleration>) {
    multiset(sorted) == multiset(t) && Ascending(Cores(sorted), CoreBefore)
  }

  lemma SameCores(t: seq<Toleration>, s: seq<Toleration>)
    requires multiset(t) == multiset(s)
    ensures Members(Cores(t)) == Members(Cores(s))
  {
    SameMultisetSameMembers(t, s);
    assert forall x :: x in t <==> x in Members(t);
    assert forall x :: x in s <==> x in Members(s);
    forall c
      ensures c in Cores(t) <==> c in Cores(s)
    {
      CoreIn(t, c);
      CoreIn(s, c);
    }
  }

  lemma CoreIn(t: seq<Toleration>, c: Core)
    ensures c in Cores(t) <==> exists x :: x in t && CoreOf(x) == c
  {
    if c in Cores(t) {
      var k :| 0 <= k < |t| && Cores(t)[k] == c;
      assert t[k] in t;
    }
    if x :| x in t && CoreOf(x) == c {
      var k :| 0 <= k < |t| && t[k] == x;
      assert Cores(t)[k] == c;
    }
  }

  lemma CanonicalCores(t1: seq<Toleration>, t2: seq<Toleration>, s1: seq<Toleration>, s2: seq<Toleration>)
    requires SortedTolerations(t1, s1) && SortedTolerations(t2, s2)
    ensures Dedup(Cores(s1)) == Dedup(Cores(s2)) <==> Members(Cores(t1)) == Members(Cores(t2))
  {
    CoreOrders();
    SameCores(t1, s1);
    SameCores(t2, s2);
    CanonicalIsSet(Cores(s1), Cores(s2), CoreBefore);
  }

  predicate TolerationBefore(a: Toleration, b: Toleration) {
    CoreBefore(CoreOf(a), CoreOf(b))
  }

  /** Such a copy exists. */
  lemma SortedTolerationsExist(t: seq<Toleration>)
    ensures SortedTolerations(t, Sort(t, TolerationBefore))
  {
    forall a, b, c: Toleration | Leq(TolerationBefore, a, b) && Leq(TolerationBefore, b, c)
      ensures Leq(TolerationBefore, a, c)
    {
      CoreTransitive(CoreOf(a), CoreOf(b), CoreOf(c));
    }
    SortSorts(t, TolerationBefore);
    var s := Sort(t, TolerationBefore);
    forall k, l | 0 <= k < l < |s|
      ensures Leq(CoreBefore, Cores(s)[k], Cores(s)[l])
    {
      assert Leq(TolerationBefore, s[k], s[l]);
    }
  }

  method MatchPairwise(u1: seq<Toleration>, u2: seq<Toleration>) returns (equal: bool)
    ensures equal <==> Cores(u1) == Cores(u2)
  {
    if |u1| != |u2| {
      assert |Cores(u1)| != |Cores(u2)|;
      return false;
    }
    for i := 0 to |u1|
      invariant forall k :: 0 <= k < i ==> CoreOf(u1[k]) == CoreOf(u2[k])
    {
      if !MatchToleration(u1[i], u2[i]) {
        assert Cores(u1)[i] != Cores(u2)[i];
        return false;
      }
    }
    return true;
  }

  /** `TolerationsEqual`, for whatever sorted copies `s1` and `s2` the sort returns: true
      exactly when the lists have the same (key, value, effect, operator) tuples. */
  method TolerationsEqual(t1: seq<Toleration>, t2: seq<Toleration>, s1: seq<Toleration>, s2: seq<Toleration>)
    returns (equal: bool)
    requires SortedTolerations(t1, s1) && SortedTolerations(t2, s2)
    ensures equal <==> Members(Cores(t1)) == Members(Cores(t2))
  {
    CanonicalCores(t1, t2, s1, s2);
    var u1 := UniqueTolerations(s1);
    var u2 := UniqueTolerations(s2);
    equal := MatchPairwise(u1, u2);
  }

  // ------------------------------------------------------------- taints

  /** `ToleratesTaint`; `number` reads a decimal integer. */
  predicate Tolerates(c: Core, t: Taint, number: string -> Option<int>) {
    && (c.effect == "" || c.effect == t.effect)
    && (c.key == "" || c.key == t.key)
    && (if c.operator == "" || c.operator == "Equal" then c.value == t.value
        else if c.operator == "Exists" then true
        else if c.operator == "Lt" || c.operator == "Gt" then
          && number(c.value).Some? && number(t.value).Some?
          && (if c.operator == "Lt" then number(t.value).value < number(c.value).value
              else number(t.value).value > number(c.value).value)
        else false)
  }

  /** A toleration speaks only of its own effect and key, if it names any. Within these Exists
      tolerates every value, Equal (or no operator) its own value only, and of Lt and Gt exactly one
      a taint with another number, neither one with the same or with none. */
  lemma ToleratesByOperator(c: Core, t: Taint, number: string -> Option<int>)
    ensures Tolerates(c, t, number) ==> c.effect in {"", t.effect} && c.key in {"", t.key}
    ensures c.effect in {"", t.effect} && c.key in {"", t.key} ==>
              && Tolerates(c.(operator := "Exists"), t, number)
              && (Tolerates(c.(operator := "Equal"), t, number) <==> c.value == t.value)
              && Tolerates(c.(operator := ""), t, number) == Tolerates(c.(operator := "Equal"), t, number)
              && (number(c.value).Some? && number(t.value).Some? ==>
                    && (Tolerates(c.(operator := "Lt"), t, number) <==> number(c.value).value > number(t.value).value)
                    && (Tolerates(c.(operator := "Gt"), t, number) <==> number(c.value).value < number(t.value).value))
    ensures Tolerates(c, t, number) && (c.operator == "Lt" || c.operator == "Gt") ==>
              number(c.value).Some? && number(t.value).Some?
    ensures Tolerates(c, t, number) ==> c.operator in {"", "Equal", "Exists", "Lt", "Gt"}
  {
  }

  method TolerateTaint(ts: seq<Toleration>, taint: Taint, number: string -> Option<int>) returns (ok: bool)
    ensures ok <==> exists c :: c in Members(Cores(ts)) && Tolerates(c, taint, number)
  {
    for i := 0 to |ts|
      invariant forall k :: 0 <= k < i ==> !Tolerates(CoreOf(ts[k]), taint, number)
    {
      if Tolerates(CoreOf(ts[i]), taint, number) {
        assert Cores(ts)[i] in Members(Cores(ts));
        return true;
      }
    }
    forall c | c in Members(Cores(ts))
      ensures !Tolerates(c, taint, number)
    {
      var k :| 0 <= k < |ts| && Cores(ts)[k] == c;
    }
    return false;
  }

  /** All the taints that count are tolerated. */
  ghost predicate TolerateAll(cores: set<Core>, taints: seq<Taint>, applies: Taint -> bool, number: string -> Option<int>) {
    forall i :: 0 <= i < |taints| && applies(taints[i]) ==> exists c :: c in cores && Tolerates(c, taints[i], number)
  }

  /** `TolerationsTolerateTaintsWithFilter`: the verdict depends on the tuples alone. */
  method TolerateTaintsWithFilter(ts: seq<Toleration>, taints: seq<Taint>, applies: Taint -> bool, number: string -> Option<int>)
    returns (ok: bool)
    ensures ok <==> TolerateAll(Members(Cores(ts)), taints, applies, number)
  {
    for i := 0 to |taints|
      invariant forall k :: 0 <= k < i && applies(taints[k]) ==>
                  exists c :: c in Members(Cores(ts)) && Tolerates(c, taints[k], number)
    {
      if !applies(taints[i]) {
        continue;
      }
      var tolerated := TolerateTaint(ts, taints[i], number);
      if !tolerated {
        return false;
      }
    }
    return true;
  }
}
