/** Sorting by a comparator, dropping neighbouring duplicates, and why the result depends
    only on the set of elements. */
module Sorting {

  /** Under the comparator `before`, `a` may stand ahead of `b`. Comparators may be strict, or
      say true for equal elements. */
  ghost predicate Leq<T>(before: (T, T) -> bool, a: T, b: T) {
    before(a, b) || !before(b, a)
  }

  ghost predicate Transitive<T(!new)>(before: (T, T) -> bool) {
    forall a, b, c :: Leq(before, a, b) && Leq(before, b, c) ==> Leq(before, a, c)
  }

  /** The comparator orders totally: order is transitive, and equal standing means equal. */
  ghost predicate Orders<T(!new)>(before: (T, T) -> bool) {
    Transitive(before) && forall a, b :: Leq(before, a, b) && Leq(before, b, a) ==> a == b
  }

  ghost predicate Ascending<T>(s: seq<T>, before: (T, T) -> bool) {
    forall k, l :: 0 <= k < l < |s| ==> Leq(before, s[k], s[l])
  }

  /** A sorted copy, as any sort meeting the comparator may return it. */
  ghost predicate SortedCopy<T>(s: seq<T>, sorted: seq<T>, before: (T, T) -> bool) {
    multiset(sorted) == multiset(s) && Ascending(sorted, before)
  }

  // ------------------------------------------------------------- a sort exists

  function Insert<T>(x: T, s: seq<T>, before: (T, T) -> bool): seq<T> {
    if s == [] then [x]
    else if before(s[0], x) then [s[0]] + Insert(x, s[1..], before)
    else [x] + s
  }

  function Sort<T>(s: seq<T>, before: (T, T) -> bool): seq<T> {
    if s == [] then [] else Insert(s[0], Sort(s[1..], before), before)
  }

  lemma {:induction false} InsertSorted<T(!new)>(x: T, s: seq<T>, before: (T, T) -> bool)
    requires Transitive(before) && Ascending(s, before)
    ensures multiset(Insert(x, s, before)) == multiset(s) + multiset{x}
    ensures Ascending(Insert(x, s, before), before)
  {
    var t := Insert(x, s, before);
    if s != [] {
      assert s == [s[0]] + s[1..];
      if before(s[0], x) {
        var rest := Insert(x, s[1..], before);
        InsertSorted(x, s[1..], before);
        forall l | 0 <= l < |rest|
          ensures Leq(before, s[0], rest[l])
        {
          assert rest[l] in multiset(rest);
          assert rest[l] in s[1..] || rest[l] == x;
        }
      } else {
        forall l | 0 <= l < |s|
          ensures Leq(before, x, s[l])
        {
          assert Leq(before, x, s[0]);
          assert l > 0 ==> Leq(before, s[0], s[l]);
        }
      }
    }
  }

  lemma {:induction false} SortSorts<T(!new)>(s: seq<T>, before: (T, T) -> bool)
    requires Transitive(before)
    ensures SortedCopy(s, Sort(s, before), before)
  {
    if s != [] {
      assert s == [s[0]] + s[1..];
      SortSorts(s[1..], before);
      InsertSorted(s[0], Sort(s[1..], before), before);
    }
  }

  lemma SortOne<T>(x: T, before: (T, T) -> bool)
    ensures Sort([x], before) == [x]
  {
    assert [x][1..] == [];
    assert Sort([x][1..], before) == [];
  }

  // ------------------------------------------------------------- deduplication

  /** Drops every element equal to the last one kept. */
  function Dedup<T(==)>(s: seq<T>): (d: seq<T>)
    ensures s != [] ==> d != [] && d[|d| - 1] == s[|s| - 1]
  {
    if |s| <= 1 then s
    else
      var d := Dedup(s[..|s| - 1]);
      if s[|s| - 1] == d[|d| - 1] then d else d + [s[|s| - 1]]
  }

  lemma DedupAppend<T>(s: seq<T>, x: T)
    requires s != []
    ensures Dedup(s + [x]) == if x == Dedup(s)[|Dedup(s)| - 1] then Dedup(s) else Dedup(s) + [x]
  {
    assert (s + [x])[..|s|] == s;
  }

  function Members<T>(s: seq<T>): set<T> {
    set x | x in s
  }

  lemma MembersAppend<T>(s: seq<T>, x: T)
    ensures Members(s + [x]) == Members(s) + {x}
  {
    forall y
      ensures y in s + [x] <==> y in s || y == x
    {
      assert y in s + [x] <==> y in multiset(s + [x]);
      assert y in s <==> y in multiset(s);
    }
  }

  lemma {:induction false} DedupMembers<T>(s: seq<T>)
    ensures Members(Dedup(s)) == Members(s)
    decreases |s|
  {
    if |s| > 1 {
      var front, last := s[..|s| - 1], s[|s| - 1];
      assert s == front + [last];
      DedupMembers(front);
      MembersAppend(front, last);
      MembersAppend(Dedup(front), last);
      assert Dedup(front)[|Dedup(front)| - 1] in Members(Dedup(front));
    }
  }

  ghost predicate Climbs<T>(s: seq<T>, before: (T, T) -> bool) {
    forall k, l :: 0 <= k < l < |s| ==> Leq(before, s[k], s[l]) && s[k] != s[l]
  }

  lemma {:induction false} DedupClimbs<T(!new)>(s: seq<T>, before: (T, T) -> bool)
    requires Orders(before) && Ascending(s, before)
    ensures Climbs(Dedup(s), before)
    decreases |s|
  {
    if |s| > 1 {
      var front, last := s[..|s| - 1], s[|s| - 1];
      DedupClimbs(front, before);
      var d := Dedup(front);
      var top := d[|d| - 1];
      assert top == s[|s| - 2] && Leq(before, top, last);
      if last != top {
        forall k | 0 <= k < |d|
          ensures Leq(before, d[k], last) && d[k] != last
        {
          if k < |d| - 1 {
            assert Leq(before, d[k], top);
          }
        }
      }
    }
  }

  lemma FirstIsLeast<T>(a: seq<T>, x: T, before: (T, T) -> bool)
    requires Climbs(a, before) && x in a
    ensures Leq(before, a[0], x)
  {
  }

  /** A climbing sequence is determined by its elements. */
  lemma {:induction false} ClimbingIsUnique<T(!new)>(a: seq<T>, b: seq<T>, before: (T, T) -> bool)
    requires Orders(before) && Climbs(a, before) && Climbs(b, before) && Members(a) == Members(b)
    ensures a == b
    decreases |a|
  {
    assert forall x :: x in a <==> x in Members(a);
    assert forall x :: x in b <==> x in Members(b);
    if a == [] {
      NoMembers(b);
    } else {
      assert a[0] in b;
      FirstIsLeast(a, b[0], before);
      FirstIsLeast(b, a[0], before);
      assert a[0] == b[0];
      TailMembers(a);
      TailMembers(b);
      ClimbingIsUnique(a[1..], b[1..], before);
      assert a == [a[0]] + a[1..] && b == [b[0]] + b[1..];
    }
  }

  lemma NoMembers<T>(a: seq<T>)
    ensures Members(a) == {} <==> a == []
  {
    assert a != [] ==> a[0] in Members(a);
  }

  lemma TailMembers<T>(a: seq<T>)
    requires a != [] && forall k :: 0 < k < |a| ==> a[k] != a[0]
    ensures Members(a[1..]) == Members(a) - {a[0]}
  {
    assert a == [a[0]] + a[1..];
  }

  lemma SameMultisetSameMembers<T>(a: seq<T>, b: seq<T>)
    requires multiset(a) == multiset(b)
    ensures Members(a) == Members(b)
  {
    forall x
      ensures x in a <==> x in b
    {
      assert x in a <==> x in multiset(a);
      assert x in b <==> x in multiset(b);
    }
  }

  /** Sorting (by any sort) and deduplicating two lists gives the same result exactly when they
      have the same elements. */
  lemma CanonicalIsSet<T(!new)>(s: seq<T>, t: seq<T>, before: (T, T) -> bool)
    requires Orders(before) && Ascending(s, before) && Ascending(t, before)
    ensures Dedup(s) == Dedup(t) <==> Members(s) == Members(t)
  {
    DedupMembers(s);
    DedupMembers(t);
    DedupClimbs(s, before);
    DedupClimbs(t, before);
    if Members(s) == Members(t) {
      ClimbingIsUnique(Dedup(s), Dedup(t), before);
    }
  }

  /** The loop that drops neighbouring duplicates. */
  method Unique<T(==)>(s: seq<T>) returns (unique: seq<T>)
    ensures unique == Dedup(s)
  {
    if |s| < 2 {
      return s;
    }
    unique := [s[0]];
    assert s[..1] == [s[0]];
    for k := 1 to |s|
      invariant unique == Dedup(s[..k])
    {
      assert s[..k + 1] == s[..k] + [s[k]];
      DedupAppend(s[..k], s[k]);
      if s[k] != unique[|unique| - 1] {
        unique := unique + [s[k]];
      }
    }
    assert s[..|s|] == s;
  }

  // ------------------------------------------------------------- strings

  /** The order of strings: by the first difference, a proper prefix first. */
  predicate StringLess(a: string, b: string) {
    b != [] && (a == [] || a[0] < b[0] || (a[0] == b[0] && StringLess(a[1..], b[1..])))
  }

  lemma {:induction false} StringTotal(a: string, b: string)
    ensures StringLess(a, b) ==> a != b && !StringLess(b, a)
    ensures !StringLess(a, b) && !StringLess(b, a) ==> a == b
  {
    if a != [] && b != [] {
      StringTotal(a[1..], b[1..]);
      assert a == [a[0]] + a[1..] && b == [b[0]] + b[1..];
    }
  }

  lemma {:induction false} StringTransitive(a: string, b: string, c: string)
    ensures StringLess(a, b) && StringLess(b, c) ==> StringLess(a, c)
  {
    if a != [] && b != [] && c != [] {
      StringTransitive(a[1..], b[1..], c[1..]);
    }
  }

  lemma StringOrders()
    ensures Orders(StringLess)
  {
    forall a, b: string
      ensures Leq(StringLess, a, b) && Leq(StringLess, b, a) ==> a == b
    {
      StringTotal(a, b);
    }
    forall a, b, c: string
      ensures Leq(StringLess, a, b) && Leq(StringLess, b, c) ==> Leq(StringLess, a, c)
    {
      StringTotal(a, b);
      StringTotal(b, c);
      StringTotal(a, c);
      StringTransitive(a, b, c);
    }
  }
}
