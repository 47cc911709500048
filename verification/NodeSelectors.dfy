/** Comparing node selectors in canonical form: what the form is, and when two selectors share it. */
module NodeSelectors {
  import opened Common
  import opened Sorting
  import opened Tolerations

  datatype Requirement = Requirement(key: string, operator: string, values: seq<string>)

  datatype Term = Term(expressions: seq<Requirement>, fields: seq<Requirement>)

  datatype Node = Node(name: string, labels: map<string, string>, taints: seq<Taint>)

  // ------------------------------------------------------------- canonical form

  function CanonValues(values: seq<string>): seq<string> {
    Dedup(Sort(values, StringLess))
  }

  function Canon(r: Requirement): Requirement {
    r.(values := CanonValues(r.values))
  }

  function CanonAll(rs: seq<Requirement>): (cs: seq<Requirement>)
    ensures |cs| == |rs| && forall k :: 0 <= k < |rs| ==> cs[k] == Canon(rs[k])
  {
    seq(|rs|, k requires 0 <= k < |rs| => Canon(rs[k]))
  }

  /** Values of equal length, by the first difference; true when there is none. */
  predicate ValuesBefore(a: seq<string>, b: seq<string>) {
    if a == [] || b == [] then true
    else if StringLess(a[0], b[0]) then true
    else if StringLess(b[0], a[0]) then false
    else ValuesBefore(a[1..], b[1..])
  }

  /** The comparator of requirements: by key, operator, number of values, values. */
  predicate RequirementBefore(a: Requirement, b: Requirement) {
    if StringLess(a.key, b.key) then true
    else if StringLess(b.key, a.key) then false
    else if StringLess(a.operator, b.operator) then true
    else if StringLess(b.operator, a.operator) then false
    else if |a.values| < |b.values| then true
    else if |a.values| > |b.values| then false
    else ValuesBefore(a.values, b.values)
  }

  function CanonRequirements(rs: seq<Requirement>): seq<Requirement> {
    Dedup(Sort(CanonAll(rs), RequirementBefore))
  }

  function CanonTerm(t: Term): Term {
    Term(CanonRequirements(t.expressions), CanonRequirements(t.fields))
  }

  function CanonEach(ts: seq<Term>): (cs: seq<Term>)
    ensures |cs| == |ts| && forall k :: 0 <= k < |ts| ==> cs[k] == CanonTerm(ts[k])
  {
    seq(|ts|, k requires 0 <= k < |ts| => CanonTerm(ts[k]))
  }

  /** Terms are not sorted; only neighbouring duplicates go. */
  function CanonTerms(ts: seq<Term>): seq<Term> {
    Dedup(CanonEach(ts))
  }

  /** `uniqueSortNodeSelectorRequirements`. */
  method UniqueSortRequirements(rs: seq<Requirement>) returns (canon: seq<Requirement>)
    ensures canon == CanonRequirements(rs)
  {
    var reqs := rs;
    for i := 0 to |rs|
      invariant |reqs| == |rs|
      invariant forall k :: 0 <= k < |rs| ==> reqs[k] == if k < i then Canon(rs[k]) else rs[k]
    {
      var values := Unique(Sort(reqs[i].values, StringLess));
      reqs := reqs[i := reqs[i].(values := values)];
    }
    assert reqs == CanonAll(rs);
    canon := Unique(Sort(reqs, RequirementBefore));
  }

  /** `uniqueSortNodeSelectorTerms`. */
  method UniqueSortTerms(ts: seq<Term>) returns (canon: seq<Term>)
    ensures canon == CanonTerms(ts)
  {
    var terms := ts;
    for i := 0 to |ts|
      invariant |terms| == |ts|
      invariant forall k :: 0 <= k < |ts| ==> terms[k] == if k < i then CanonTerm(ts[k]) else ts[k]
    {
      var expressions := UniqueSortRequirements(terms[i].expressions);
      var fields := UniqueSortRequirements(terms[i].fields);
      terms := terms[i := Term(expressions, fields)];
    }
    assert terms == CanonEach(ts);
    canon := Unique(terms);
  }

  ghost predicate SameSelector(n1: Option<seq<Term>>, n2: Option<seq<Term>>) {
    match (n1, n2)
    case (None, None) => true
    case (Some(a), Some(b)) => CanonTerms(a) == CanonTerms(b)
    case _ => false
  }

  method NodeSelectorsEqual(n1: Option<seq<Term>>, n2: Option<seq<Term>>) returns (equal: bool)
    ensures equal <==> SameSelector(n1, n2)
  {
    if n1.None? && n2.None? {
      return true;
    }
    if n1.None? || n2.None? {
      return false;
    }
    var a := UniqueSortTerms(n1.value);
    var b := UniqueSortTerms(n2.value);
    return a == b;
  }

  // -------------------------------------- term lists compare in order

  lemma {:induction false} NeighboursMerge<T>(a: seq<T>, x: T, b: seq<T>)
    ensures Dedup(a + [x, x] + b) == Dedup(a + [x] + b)
    decreases |b|
  {
    if b == [] {
      assert a + [x, x] + b == (a + [x]) + [x] && a + [x] + b == a + [x];
      DedupAppend(a + [x], x);
    } else {
      var front, last := b[..|b| - 1], b[|b| - 1];
      assert a + [x, x] + b == (a + [x, x] + front) + [last] && a + [x] + b == (a + [x] + front) + [last];
      NeighboursMerge(a, x, front);
      DedupAppend(a + [x, x] + front, last);
      DedupAppend(a + [x] + front, last);
    }
  }

  lemma OrderStays<T>(x: T, y: T)
    requires x != y
    ensures Dedup([x, y]) == [x, y]
  {
    assert [x] + [y] == [x, y];
    DedupAppend([x], y);
  }

  lemma CanonEachConcat(a: seq<Term>, b: seq<Term>)
    ensures CanonEach(a + b) == CanonEach(a) + CanonEach(b)
  {
  }

  /** A term repeated next to itself makes no difference to the comparison. */
  lemma RepeatedTermIsDropped(a: seq<Term>, t: Term, b: seq<Term>)
    ensures SameSelector(Some(a + [t, t] + b), Some(a + [t] + b))
  {
    CanonEachConcat(a + [t, t], b);
    CanonEachConcat(a, [t, t]);
    CanonEachConcat(a + [t], b);
    CanonEachConcat(a, [t]);
    CopiesOf(t);
    NeighboursMerge(CanonEach(a), CanonTerm(t), CanonEach(b));
  }

  lemma CopiesOf(t: Term)
    ensures CanonEach([t, t]) == [CanonTerm(t), CanonTerm(t)] && CanonEach([t]) == [CanonTerm(t)]
  {
  }

  /** The order of the terms does: swapping two that differ makes the selectors differ, though they
      match the same nodes. */
  lemma TermOrderCounts(t: Term, u: Term)
    requires CanonTerm(t) != CanonTerm(u)
    ensures !SameSelector(Some([t, u]), Some([u, t]))
  {
    InOrder(t, u);
    InOrder(u, t);
  }

  lemma InOrder(t: Term, u: Term)
    requires CanonTerm(t) != CanonTerm(u)
    ensures CanonTerms([t, u]) == [CanonTerm(t), CanonTerm(u)]
  {
    var x, y := CanonTerm(t), CanonTerm(u);
    OrderStays(x, y);
    assert CanonEach([t, u]) == [x, y];
  }

  // -------------------------------------- requirement lists compare as sets

  lemma {:induction false} ValuesAntisymmetric(a: seq<string>, b: seq<string>)
    requires |a| == |b| && ValuesBefore(a, b) && ValuesBefore(b, a)
    ensures a == b
  {
    if a != [] {
      StringTotal(a[0], b[0]);
      ValuesAntisymmetric(a[1..], b[1..]);
      assert a == [a[0]] + a[1..] && b == [b[0]] + b[1..];
    }
  }

  lemma {:induction false} ValuesTotal(a: seq<string>, b: seq<string>)
    requires |a| == |b|
    ensures ValuesBefore(a, b) || ValuesBefore(b, a)
  {
    if a != [] {
      StringTotal(a[0], b[0]);
      ValuesTotal(a[1..], b[1..]);
    }
  }

  lemma {:induction false} ValuesTransitive(a: seq<string>, b: seq<string>, c: seq<string>)
    requires |a| == |b| == |c| && ValuesBefore(a, b) && ValuesBefore(b, c)
    ensures ValuesBefore(a, c)
  {
    if a != [] {
      StringTotal(a[0], b[0]);
      StringTotal(b[0], c[0]);
      StringTotal(a[0], c[0]);
      StringChain(a[0], b[0], c[0]);
      if a[0] == c[0] {
        ValuesTransitive(a[1..], b[1..], c[1..]);
      }
    }
  }

  lemma RequirementAntisymmetric(a: Requirement, b: Requirement)
    requires Leq(RequirementBefore, a, b) && Leq(RequirementBefore, b, a)
    ensures a == b
  {
    StringTotal(a.key, b.key);
    StringTotal(a.operator, b.operator);
    if |a.values| == |b.values| {
      ValuesTotal(a.values, b.values);
      ValuesAntisymmetric(a.values, b.values);
    }
  }

  lemma RequirementTransitive(a: Requirement, b: Requirement, c: Requirement)
    requires Leq(RequirementBefore, a, b) && Leq(RequirementBefore, b, c)
    ensures Leq(RequirementBefore, a, c)
  {
    StringTotal(a.key, b.key); StringTotal(b.key, c.key); StringTotal(a.key, c.key); StringChain(a.key, b.key, c.key);
    StringTotal(a.operator, b.operator); StringTotal(b.operator, c.operator); StringTotal(a.operator, c.operator);
    StringChain(a.operator, b.operator, c.operator);
    if a.key == b.key == c.key && a.operator == b.operator == c.operator && |a.values| == |b.values| == |c.values| {
      ValuesTotal(a.values, b.values);
      ValuesTotal(b.values, c.values);
      ValuesTransitive(a.values, b.values, c.values);
    }
  }

  lemma RequirementOrders()
    ensures Orders(RequirementBefore)
  {
    forall a, b | Leq(RequirementBefore, a, b) && Leq(RequirementBefore, b, a)
      ensures a == b
    {
      RequirementAntisymmetric(a, b);
    }
    forall a, b, c | Leq(RequirementBefore, a, b) && Leq(RequirementBefore, b, c)
      ensures Leq(RequirementBefore, a, c)
    {
      RequirementTransitive(a, b, c);
    }
  }

  lemma CanonMembers(rs: seq<Requirement>)
    ensures Members(CanonRequirements(rs)) == Members(CanonAll(rs))
  {
    RequirementOrders();
    SortSorts(CanonAll(rs), RequirementBefore);
    SameMultisetSameMembers(CanonAll(rs), Sort(CanonAll(rs), RequirementBefore));
    DedupMembers(Sort(CanonAll(rs), RequirementBefore));
  }

  lemma ValuesMembers(values: seq<string>)
    ensures Members(CanonValues(values)) == Members(values)
    ensures values == [] <==> CanonValues(values) == []
    ensures |values| == 1 ==> CanonValues(values) == values
  {
    StringOrders();
    SortSorts(values, StringLess);
    SameMultisetSameMembers(values, Sort(values, StringLess));
    DedupMembers(Sort(values, StringLess));
    NoMembers(values);
    NoMembers(CanonValues(values));
    if |values| == 1 {
      SortOne(values[0], StringLess);
      assert values == [values[0]];
    }
  }

  /** Two requirement lists have the same canonical form exactly when they have the same set of
      requirements, each taken as (key, operator, set of values). */
  lemma RequirementsCompareAsSets(a: seq<Requirement>, b: seq<Requirement>)
    ensures CanonRequirements(a) == CanonRequirements(b) <==> Members(CanonAll(a)) == Members(CanonAll(b))
    ensures forall r, q :: r in a && q in b ==>
              (Canon(r) == Canon(q) <==> r.key == q.key && r.operator == q.operator && Members(r.values) == Members(q.values))
  {
    RequirementOrders();
    var a', b' := Sort(CanonAll(a), RequirementBefore), Sort(CanonAll(b), RequirementBefore);
    SortSorts(CanonAll(a), RequirementBefore);
    SortSorts(CanonAll(b), RequirementBefore);
    SameMultisetSameMembers(CanonAll(a), a');
    SameMultisetSameMembers(CanonAll(b), b');
    CanonicalIsSet(a', b', RequirementBefore);
    forall r, q | r in a && q in b
      ensures Canon(r) == Canon(q) <==> r.key == q.key && r.operator == q.operator && Members(r.values) == Members(q.values)
    {
      ValuesCompareAsSets(r.values, q.values);
    }
  }

  lemma ValuesCompareAsSets(a: seq<string>, b: seq<string>)
    ensures CanonValues(a) == CanonValues(b) <==> Members(a) == Members(b)
  {
    StringOrders();
    SortSorts(a, StringLess);
    SortSorts(b, StringLess);
    SameMultisetSameMembers(a, Sort(a, StringLess));
    SameMultisetSameMembers(b, Sort(b, StringLess));
    CanonicalIsSet(Sort(a, StringLess), Sort(b, StringLess), StringLess);
  }
}
