/** Matching a pod's node selector and required node affinity against a node, and when the
    canonical form keeps the verdict. */
module NodeMatching {
  import opened Common
  import opened Sorting
  import opened Tolerations
  import opened NodeSelectors

  /** What the libraries decide: reading a label value as an integer, which keys and values are
      legal, and reading a taint or toleration value, which must be a plain decimal integer. */
  datatype Rules = Rules(number: string -> Option<int>, okKey: string -> bool, okValue: (string, string) -> bool,
                         taintNumber: string -> Option<int>)

  datatype Verdict = Match | NoMatch | Error

  predicate Numeric(r: Requirement) {
    r.operator == "Gt" || r.operator == "Lt"
  }

  // ------------------------------------------------------------- requirements

  /** A match expression that parses. */
  predicate Parses(r: Requirement, rules: Rules) {
    && rules.okKey(r.key)
    && (if r.operator == "In" || r.operator == "NotIn" then r.values != []
        else if r.operator == "Exists" || r.operator == "DoesNotExist" then r.values == []
        else if Numeric(r) then |r.values| == 1 && forall v :: v in r.values ==> rules.number(v).Some?
        else false)
    && forall v :: v in r.values ==> rules.okValue(r.key, v)
  }

  /** An illegal key or value never parses. Otherwise In and NotIn ask for at least one value, Exists
      and DoesNotExist for none, Gt and Lt for one that is a number, and other operators never do. */
  lemma ParsesByOperator(r: Requirement, rules: Rules)
    ensures Parses(r, rules) ==> rules.okKey(r.key) && forall k :: 0 <= k < |r.values| ==> rules.okValue(r.key, r.values[k])
    ensures rules.okKey(r.key) && (forall k :: 0 <= k < |r.values| ==> rules.okValue(r.key, r.values[k])) ==>
              && (r.operator in {"In", "NotIn"} ==> (Parses(r, rules) <==> |r.values| > 0))
              && (r.operator in {"Exists", "DoesNotExist"} ==> (Parses(r, rules) <==> |r.values| == 0))
              && (r.operator in {"Gt", "Lt"} ==>
                    (Parses(r, rules) <==> |r.values| == 1 && rules.number(r.values[0]).Some?))
    ensures Parses(r, rules) ==> r.operator in {"In", "NotIn", "Exists", "DoesNotExist", "Gt", "Lt"}
  {
    assert forall v :: v in r.values <==> exists k :: 0 <= k < |r.values| && r.values[k] == v;
  }

  predicate Matches(r: Requirement, labels: map<string, string>, rules: Rules) {
    var has := r.key in labels;
    if r.operator == "In" then has && labels[r.key] in r.values
    else if r.operator == "NotIn" then !has || labels[r.key] !in r.values
    else if r.operator == "Exists" then has
    else if r.operator == "DoesNotExist" then !has
    else if Numeric(r) then
      && has && rules.number(labels[r.key]).Some? && |r.values| == 1 && rules.number(r.values[0]).Some?
      && (if r.operator == "Gt" then rules.number(labels[r.key]).value > rules.number(r.values[0]).value
          else rules.number(labels[r.key]).value < rules.number(r.values[0]).value)
    else false
  }

  /** The operators against each other: NotIn is the opposite of In, DoesNotExist of Exists; In asks
      for one of the values; Gt and Lt compare numbers, and a label that is none matches neither. */
  lemma OperatorsCompare(r: Requirement, labels: map<string, string>, rules: Rules)
    ensures var found := Look(labels, r.key);
            && (Matches(r.(operator := "In"), labels, rules) <==> exists v :: v in r.values && found == Some(v))
            && Matches(r.(operator := "NotIn"), labels, rules) == !Matches(r.(operator := "In"), labels, rules)
            && (Matches(r.(operator := "Exists"), labels, rules) <==> found.Some?)
            && Matches(r.(operator := "DoesNotExist"), labels, rules) == !Matches(r.(operator := "Exists"), labels, rules)
            && (|r.values| == 1 && rules.number(r.values[0]).Some? && found.Some? && rules.number(found.value).Some? ==>
                  var bound, actual := rules.number(r.values[0]).value, rules.number(found.value).value;
                  && (Matches(r.(operator := "Gt"), labels, rules) <==> bound < actual)
                  && (Matches(r.(operator := "Lt"), labels, rules) <==> actual < bound))
            && (found.None? || rules.number(found.value).None? ==>
                  !Matches(r.(operator := "Gt"), labels, rules) && !Matches(r.(operator := "Lt"), labels, rules))
  {
  }

  predicate FieldParses(r: Requirement) {
    (r.operator == "In" || r.operator == "NotIn") && |r.values| == 1
  }

  predicate FieldMatches(r: Requirement, node: Node)
    requires FieldParses(r)
  {
    var actual := if r.key == "metadata.name" then node.name else "";
    if r.operator == "In" then actual == r.values[0] else actual != r.values[0]
  }

  predicate FieldHolds(r: Requirement, node: Node) {
    FieldParses(r) && FieldMatches(r, node)
  }

  /** A field names one value: the node's name, or the empty string for any other field, has to equal
      it for In and to differ from it for NotIn. */
  lemma FieldsCompare(r: Requirement, node: Node)
    requires |r.values| == 1
    ensures FieldHolds(r.(operator := "In", key := "metadata.name"), node) <==> r.values == [node.name]
    ensures r.key != "metadata.name" ==> (FieldHolds(r.(operator := "In"), node) <==> r.values == [""])
    ensures FieldHolds(r.(operator := "NotIn"), node) == !FieldHolds(r.(operator := "In"), node)
    ensures FieldHolds(r, node) ==> r.operator in {"In", "NotIn"}
  {
  }

  /** Several copies of one legal number. */
  predicate RepeatsANumber(r: Requirement, rules: Rules) {
    && Numeric(r) && |r.values| > 1 && rules.okKey(r.key)
    && forall v :: v in r.values ==> v == r.values[0] && rules.number(v).Some? && rules.okValue(r.key, v)
  }

  /** Several copies of one value for a field. */
  predicate RepeatsAField(r: Requirement) {
    (r.operator == "In" || r.operator == "NotIn") && |r.values| > 1 && forall v :: v in r.values ==> v == r.values[0]
  }

  lemma CanonLength(values: seq<string>)
    ensures |values| > 1 ==> (|CanonValues(values)| == 1 <==> forall v :: v in values ==> v == values[0])
  {
    ValuesMembers(values);
    var c := CanonValues(values);
    assert forall v :: v in values <==> v in Members(values);
    assert forall v :: v in c <==> v in Members(c);
    if |values| > 1 {
      assert values[0] in c;
      if |c| > 1 {
        StringOrders();
        SortSorts(values, StringLess);
        DedupClimbs(Sort(values, StringLess), StringLess);
        assert c[0] in values && c[1] in values && c[0] != c[1];
      }
    }
  }

  /** Canonical form keeps whether an expression parses exactly when it does not make one
      number out of several copies; and it never changes what a parsed expression matches. */
  lemma CanonKeepsParsing(r: Requirement, rules: Rules)
    ensures Parses(Canon(r), rules) == Parses(r, rules) <==> !RepeatsANumber(r, rules)
    ensures Parses(r, rules) ==> forall labels :: Matches(Canon(r), labels, rules) == Matches(r, labels, rules)
  {
    ValuesMembers(r.values);
    var c := CanonValues(r.values);
    assert forall v :: v in r.values <==> v in Members(r.values);
    assert forall v :: v in c <==> v in Members(c);
    CanonLength(r.values);
    if Numeric(r) && |r.values| > 1 && |c| == 1 {
      assert r.values[0] in r.values && c[0] in c && c[0] == r.values[0];
    }
  }

  /** The same for a field. */
  lemma CanonKeepsField(r: Requirement)
    ensures FieldParses(Canon(r)) == FieldParses(r) <==> !RepeatsAField(r)
    ensures FieldParses(r) ==> Canon(r) == r
  {
    ValuesMembers(r.values);
    CanonLength(r.values);
  }

  // ------------------------------------------------------------- terms

  predicate TermParses(t: Term, rules: Rules) {
    && (forall r :: r in t.expressions ==> Parses(r, rules))
    && (forall r :: r in t.fields ==> FieldParses(r))
  }

  predicate TermMatches(t: Term, node: Node, rules: Rules) {
    && (forall r :: r in t.expressions ==> Matches(r, node.labels, rules))
    && (node.name != "" ==> forall r :: r in t.fields ==> FieldHolds(r, node))
  }

  /** The API server admits one value only for Gt and Lt, and for fields. */
  predicate SingleValued(t: Term) {
    && (forall r :: r in t.expressions && Numeric(r) ==> |r.values| <= 1)
    && (forall r :: r in t.fields ==> |r.values| <= 1)
  }

  /** No copies where only one value parses; less than what the API server asks for. */
  predicate Plain(t: Term, rules: Rules) {
    && (forall r :: r in t.expressions ==> !RepeatsANumber(r, rules))
    && (forall r :: r in t.fields ==> !RepeatsAField(r))
  }

  lemma SingleValuedIsPlain(t: Term, rules: Rules)
    requires SingleValued(t)
    ensures Plain(t, rules)
  {
  }

  /** An empty term matches nothing and is not even parsed. */
  function TermVerdict(t: Term, node: Node, rules: Rules): Verdict {
    if t.expressions == [] && t.fields == [] then NoMatch
    else if !TermParses(t, rules) then Error
    else if TermMatches(t, node, rules) then Match
    else NoMatch
  }

  /** A term that asks for nothing matches no node; a term of one requirement matches as that does,
      except that a node without a name is not asked about its fields. */
  lemma SmallTerms(r: Requirement, node: Node, rules: Rules)
    ensures TermVerdict(Term([], []), node, rules) == NoMatch
    ensures TermVerdict(Term([r], []), node, rules) ==
            if !Parses(r, rules) then Error else if Matches(r, node.labels, rules) then Match else NoMatch
    ensures TermVerdict(Term([], [r]), node, rules) ==
            if !FieldParses(r) then Error else if node.name == "" || FieldHolds(r, node) then Match else NoMatch
  {
    assert forall q :: q in [r] <==> q == r;
    assert r in [r];
  }

  lemma CanonAllMembers(rs: seq<Requirement>)
    ensures forall c :: c in CanonRequirements(rs) <==> exists r :: r in rs && Canon(r) == c
    ensures rs == [] <==> CanonRequirements(rs) == []
  {
    CanonMembers(rs);
    var cs := CanonAll(rs);
    NoMembers(cs);
    NoMembers(CanonRequirements(rs));
    forall c
      ensures c in CanonRequirements(rs) <==> exists r :: r in rs && Canon(r) == c
    {
      assert c in CanonRequirements(rs) <==> c in Members(CanonRequirements(rs));
      assert c in cs <==> c in Members(cs);
      if c in cs {
        var k :| 0 <= k < |cs| && cs[k] == c;
        assert rs[k] in rs && Canon(rs[k]) == c;
      }
      if r :| r in rs && Canon(r) == c {
        var k :| 0 <= k < |rs| && rs[k] == r;
        assert cs[k] == c;
      }
    }
  }

  lemma ExpressionsKept(rs: seq<Requirement>, labels: map<string, string>, rules: Rules)
    requires forall r :: r in rs ==> !RepeatsANumber(r, rules)
    ensures var cs := CanonRequirements(rs);
            && ((forall c :: c in cs ==> Parses(c, rules)) <==> (forall r :: r in rs ==> Parses(r, rules)))
            && ((forall r :: r in rs ==> Parses(r, rules)) ==>
                  ((forall c :: c in cs ==> Matches(c, labels, rules)) <==> (forall r :: r in rs ==> Matches(r, labels, rules))))
  {
    var cs := CanonRequirements(rs);
    CanonAllMembers(rs);
    forall r | r in rs
      ensures Canon(r) in cs && Parses(Canon(r), rules) == Parses(r, rules)
      ensures Parses(r, rules) ==> Matches(Canon(r), labels, rules) == Matches(r, labels, rules)
    {
      CanonKeepsParsing(r, rules);
    }
    forall c | c in cs
      ensures exists r :: r in rs && Canon(r) == c
    {
    }
  }

  lemma FieldsKept(rs: seq<Requirement>, node: Node)
    requires forall r :: r in rs ==> !RepeatsAField(r)
    ensures var cs := CanonRequirements(rs);
            && ((forall c :: c in cs ==> FieldParses(c)) <==> (forall r :: r in rs ==> FieldParses(r)))
            && ((forall c :: c in cs ==> FieldHolds(c, node)) <==> (forall r :: r in rs ==> FieldHolds(r, node)))
  {
    var cs := CanonRequirements(rs);
    CanonAllMembers(rs);
    forall r | r in rs
      ensures Canon(r) in cs && FieldParses(Canon(r)) == FieldParses(r) && FieldHolds(Canon(r), node) == FieldHolds(r, node)
    {
      CanonKeepsField(r);
    }
    forall c | c in cs
      ensures exists r :: r in rs && Canon(r) == c
    {
    }
  }

  lemma CanonKeepsParts(t: Term, node: Node, rules: Rules)
    requires Plain(t, rules)
    ensures TermParses(CanonTerm(t), rules) == TermParses(t, rules)
    ensures TermParses(t, rules) ==> TermMatches(CanonTerm(t), node, rules) == TermMatches(t, node, rules)
  {
    ExpressionsKept(t.expressions, node.labels, rules);
    FieldsKept(t.fields, node);
  }

  lemma CanonKeepsTermVerdict(t: Term, node: Node, rules: Rules)
    requires Plain(t, rules)
    ensures TermVerdict(CanonTerm(t), node, rules) == TermVerdict(t, node, rules)
  {
    CanonAllMembers(t.expressions);
    CanonAllMembers(t.fields);
    CanonKeepsParts(t, node, rules);
  }

  // ------------------------------------------------------------- selectors

  /** Terms are alternatives; an error shows only if none matches. */
  function SelectorVerdict(ts: seq<Term>, node: Node, rules: Rules): Verdict {
    if exists t :: t in ts && TermVerdict(t, node, rules) == Match then Match
    else if exists t :: t in ts && TermVerdict(t, node, rules) == Error then Error
    else NoMatch
  }

  /** A term asks for all of its requirements. */
  lemma RequirementsAllCount(a: Term, b: Term, node: Node, rules: Rules)
    requires (a.expressions != [] || a.fields != []) && (b.expressions != [] || b.fields != [])
    ensures var both := TermVerdict(Term(a.expressions + b.expressions, a.fields + b.fields), node, rules);
            && (both == Match <==> TermVerdict(a, node, rules) == TermVerdict(b, node, rules) == Match)
            && (both == Error <==> TermVerdict(a, node, rules) == Error || TermVerdict(b, node, rules) == Error)
  {
    var both := Term(a.expressions + b.expressions, a.fields + b.fields);
    assert forall r :: r in both.expressions <==> r in a.expressions || r in b.expressions;
    assert forall r :: r in both.fields <==> r in a.fields || r in b.fields;
    AllPartsParse(a, b, rules);
  }

  lemma AllPartsParse(a: Term, b: Term, rules: Rules)
    ensures TermParses(Term(a.expressions + b.expressions, a.fields + b.fields), rules) <==>
            TermParses(a, rules) && TermParses(b, rules)
  {
    var both := Term(a.expressions + b.expressions, a.fields + b.fields);
    assert forall r :: r in both.expressions <==> r in a.expressions || r in b.expressions;
    assert forall r :: r in both.fields <==> r in a.fields || r in b.fields;
  }

  /** Any term of a selector will do. */
  lemma TermsAreAlternatives(a: seq<Term>, b: seq<Term>, node: Node, rules: Rules)
    ensures var either := SelectorVerdict(a + b, node, rules);
            && (either == Match <==> SelectorVerdict(a, node, rules) == Match || SelectorVerdict(b, node, rules) == Match)
            && (either == NoMatch <==> SelectorVerdict(a, node, rules) == SelectorVerdict(b, node, rules) == NoMatch)
    ensures SelectorVerdict([], node, rules) == NoMatch
    ensures forall t :: SelectorVerdict([t], node, rules) == TermVerdict(t, node, rules)
  {
    assert forall t :: t in a + b <==> t in a || t in b;
    forall t
      ensures SelectorVerdict([t], node, rules) == TermVerdict(t, node, rules)
    {
      assert t in [t] && forall u :: u in [t] ==> u == t;
    }
  }

  lemma CanonTermsMembers(ts: seq<Term>)
    ensures forall c :: c in CanonTerms(ts) <==> exists t :: t in ts && CanonTerm(t) == c
  {
    var cs := CanonEach(ts);
    DedupMembers(cs);
    forall c
      ensures c in CanonTerms(ts) <==> exists t :: t in ts && CanonTerm(t) == c
    {
      assert c in CanonTerms(ts) <==> c in Members(CanonTerms(ts));
      assert c in cs <==> c in Members(cs);
      if c in cs {
        var k :| 0 <= k < |cs| && cs[k] == c;
        assert ts[k] in ts && CanonTerm(ts[k]) == c;
      }
      if t :| t in ts && CanonTerm(t) == c {
        var k :| 0 <= k < |ts| && ts[k] == t;
        assert cs[k] == c;
      }
    }
  }

  ghost predicate Has(ts: seq<Term>, node: Node, rules: Rules, v: Verdict) {
    exists t :: t in ts && TermVerdict(t, node, rules) == v
  }

  lemma CanonKeepsHas(ts: seq<Term>, node: Node, rules: Rules, v: Verdict)
    requires forall t :: t in ts ==> Plain(t, rules)
    ensures Has(CanonTerms(ts), node, rules, v) <==> Has(ts, node, rules, v)
  {
    CanonTermsMembers(ts);
    if Has(ts, node, rules, v) {
      var t :| t in ts && TermVerdict(t, node, rules) == v;
      CanonKeepsTermVerdict(t, node, rules);
      assert CanonTerm(t) in CanonTerms(ts);
    }
    if Has(CanonTerms(ts), node, rules, v) {
      var c :| c in CanonTerms(ts) && TermVerdict(c, node, rules) == v;
      var t :| t in ts && CanonTerm(t) == c;
      CanonKeepsTermVerdict(t, node, rules);
    }
  }

  lemma CanonKeepsSelectorVerdict(ts: seq<Term>, node: Node, rules: Rules)
    requires forall t :: t in ts ==> Plain(t, rules)
    ensures SelectorVerdict(CanonTerms(ts), node, rules) == SelectorVerdict(ts, node, rules)
  {
    CanonKeepsHas(ts, node, rules, Match);
    CanonKeepsHas(ts, node, rules, Error);
  }

  lemma SameSelectorSameVerdict(a: seq<Term>, b: seq<Term>, node: Node, rules: Rules)
    requires CanonTerms(a) == CanonTerms(b)
    requires (forall t :: t in a ==> Plain(t, rules)) && forall t :: t in b ==> Plain(t, rules)
    ensures SelectorVerdict(a, node, rules) == SelectorVerdict(b, node, rules)
  {
    CanonKeepsSelectorVerdict(a, node, rules);
    CanonKeepsSelectorVerdict(b, node, rules);
  }

  // ------------------------------------------------------------- pods

  /** The part of a pod that decides where it may run. */
  datatype PodSpec = PodSpec(tolerations: seq<Toleration>, nodeSelector: map<string, string>, affinity: Option<seq<Term>>)

  /** Every term of the pod's node affinity is plain, as it is once the API server has admitted it. */
  ghost predicate Admitted(p: PodSpec, rules: Rules) {
    p.affinity.Some? ==> forall t :: t in p.affinity.value ==> Plain(t, rules)
  }

  function AffinityVerdict(a: Option<seq<Term>>, node: Node, rules: Rules): Verdict {
    if a.Some? then SelectorVerdict(a.value, node, rules) else Match
  }

  /** `PodMatchNodeSelector`. */
  function PodVerdict(p: PodSpec, node: Node, rules: Rules): Verdict {
    if exists k :: k in p.nodeSelector && !(k in node.labels && node.labels[k] == p.nodeSelector[k]) then NoMatch
    else AffinityVerdict(p.affinity, node, rules)
  }

  /** The test of the shortcut: equal tolerations, node affinity and node selector. */
  ghost predicate Alike(p: PodSpec, q: PodSpec) {
    && Members(Cores(p.tolerations)) == Members(Cores(q.tolerations))
    && SameSelector(p.affinity, q.affinity)
    && p.nodeSelector == q.nodeSelector
  }

  predicate StopsPods(t: Taint) {
    t.effect == "NoSchedule" || t.effect == "NoExecute"
  }

  /** Whether a node is feasible for a pod; a selector that cannot be parsed does not rule the
      node out. */
  ghost predicate Feasible(p: PodSpec, node: Node, rules: Rules) {
    && TolerateAll(Members(Cores(p.tolerations)), node.taints, StopsPods, rules.taintNumber)
    && PodVerdict(p, node, rules) != NoMatch
  }

  /** A node is feasible exactly when every taint that keeps pods off is tolerated, its labels have
      what the node selector asks for, and no readable affinity rules it out. */
  lemma FeasibleMeans(p: PodSpec, node: Node, rules: Rules)
    ensures Feasible(p, node, rules) <==>
            && (forall i :: 0 <= i < |node.taints| && node.taints[i].effect in {"NoSchedule", "NoExecute"} ==>
                  exists c :: c in Members(Cores(p.tolerations)) && Tolerates(c, node.taints[i], rules.taintNumber))
            && (forall k :: k in p.nodeSelector ==> Look(node.labels, k) == Some(p.nodeSelector[k]))
            && (p.affinity.Some? ==> SelectorVerdict(p.affinity.value, node, rules) in {Match, Error})
  {
  }

  lemma SameAffinitySameVerdict(a: Option<seq<Term>>, b: Option<seq<Term>>, node: Node, rules: Rules)
    requires SameSelector(a, b)
    requires a.Some? ==> forall t :: t in a.value ==> Plain(t, rules)
    requires b.Some? ==> forall t :: t in b.value ==> Plain(t, rules)
    ensures AffinityVerdict(a, node, rules) == AffinityVerdict(b, node, rules)
  {
    if a.Some? {
      SameSelectorSameVerdict(a.value, b.value, node, rules);
    }
  }

  /** Pods that compare equal get the same verdict on every node. */
  lemma AlikeMeansSameVerdict(p: PodSpec, q: PodSpec, node: Node, rules: Rules)
    requires Alike(p, q) && Admitted(p, rules) && Admitted(q, rules)
    ensures PodVerdict(p, node, rules) == PodVerdict(q, node, rules)
    ensures Feasible(p, node, rules) == Feasible(q, node, rules)
  {
    SameAffinitySameVerdict(p.affinity, q.affinity, node, rules);
  }
}
