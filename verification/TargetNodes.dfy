/** RemoveDuplicates: which nodes an owner's duplicates could land on, with the shortcut that
    looks at one pod of each kind only. */
module TargetNodes {
  import opened Common
  import opened Sorting
  import opened Tolerations
  import opened NodeSelectors
  import opened NodeMatching

  /** The nodes, by name, feasible for a pod. */
  ghost function FeasibleNodes(p: PodSpec, nodes: seq<Node>, rules: Rules): set<string> {
    set n | n in nodes && Feasible(p, n, rules) :: n.name
  }

  /** Without the shortcut: the nodes of every pod that has at least two. */
  ghost function Targets(pods: set<PodSpec>, nodes: seq<Node>, rules: Rules): set<string> {
    set p, name | p in pods && |FeasibleNodes(p, nodes, rules)| > 1 && name in FeasibleNodes(p, nodes, rules) :: name
  }

  /** The three comparisons of the shortcut. */
  method ComparesAlike(p: PodSpec, q: PodSpec) returns (alike: bool)
    ensures alike <==> Alike(p, q)
  {
    SortedTolerationsExist(p.tolerations);
    SortedTolerationsExist(q.tolerations);
    var tolerations := TolerationsEqual(p.tolerations, q.tolerations,
                                        Sort(p.tolerations, TolerationBefore), Sort(q.tolerations, TolerationBefore));
    var selectors := NodeSelectorsEqual(p.affinity, q.affinity);
    return tolerations && selectors && p.nodeSelector == q.nodeSelector;
  }

  /** Some chosen pod is of the same kind. */
  ghost predicate Covered(p: PodSpec, chosen: seq<PodSpec>) {
    exists q :: q in chosen && Alike(p, q)
  }

  /** The chosen pods are among all pods, stand for all of them, and no two are of one kind. */
  ghost predicate OneOfEach(chosen: seq<PodSpec>, pods: set<PodSpec>) {
    && (forall p :: p in chosen ==> p in pods)
    && (forall p :: p in pods ==> Covered(p, chosen))
    && forall k, l :: 0 <= k < l < |chosen| ==> !Alike(chosen[k], chosen[l])
  }

  lemma CoveredByMore(p: PodSpec, chosen: seq<PodSpec>, q: PodSpec)
    ensures Covered(p, chosen) ==> Covered(p, chosen + [q])
    ensures Covered(q, chosen + [q])
  {
    if Covered(p, chosen) {
      var c :| c in chosen && Alike(p, c);
      assert c in chosen + [q];
    }
    assert q in chosen + [q] && Alike(q, q);
  }

  lemma AnotherKind(chosen: seq<PodSpec>, p: PodSpec)
    requires !Covered(p, chosen)
    ensures forall k :: 0 <= k < |chosen| ==> !Alike(chosen[k], p)
  {
    assert forall k :: 0 <= k < |chosen| ==> chosen[k] in chosen && (Alike(chosen[k], p) <==> Alike(p, chosen[k]));
  }

  /** Whether a pod of the same kind is among those chosen. */
  method IsCovered(p: PodSpec, chosen: seq<PodSpec>) returns (covered: bool)
    ensures covered <==> Covered(p, chosen)
  {
    for j := 0 to |chosen|
      invariant forall k :: 0 <= k < j ==> !Alike(p, chosen[k])
    {
      covered := ComparesAlike(p, chosen[j]);
      if covered {
        assert chosen[j] in chosen;
        return;
      }
    }
    return false;
  }

  /** One pod of each kind, in whatever order the pods come. */
  method DistinctPods(pods: seq<PodSpec>) returns (distinct: seq<PodSpec>)
    ensures OneOfEach(distinct, Members(pods))
  {
    distinct := [];
    for i := 0 to |pods|
      invariant forall p :: p in distinct ==> p in pods
      invariant forall k :: 0 <= k < i ==> Covered(pods[k], distinct)
      invariant forall k, l :: 0 <= k < l < |distinct| ==> !Alike(distinct[k], distinct[l])
    {
      var duplicated := IsCovered(pods[i], distinct);
      if !duplicated {
        forall k | 0 <= k <= i
          ensures k < i || Covered(pods[i], distinct + [pods[i]])
          ensures Covered(pods[k], distinct + [pods[i]])
        {
          CoveredByMore(pods[k], distinct, pods[i]);
        }
        AnotherKind(distinct, pods[i]);
        distinct := distinct + [pods[i]];
      }
    }
  }

  method Matching(p: PodSpec, nodes: seq<Node>, rules: Rules) returns (names: set<string>)
    ensures names == FeasibleNodes(p, nodes, rules)
  {
    names := {};
    for i := 0 to |nodes|
      invariant names == FeasibleNodes(p, nodes[..i], rules)
    {
      assert nodes[..i + 1] == nodes[..i] + [nodes[i]];
      var tolerated := TolerateTaintsWithFilter(p.tolerations, nodes[i].taints, StopsPods, rules.taintNumber);
      if !tolerated || PodVerdict(p, nodes[i], rules) == NoMatch {
        assert FeasibleNodes(p, nodes[..i + 1], rules) == FeasibleNodes(p, nodes[..i], rules);
        continue;
      }
      assert FeasibleNodes(p, nodes[..i + 1], rules) == FeasibleNodes(p, nodes[..i], rules) + {nodes[i].name};
      names := names + {nodes[i].name};
    }
    assert nodes[..|nodes|] == nodes;
  }

  lemma AlikeMeansSameNodes(p: PodSpec, q: PodSpec, nodes: seq<Node>, rules: Rules)
    requires Alike(p, q) && Admitted(p, rules) && Admitted(q, rules)
    ensures FeasibleNodes(p, nodes, rules) == FeasibleNodes(q, nodes, rules)
  {
    forall n | n in nodes
      ensures Feasible(p, n, rules) == Feasible(q, n, rules)
    {
      AlikeMeansSameVerdict(p, q, n, rules);
    }
  }

  lemma KindsSuffice(pods: set<PodSpec>, chosen: seq<PodSpec>, nodes: seq<Node>, rules: Rules)
    requires forall p :: p in pods ==> Admitted(p, rules)
    requires OneOfEach(chosen, pods)
    ensures Targets(Members(chosen), nodes, rules) == Targets(pods, nodes, rules)
  {
    forall name | name in Targets(pods, nodes, rules)
      ensures name in Targets(Members(chosen), nodes, rules)
    {
      var p :| p in pods && |FeasibleNodes(p, nodes, rules)| > 1 && name in FeasibleNodes(p, nodes, rules);
      assert Covered(p, chosen);
      var q :| q in chosen && Alike(p, q);
      AlikeMeansSameNodes(p, q, nodes, rules);
    }
  }

  /** Target nodes the shortcut may give: those of one pod of each kind. */
  ghost predicate Shortcut(targets: set<string>, pods: set<PodSpec>, nodes: seq<Node>, rules: Rules) {
    exists chosen :: OneOfEach(chosen, pods) && targets == Targets(Members(chosen), nodes, rules)
  }

  /** For admitted pods there is only one answer, that of checking every pod. */
  lemma ShortcutIsExact(targets: set<string>, pods: set<PodSpec>, nodes: seq<Node>, rules: Rules)
    requires Shortcut(targets, pods, nodes, rules) && forall p :: p in pods ==> Admitted(p, rules)
    ensures targets == Targets(pods, nodes, rules)
  {
    var chosen :| OneOfEach(chosen, pods) && targets == Targets(Members(chosen), nodes, rules);
    KindsSuffice(pods, chosen, nodes, rules);
  }

  /** A pod that could run on at least two nodes makes these targets, one that could not makes none,
      and the targets of several pods are those of each together. */
  lemma TargetsPodByPod(p: PodSpec, a: set<PodSpec>, b: set<PodSpec>, nodes: seq<Node>, rules: Rules)
    ensures |FeasibleNodes(p, nodes, rules)| >= 2 ==> Targets({p}, nodes, rules) == FeasibleNodes(p, nodes, rules)
    ensures |FeasibleNodes(p, nodes, rules)| < 2 ==> Targets({p}, nodes, rules) == {}
    ensures Targets(a + b, nodes, rules) == Targets(a, nodes, rules) + Targets(b, nodes, rules)
  {
  }

  /** Target nodes are nodes. */
  lemma TargetsAreNodes(pods: set<PodSpec>, nodes: seq<Node>, rules: Rules, name: string)
    requires name in Targets(pods, nodes, rules)
    ensures exists k :: 0 <= k < |nodes| && nodes[k].name == name
  {
    var p :| p in pods && |FeasibleNodes(p, nodes, rules)| > 1 && name in FeasibleNodes(p, nodes, rules);
    var n :| n in nodes && Feasible(p, n, rules) && n.name == name;
    var k :| 0 <= k < |nodes| && nodes[k] == n;
    assert nodes[k].name == name;
  }

  /** `getTargetNodes`, for any order of the pods: the nodes of one pod of each kind, which for
      admitted pods are the same as checking every pod gives. */
  method GetTargetNodes(pods: seq<PodSpec>, nodes: seq<Node>, rules: Rules) returns (targets: set<string>)
    ensures Shortcut(targets, Members(pods), nodes, rules)
    ensures (forall p :: p in pods ==> Admitted(p, rules)) ==> targets == Targets(Members(pods), nodes, rules)
  {
    var distinct := DistinctPods(pods);
    targets := {};
    for i := 0 to |distinct|
      invariant targets == Targets(Members(distinct[..i]), nodes, rules)
    {
      assert distinct[..i + 1] == distinct[..i] + [distinct[i]];
      MembersAppend(distinct[..i], distinct[i]);
      var matching := Matching(distinct[i], nodes, rules);
      TargetsAppend(Members(distinct[..i]), distinct[i], nodes, rules);
      if |matching| > 1 {
        targets := targets + matching;
      }
    }
    assert distinct[..|distinct|] == distinct;
    if forall p :: p in pods ==> Admitted(p, rules) {
      ShortcutIsExact(targets, Members(pods), nodes, rules);
    }
  }

  lemma TargetsAppend(pods: set<PodSpec>, p: PodSpec, nodes: seq<Node>, rules: Rules)
    ensures Targets(pods + {p}, nodes, rules) ==
            Targets(pods, nodes, rules) + if |FeasibleNodes(p, nodes, rules)| > 1 then FeasibleNodes(p, nodes, rules) else {}
  {
  }

  /** A "greater than" expression on key k. */
  function Over(values: seq<string>): Term {
    Term([Requirement("k", "Gt", values)], [])
  }

  lemma CopiesCompareEqual(v: string)
    ensures CanonTerms([Over([v, v])]) == CanonTerms([Over([v])])
  {
    assert Members([v, v]) == Members([v]);
    ValuesCompareAsSets([v, v], [v]);
    assert CanonAll(Over([v, v]).expressions) == CanonAll(Over([v]).expressions);
    assert CanonTerm(Over([v, v])) == CanonTerm(Over([v]));
  }

  lemma OverVerdict(values: seq<string>, node: Node, rules: Rules)
    ensures var r := Requirement("k", "Gt", values);
            SelectorVerdict([Over(values)], node, rules) ==
            if !Parses(r, rules) then Error else if Matches(r, node.labels, rules) then Match else NoMatch
  {
    var r := Requirement("k", "Gt", values);
    assert r in Over(values).expressions;
    assert Over(values) in [Over(values)] && forall t :: t in [Over(values)] ==> t == Over(values);
  }

  function Asking(values: seq<string>): PodSpec {
    PodSpec([], map[], Some([Over(values)]))
  }

  lemma AskingFeasible(values: seq<string>, node: Node, rules: Rules)
    requires node.taints == []
    ensures var r := Requirement("k", "Gt", values);
            Feasible(Asking(values), node, rules) <==> !Parses(r, rules) || Matches(r, node.labels, rules)
  {
    OverVerdict(values, node, rules);
  }

  lemma NodesForAsking(values: seq<string>, a: Node, b: Node, rules: Rules)
    requires a.taints == b.taints == [] && a.labels == b.labels && a.name != b.name
    ensures var r := Requirement("k", "Gt", values);
            FeasibleNodes(Asking(values), [a, b], rules) ==
            if !Parses(r, rules) || Matches(r, a.labels, rules) then {a.name, b.name} else {}
  {
    AskingFeasible(values, a, rules);
    AskingFeasible(values, b, rules);
    assert forall n :: n in [a, b] <==> n == a || n == b;
  }

  lemma TargetsDiffer(p: PodSpec, q: PodSpec, nodes: seq<Node>, rules: Rules, name: string)
    requires |FeasibleNodes(p, nodes, rules)| > 1 && name in FeasibleNodes(p, nodes, rules)
    requires FeasibleNodes(q, nodes, rules) == {}
    ensures Targets({q}, nodes, rules) != Targets({q, p}, nodes, rules)
  {
    assert name in Targets({q, p}, nodes, rules);
    assert name !in Targets({q}, nodes, rules);
  }

  lemma CopiesLandAnywhere(rules: Rules, v: string, a: Node, b: Node)
    requires a.taints == b.taints == [] && a.labels == b.labels && a.name != b.name
    ensures FeasibleNodes(Asking([v, v]), [a, b], rules) == {a.name, b.name}
  {
    NodesForAsking([v, v], a, b, rules);
  }

  lemma OneNumberRulesOut(rules: Rules, v: string, a: Node, b: Node)
    requires rules.number(v).Some? && rules.okKey("k") && rules.okValue("k", v)
    requires a.taints == b.taints == [] && a.labels == b.labels && a.name != b.name
    requires "k" in a.labels && rules.number(a.labels["k"]).Some? && rules.number(a.labels["k"]).value <= rules.number(v).value
    ensures FeasibleNodes(Asking([v]), [a, b], rules) == {}
  {
    NodesForAsking([v], a, b, rules);
  }

  lemma CopyStandsForBoth(v: string)
    ensures OneOfEach([Asking([v])], {Asking([v]), Asking([v, v])})
  {
    var p, q := Asking([v, v]), Asking([v]);
    CopiesCompareEqual(v);
    assert q in [q] && Alike(p, q) && Alike(q, q);
    assert Covered(p, [q]) && Covered(q, [q]);
  }

  lemma CopiesChangeTargets(rules: Rules, v: string, a: Node, b: Node)
    requires rules.number(v).Some? && rules.okKey("k") && rules.okValue("k", v)
    requires a.taints == b.taints == [] && a.labels == b.labels && a.name != b.name
    requires "k" in a.labels && rules.number(a.labels["k"]).Some? && rules.number(a.labels["k"]).value <= rules.number(v).value
    ensures Targets({Asking([v])}, [a, b], rules) != Targets({Asking([v]), Asking([v, v])}, [a, b], rules)
  {
    CopiesLandAnywhere(rules, v, a, b);
    OneNumberRulesOut(rules, v, a, b);
    assert |{a.name, b.name}| == 2;
    TargetsDiffer(Asking([v, v]), Asking([v]), [a, b], rules, a.name);
  }

  /** A selector the API server would refuse can mislead the shortcut: two copies of a number
      compare equal to one, but only the latter parses. Then the chosen pods stand for all pods,
      and yet do not give the same target nodes. */
  lemma RepeatedNumberMisleads(rules: Rules, v: string, a: Node, b: Node)
    requires rules.number(v).Some? && rules.okKey("k") && rules.okValue("k", v)
    requires a.taints == b.taints == [] && a.labels == b.labels && a.name != b.name
    requires "k" in a.labels && rules.number(a.labels["k"]).Some? && rules.number(a.labels["k"]).value <= rules.number(v).value
    ensures OneOfEach([Asking([v])], {Asking([v]), Asking([v, v])})
    ensures Targets({Asking([v])}, [a, b], rules) != Targets({Asking([v]), Asking([v, v])}, [a, b], rules)
  {
    CopiesChangeTargets(rules, v, a, b);
    CopyStandsForBoth(v);
  }
}
