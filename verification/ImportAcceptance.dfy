/** When the resolver reports nothing: the conditions on the plan and the database, and the acyclicity of the result. */
module ImportAcceptance {
  import opened PrerequisiteGraph
  import opened ImportPlan
  import opened ImportResolver

  ghost predicate KeysFree(input: Input) {
    forall i :: 0 <= i < |input.plan.lessons| ==> LessonByKey(input.lessons, input.plan.lessons[i].contentKey).None?
  }

  ghost predicate SkillsFit(input: Input) {
    forall i :: 0 <= i < |input.plan.skills| ==> !FateOf(input, input.plan.skills[i]).Refused?
  }

  ghost predicate RefsFit(input: Input, refs: seq<SkillRef>) {
    forall r :: 0 <= r < |refs| ==> !RefFateOf(input, refs[r].code).Unresolved?
  }

  ghost predicate TargetsFit(input: Input, reqs: seq<Requirement>) {
    forall r :: 0 <= r < |reqs| ==> TargetOf(input, reqs[r]).Target?
  }

  /** The edges the plan proposes, between synthetic nodes and existing lessons. */
  function Proposed(input: Input, reqs: seq<Requirement>): set<Edge> {
    set r | 0 <= r < |reqs| && TargetOf(input, reqs[r]).Target?
      :: Edge(NewNode(reqs[r].source), TargetOf(input, reqs[r]).node)
  }

  ghost predicate Importable(input: Input) {
    && KeysFree(input) && SkillsFit(input) && RefsFit(input, AllRefs(input.plan))
    && TargetsFit(input, AllRequirements(input.plan))
    && Acyclic(EdgeSet(input.edges) + Proposed(input, AllRequirements(input.plan)))
  }

  lemma {:induction false} KeysExact(input: Input, n: nat)
    requires n <= |input.plan.lessons|
    ensures KeyIssues(input, n) == []
            <==> forall i :: 0 <= i < n ==> LessonByKey(input.lessons, input.plan.lessons[i].contentKey).None?
  {
    hide LessonByKey;
    if n > 0 {
      KeysExact(input, n - 1);
    }
  }

  lemma {:induction false} SkillsExact(input: Input, n: nat)
    requires n <= |input.plan.skills|
    ensures SkillIssues(input, n) == [] <==> forall i :: 0 <= i < n ==> !FateOf(input, input.plan.skills[i]).Refused?
  {
    hide FateOf;
    if n > 0 {
      SkillsExact(input, n - 1);
    }
  }

  lemma {:induction false} RefsExact(input: Input, refs: seq<SkillRef>)
    ensures RefIssues(input, refs) == [] <==> RefsFit(input, refs)
  {
    if refs != [] {
      hide RefFateOf;
      RefsExact(input, refs[..|refs| - 1]);
    }
  }

  lemma ProposedMore(input: Input, reqs: seq<Requirement>)
    requires |reqs| > 0
    ensures var rest, target := reqs[..|reqs| - 1], TargetOf(input, reqs[|reqs| - 1]);
            Proposed(input, reqs)
            == Proposed(input, rest)
               + if target.Target? then {Edge(NewNode(reqs[|reqs| - 1].source), target.node)} else {}
  {
    hide TargetOf, NewNode;
    var rest := reqs[..|reqs| - 1];
    assert forall r :: 0 <= r < |rest| ==> rest[r] == reqs[r];
  }

  /** The accumulated graph is acyclic, and no requirement is refused exactly when all of them together close no cycle. */
  lemma {:induction false} RequirementsExact(input: Input, reqs: seq<Requirement>)
    requires Acyclic(EdgeSet(input.edges))
    ensures Acyclic(Accumulated(input, reqs))
    ensures RequirementIssues(input, reqs) == []
            ==> TargetsFit(input, reqs) && Accumulated(input, reqs) == EdgeSet(input.edges) + Proposed(input, reqs)
    ensures TargetsFit(input, reqs) && Acyclic(EdgeSet(input.edges) + Proposed(input, reqs))
            ==> RequirementIssues(input, reqs) == []
  {
    hide TargetOf, NewNode, EdgeSet, Reach, Acyclic, Cyclic;
    if reqs != [] {
      var rest, last := reqs[..|reqs| - 1], reqs[|reqs| - 1];
      var base, graph := EdgeSet(input.edges), Accumulated(input, rest);
      RequirementsExact(input, rest);
      ProposedMore(input, reqs);
      hide Proposed;
      var target := TargetOf(input, last);
      if target.Target? {
        Decide(graph, NewNode(last.source), target.node);
      }
      if TargetsFit(input, reqs) && Acyclic(base + Proposed(input, reqs)) {
        AcyclicPart(base + Proposed(input, rest), base + Proposed(input, reqs));
        assert base + Proposed(input, reqs) == base + Proposed(input, rest) + {Edge(NewNode(last.source), target.node)};
      }
    } else {
      assert EdgeSet(input.edges) + Proposed(input, reqs) == EdgeSet(input.edges);
    }
  }

  lemma AcyclicPart(edges: set<Edge>, more: set<Edge>)
    requires Acyclic(more) && edges <= more
    ensures Acyclic(edges)
  {
    SubgraphAcyclic(edges, more);
  }

  lemma Decide(graph: set<Edge>, source: Node, target: Node)
    requires Acyclic(graph)
    ensures Reach(graph, target, source) <==> !Acyclic(graph + {Edge(source, target)})
  {
    GuardIsExact(graph, source, target);
  }

  /** On an acyclic subject graph the dry run reports no issue exactly when the package can be imported. */
  lemma AcceptedExactly(input: Input)
    requires Acyclic(EdgeSet(input.edges))
    ensures Issues(input) == [] <==> Importable(input)
  {
    hide KeyIssues, SkillIssues, RefIssues, RequirementIssues, Accumulated, FateOf, RefFateOf, TargetOf, Acyclic;
    KeysExact(input, |input.plan.lessons|);
    SkillsExact(input, |input.plan.skills|);
    RefsExact(input, AllRefs(input.plan));
    RequirementsExact(input, AllRequirements(input.plan));
  }
}
