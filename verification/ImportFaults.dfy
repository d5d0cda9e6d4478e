/**
 Which faults of a package are reported, and when it can be imported, on the package and the rows of the subject alone
 (src/content-import/import-validator.ts:38-147).
 */
module ImportFaults {
  import opened Basics
  import opened PrerequisiteGraph
  import opened ImportPlan
  import opened ImportResolver
  import opened ImportAcceptance

  /** The list of codes a reference is in. */
  function CodesOf(p: Plan, holder: Holder): seq<string> {
    match holder
    case OfLesson(i) => if i < |p.lessons| then p.lessons[i].skillCodes else []
    case OfActivity(i, a) =>
      if i < |p.lessons| && a < |p.lessons[i].revision.activities| then p.lessons[i].revision.activities[a].skillCodes else []
  }

  /** A declared skill clashes with the subject: its code is archived or named otherwise, or its name is under another code. */
  ghost predicate SkillClashes(input: Input, s: Skill, code: Code) {
    var known := SkillByCode(input.skills, s.code);
    || (code == SkillArchived && known.Some? && known.value.status.SkillRetired?)
    || (code == SkillConflict && known.Some? && known.value.status.SkillActive? && Trim(known.value.name) != Trim(s.name))
    || (code == SkillConflict && known.None? && exists e: ExistingSkill :: e in input.skills && Trim(e.name) == Trim(s.name))
  }

  /** A reference the package does not declare is unknown to the subject, or archived there. */
  ghost predicate RefFails(input: Input, skill: string, code: Code) {
    var known := SkillByCode(input.skills, skill);
    && (forall i :: 0 <= i < |input.plan.skills| ==> input.plan.skills[i].code != skill)
    && ((code == SkillNotFound && known.None?) || (code == SkillArchived && known.Some? && known.value.status.SkillRetired?))
  }

  /** A prerequisite is the lesson itself, or no lesson of the package and none that is there, of the subject and not archived. */
  ghost predicate TargetFails(input: Input, source: string, target: string, code: Code) {
    var known := LessonByKey(input.lessons, target);
    if target == source then code == PrerequisiteCycle
    else
      && (forall j :: 0 <= j < |input.plan.lessons| ==> input.plan.lessons[j].contentKey != target)
      && (|| (code == PrerequisiteNotFound && known.None?)
          || (code == PrerequisiteSubjectMismatch && known.Some? && known.value.subject != input.subject)
          || (code == PrerequisiteArchived && known.Some? && known.value.subject == input.subject && known.value.status.ARCHIVED?))
  }

  /** The fault an issue names is there: every fault but a cycle through other lessons. */
  ghost predicate Faulty(input: Input, issue: Issue) {
    var p := input.plan;
    match issue.spot
    case LessonSpot(i) =>
      && i < |p.lessons| && issue.code == ContentKeyExists
      && exists l: ExistingLesson :: l in input.lessons && l.contentKey == p.lessons[i].contentKey
    case SkillSpot(i) => i < |p.skills| && SkillClashes(input, p.skills[i], issue.code)
    case SkillRefSpot(holder, k) => k < |CodesOf(p, holder)| && RefFails(input, CodesOf(p, holder)[k], issue.code)
    case PrerequisiteSpot(i, k) =>
      && i < |p.lessons| && k < |p.lessons[i].prerequisites|
      && TargetFails(input, p.lessons[i].contentKey, p.lessons[i].prerequisites[k], issue.code)
    case SkillListSpot(_) => false
    case PrerequisiteListSpot(_) => false
  }

  // ---- references and requirements, by their places ----

  lemma {:induction false} ListRefsAre(codes: seq<string>, holder: Holder, n: nat, ref: SkillRef)
    requires n <= |codes|
    ensures ref in ListRefs(codes, holder, n) <==>
            ref.spot.SkillRefSpot? && ref.spot.holder == holder && ref.spot.index < n && ref.code == codes[ref.spot.index]
  {
    if n > 0 {
      ListRefsAre(codes, holder, n - 1, ref);
    }
  }

  lemma {:induction false} ActivityRefsAre(activities: seq<Activity>, i: nat, n: nat, ref: SkillRef)
    requires n <= |activities|
    ensures ref in ActivityRefs(activities, i, n) <==>
            && ref.spot.SkillRefSpot? && ref.spot.holder.OfActivity? && ref.spot.holder.lesson == i && ref.spot.holder.activity < n
            && ref.spot.index < |activities[ref.spot.holder.activity].skillCodes|
            && ref.code == activities[ref.spot.holder.activity].skillCodes[ref.spot.index]
  {
    if n > 0 {
      ActivityRefsAre(activities, i, n - 1, ref);
      ListRefsAre(activities[n - 1].skillCodes, OfActivity(i, n - 1), |activities[n - 1].skillCodes|, ref);
      hide ListRefs;
    }
  }

  predicate IsRef(p: Plan, ref: SkillRef) {
    && ref.spot.SkillRefSpot? && ref.spot.index < |CodesOf(p, ref.spot.holder)|
    && ref.code == CodesOf(p, ref.spot.holder)[ref.spot.index]
  }

  lemma {:induction false} RefsAre(p: Plan, n: nat, ref: SkillRef)
    requires n <= |p.lessons|
    ensures ref in SkillRefs(p.lessons, n) <==> IsRef(p, ref) && ref.spot.holder.lesson < n
  {
    if n > 0 {
      RefsAre(p, n - 1, ref);
      var l := p.lessons[n - 1];
      ListRefsAre(l.skillCodes, OfLesson(n - 1), |l.skillCodes|, ref);
      ActivityRefsAre(l.revision.activities, n - 1, |l.revision.activities|, ref);
      hide ListRefs, ActivityRefs;
    }
  }

  lemma {:induction false} ListRequirementsAre(l: Lesson, i: nat, n: nat, req: Requirement)
    requires n <= |l.prerequisites|
    ensures req in ListRequirements(l, i, n) <==>
            && req.spot.PrerequisiteSpot? && req.spot.lesson == i && req.spot.index < n
            && req.source == l.contentKey && req.target == l.prerequisites[req.spot.index]
  {
    if n > 0 {
      ListRequirementsAre(l, i, n - 1, req);
    }
  }

  predicate IsRequirement(p: Plan, req: Requirement) {
    && req.spot.PrerequisiteSpot? && req.spot.lesson < |p.lessons|
    && var l := p.lessons[req.spot.lesson];
    req.spot.index < |l.prerequisites| && req.source == l.contentKey && req.target == l.prerequisites[req.spot.index]
  }

  lemma {:induction false} RequirementsAre(p: Plan, n: nat, req: Requirement)
    requires n <= |p.lessons|
    ensures req in Requirements(p.lessons, n) <==> IsRequirement(p, req) && req.spot.lesson < n
  {
    if n > 0 {
      RequirementsAre(p, n - 1, req);
      ListRequirementsAre(p.lessons[n - 1], n - 1, |p.lessons[n - 1].prerequisites|, req);
      hide ListRequirements;
    }
  }

  // ---- the reported issues ----

  lemma {:induction false} KeyIssuesAre(input: Input, n: nat, issue: Issue)
    requires n <= |input.plan.lessons|
    ensures issue in KeyIssues(input, n) <==> issue.spot.LessonSpot? && issue.spot.lesson < n && Faulty(input, issue)
  {
    if n > 0 {
      KeyIssuesAre(input, n - 1, issue);
      hide SkillClashes, RefFails, TargetFails;
    }
  }

  lemma FatesAre(input: Input, s: Skill, code: Code)
    ensures FateOf(input, s) == Refused(code) <==> SkillClashes(input, s, code)
  {
    hide Trim;
  }

  lemma {:induction false} SkillIssuesAre(input: Input, n: nat, issue: Issue)
    requires n <= |input.plan.skills|
    ensures issue in SkillIssues(input, n) <==> issue.spot.SkillSpot? && issue.spot.skill < n && Faulty(input, issue)
  {
    if n > 0 {
      SkillIssuesAre(input, n - 1, issue);
      FatesAre(input, input.plan.skills[n - 1], issue.code);
      hide FateOf, SkillClashes, RefFails, TargetFails;
    }
  }

  lemma RefFatesAre(input: Input, skill: string, code: Code)
    ensures RefFateOf(input, skill) == Unresolved(code) <==> RefFails(input, skill, code)
  {
  }

  lemma {:induction false} RefIssuesAre(input: Input, refs: seq<SkillRef>, issue: Issue)
    ensures issue in RefIssues(input, refs) <==>
            exists ref: SkillRef :: ref in refs && ref.spot == issue.spot && RefFails(input, ref.code, issue.code)
  {
    if refs != [] {
      var rest, last := refs[..|refs| - 1], refs[|refs| - 1];
      RefIssuesAre(input, rest, issue);
      RefFatesAre(input, last.code, issue.code);
      assert refs == rest + [last];
      hide RefFateOf, RefFails;
    }
  }

  lemma TargetFatesAre(input: Input, req: Requirement, code: Code)
    ensures TargetOf(input, req) == NoTarget(code) <==> TargetFails(input, req.source, req.target, code)
  {
  }

  /** An issue of the requirements is a fault of its target, or a cycle closed by it. */
  lemma {:induction false} RequirementIssuesAre(input: Input, reqs: seq<Requirement>, issue: Issue)
    ensures (exists req: Requirement :: req in reqs && req.spot == issue.spot && TargetFails(input, req.source, req.target, issue.code))
            ==> issue in RequirementIssues(input, reqs)
    ensures issue in RequirementIssues(input, reqs) ==>
            || (exists req: Requirement :: req in reqs && req.spot == issue.spot && TargetFails(input, req.source, req.target, issue.code))
            || (issue.code == PrerequisiteCycle && exists req: Requirement :: req in reqs && req.spot == issue.spot)
  {
    if reqs != [] {
      var rest, last := reqs[..|reqs| - 1], reqs[|reqs| - 1];
      RequirementIssuesAre(input, rest, issue);
      TargetFatesAre(input, last, issue.code);
      assert reqs == rest + [last];
      hide TargetOf, TargetFails, Reach, Accumulated;
    }
  }

  lemma OthersAreFaults(input: Input, issue: Issue)
    ensures issue in KeyIssues(input, |input.plan.lessons|) || issue in SkillIssues(input, |input.plan.skills|)
            || issue in RefIssues(input, AllRefs(input.plan))
            <==> Faulty(input, issue) && !issue.spot.PrerequisiteSpot?
  {
    var p := input.plan;
    KeyIssuesAre(input, |p.lessons|, issue);
    SkillIssuesAre(input, |p.skills|, issue);
    RefIssuesAre(input, AllRefs(p), issue);
    forall ref ensures ref in AllRefs(p) <==> IsRef(p, ref) {
      RefsAre(p, |p.lessons|, ref);
    }
    hide KeyIssues, SkillIssues, RefIssues, SkillClashes, RefFails, TargetFails, AllRefs;
    if issue.spot.SkillRefSpot? && issue.spot.index < |CodesOf(p, issue.spot.holder)| {
      assert IsRef(p, SkillRef(issue.spot, CodesOf(p, issue.spot.holder)[issue.spot.index]));
    }
  }

  lemma RequirementFault(input: Input, issue: Issue)
    ensures (exists req: Requirement :: req in AllRequirements(input.plan) && req.spot == issue.spot
                                        && TargetFails(input, req.source, req.target, issue.code))
            <==> Faulty(input, issue) && issue.spot.PrerequisiteSpot?
  {
    var p := input.plan;
    forall req ensures req in AllRequirements(p) <==> IsRequirement(p, req) {
      RequirementsAre(p, |p.lessons|, req);
    }
    hide SkillClashes, RefFails, TargetFails, AllRequirements;
    if Faulty(input, issue) && issue.spot.PrerequisiteSpot? {
      var i, k := issue.spot.lesson, issue.spot.index;
      assert IsRequirement(p, Requirement(issue.spot, p.lessons[i].contentKey, p.lessons[i].prerequisites[k]));
    }
  }

  /** Every fault is reported at its place with its code, and what is reported is a fault there or a cycle closed there. */
  lemma FaultsAreReported(input: Input, issue: Issue)
    ensures Faulty(input, issue) ==> issue in Issues(input)
    ensures issue in Issues(input) ==> Faulty(input, issue) || issue.code == PrerequisiteCycle
  {
    OthersAreFaults(input, issue);
    RequirementIssuesAre(input, AllRequirements(input.plan), issue);
    RequirementFault(input, issue);
    hide Faulty, KeyIssues, SkillIssues, RefIssues, RequirementIssues, AllRefs, AllRequirements, TargetFails;
  }

  // ---- the graph of the package ----

  /** The edge prerequisite `k` of lesson `i` proposes: to a lesson of the package, or to one that is there and fits. */
  predicate ProposesEdge(input: Input, i: nat, k: nat, e: Edge) {
    && i < |input.plan.lessons| && k < |input.plan.lessons[i].prerequisites|
    && var source, target := input.plan.lessons[i].contentKey, input.plan.lessons[i].prerequisites[k];
    var known := LessonByKey(input.lessons, target);
    && target != source && e.lesson == "new:" + source
    && if exists j :: 0 <= j < |input.plan.lessons| && input.plan.lessons[j].contentKey == target then e.prerequisite == "new:" + target
       else known.Some? && known.value.subject == input.subject && !known.value.status.ARCHIVED? && e.prerequisite == known.value.id
  }

  lemma ProposedExactly(input: Input, e: Edge)
    ensures e in Proposed(input, AllRequirements(input.plan)) <==> exists i: nat, k: nat :: ProposesEdge(input, i, k, e)
  {
    var p, reqs := input.plan, AllRequirements(input.plan);
    forall req ensures req in reqs <==> IsRequirement(p, req) {
      RequirementsAre(p, |p.lessons|, req);
    }
    hide AllRequirements, LessonByKey;
    if e in Proposed(input, reqs) {
      var r :| 0 <= r < |reqs| && TargetOf(input, reqs[r]).Target? && e == Edge(NewNode(reqs[r].source), TargetOf(input, reqs[r]).node);
      assert reqs[r] in reqs;
      assert ProposesEdge(input, reqs[r].spot.lesson, reqs[r].spot.index, e);
    }
    if exists i: nat, k: nat :: ProposesEdge(input, i, k, e) {
      var i: nat, k: nat :| ProposesEdge(input, i, k, e);
      var req := Requirement(PrerequisiteSpot(i, k), p.lessons[i].contentKey, p.lessons[i].prerequisites[k]);
      assert IsRequirement(p, req);
      var r :| 0 <= r < |reqs| && reqs[r] == req;
    }
  }

  lemma {:induction false} AccumulatedWithin(input: Input, reqs: seq<Requirement>)
    ensures Accumulated(input, reqs) <= EdgeSet(input.edges) + Proposed(input, reqs)
  {
    if reqs != [] {
      AccumulatedWithin(input, reqs[..|reqs| - 1]);
      ProposedMore(input, reqs);
      hide TargetOf, NewNode, EdgeSet, Reach, Proposed;
    }
  }

  /** While the existing and the proposed edges close no cycle, no requirement closes one with those before it. */
  lemma NothingClosed(input: Input, reqs: seq<Requirement>)
    requires reqs != [] && Acyclic(EdgeSet(input.edges) + Proposed(input, reqs))
    ensures var rest, last := reqs[..|reqs| - 1], reqs[|reqs| - 1];
            && Acyclic(EdgeSet(input.edges) + Proposed(input, rest))
            && (TargetOf(input, last).Target? ==>
                  !Reach(Accumulated(input, rest), TargetOf(input, last).node, NewNode(last.source)))
  {
    var rest, last := reqs[..|reqs| - 1], reqs[|reqs| - 1];
    var all, target := EdgeSet(input.edges) + Proposed(input, reqs), TargetOf(input, last);
    ProposedMore(input, reqs);
    AccumulatedWithin(input, rest);
    hide TargetOf, NewNode, EdgeSet, Reach, Proposed, Accumulated, Acyclic;
    AcyclicPart(EdgeSet(input.edges) + Proposed(input, rest), all);
    if target.Target? {
      AcyclicPart(Accumulated(input, rest), all);
      AcyclicPart(Accumulated(input, rest) + {Edge(NewNode(last.source), target.node)}, all);
      Decide(Accumulated(input, rest), NewNode(last.source), target.node);
    }
  }

  lemma {:induction false} CycleIsReal(input: Input, reqs: seq<Requirement>, issue: Issue)
    requires Acyclic(EdgeSet(input.edges) + Proposed(input, reqs)) && issue in RequirementIssues(input, reqs)
    ensures exists req: Requirement :: req in reqs && req.spot == issue.spot && TargetFails(input, req.source, req.target, issue.code)
  {
    var rest, last := reqs[..|reqs| - 1], reqs[|reqs| - 1];
    NothingClosed(input, reqs);
    TargetFatesAre(input, last, issue.code);
    hide TargetOf, TargetFails, NewNode, EdgeSet, Reach, Proposed, Accumulated, Acyclic, LessonByKey, InPlan;
    assert last in reqs && forall req :: req in rest ==> req in reqs;
    if issue in RequirementIssues(input, rest) {
      CycleIsReal(input, rest, issue);
    } else {
      assert TargetOf(input, last).NoTarget? && issue == Issue(TargetOf(input, last).code, last.spot);
    }
  }

  /** Without a cycle, the reported issues are exactly the faults. */
  lemma IssuesAreFaults(input: Input, issue: Issue)
    requires Acyclic(EdgeSet(input.edges) + Proposed(input, AllRequirements(input.plan)))
    ensures issue in Issues(input) <==> Faulty(input, issue)
  {
    FaultsAreReported(input, issue);
    OthersAreFaults(input, issue);
    hide Acyclic, Proposed, Faulty, KeyIssues, SkillIssues, RefIssues, RequirementIssues, AllRefs, AllRequirements;
    if issue in RequirementIssues(input, AllRequirements(input.plan)) {
      CycleIsReal(input, AllRequirements(input.plan), issue);
      RequirementFault(input, issue);
    }
  }

  /** A package can be imported exactly when it has no fault and its edges close no cycle with those of the subject. */
  lemma ImportableExactly(input: Input)
    requires Acyclic(EdgeSet(input.edges))
    ensures Importable(input) <==>
              && (forall issue :: !Faulty(input, issue))
              && Acyclic(EdgeSet(input.edges) + Proposed(input, AllRequirements(input.plan)))
  {
    AcceptedExactly(input);
    hide Acyclic, Proposed, Issues, Faulty, KeysFree, SkillsFit, RefsFit, TargetsFit, EdgeSet, AllRequirements;
    var issues := Issues(input);
    if Importable(input) {
      forall issue ensures !Faulty(input, issue) {
        FaultsAreReported(input, issue);
      }
    }
    if (forall issue :: !Faulty(input, issue)) && Acyclic(EdgeSet(input.edges) + Proposed(input, AllRequirements(input.plan))) {
      if issues != [] {
        IssuesAreFaults(input, issues[0]);
      }
    }
  }
}
