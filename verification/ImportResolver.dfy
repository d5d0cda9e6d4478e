/** Resolution of a content package against the destination subject (src/content-import/import-validator.ts:38-147). */
module ImportResolver {
  import opened Basics
  import opened PrerequisiteGraph
  import opened ImportPlan

  datatype LessonStatus = DRAFT | PUBLISHED | ARCHIVED

  datatype SkillStatus = SkillActive | SkillRetired

  datatype ExistingLesson = ExistingLesson(id: Node, contentKey: string, status: LessonStatus, subject: string)

  datatype ExistingSkill = ExistingSkill(id: string, code: Option<string>, name: string, status: SkillStatus)

  /** `edges` is the prerequisite graph of the whole subject. */
  datatype Input = Input(
    subject: string, plan: Plan, lessons: seq<ExistingLesson>, skills: seq<ExistingSkill>, edges: seq<Edge>)

  datatype Summary = Summary(
    skillsToCreate: nat, skillsReused: nat, lessonsToCreate: nat, revisionsToCreate: nat, activitiesToCreate: nat,
    lessonSkillMappings: nat, activitySkillMappings: nat, prerequisitesToCreate: nat)

  datatype Resolution = Resolution(skillIdByCode: map<string, string>, lessonIdByKey: map<string, Node>)

  /** The node of a lesson not yet created. */
  function NewNode(contentKey: string): Node { "new:" + contentKey }

  // ---- lookups: of several rows under one key the last one counts ----

  function LessonByKey(lessons: seq<ExistingLesson>, key: string): (r: Option<ExistingLesson>)
    ensures r.Some? ==> r.value in lessons && r.value.contentKey == key
    ensures r.None? ==> forall l :: l in lessons ==> l.contentKey != key
  {
    if lessons == [] then None
    else
      var last := lessons[|lessons| - 1];
      if last.contentKey == key then Some(last) else LessonByKey(lessons[..|lessons| - 1], key)
  }

  function SkillByCode(skills: seq<ExistingSkill>, code: string): (r: Option<ExistingSkill>)
    ensures r.Some? ==> r.value in skills && r.value.code == Some(code)
  {
    if skills == [] || code == "" then None
    else
      var last := skills[|skills| - 1];
      if last.code == Some(code) then Some(last) else SkillByCode(skills[..|skills| - 1], code)
  }

  function SkillByName(skills: seq<ExistingSkill>, name: string): (r: Option<ExistingSkill>)
    ensures r.Some? ==> r.value in skills && Trim(r.value.name) == name
    ensures r.None? ==> forall s :: s in skills ==> Trim(s.name) != name
  {
    if skills == [] then None
    else
      var last := skills[|skills| - 1];
      if Trim(last.name) == name then Some(last) else SkillByName(skills[..|skills| - 1], name)
  }

  /** The last lesson under the key is the one that counts. */
  lemma {:induction false} LastLessonCounts(lessons: seq<ExistingLesson>, key: string, i: nat)
    requires i < |lessons| && lessons[i].contentKey == key && forall j :: i < j < |lessons| ==> lessons[j].contentKey != key
    ensures LessonByKey(lessons, key) == Some(lessons[i])
  {
    if i < |lessons| - 1 {
      LastLessonCounts(lessons[..|lessons| - 1], key, i);
    }
  }

  /** The last skill under the code is the one that counts; an empty code is none. */
  lemma {:induction false} LastSkillCounts(skills: seq<ExistingSkill>, code: string, i: nat)
    requires i < |skills| && skills[i].code == Some(code) && forall j :: i < j < |skills| ==> skills[j].code != Some(code)
    ensures SkillByCode(skills, code) == if code == "" then None else Some(skills[i])
  {
    if i < |skills| - 1 {
      LastSkillCounts(skills[..|skills| - 1], code, i);
    }
  }

  ghost predicate IndexesLessons(m: map<string, ExistingLesson>, lessons: seq<ExistingLesson>) {
    forall k :: LessonByKey(lessons, k) == if k in m then Some(m[k]) else None
  }

  ghost predicate IndexesCodes(m: map<string, ExistingSkill>, skills: seq<ExistingSkill>) {
    forall k :: SkillByCode(skills, k) == if k in m then Some(m[k]) else None
  }

  ghost predicate IndexesNames(m: map<string, ExistingSkill>, skills: seq<ExistingSkill>) {
    forall k :: SkillByName(skills, k) == if k in m then Some(m[k]) else None
  }

  method IndexLessons(lessons: seq<ExistingLesson>) returns (m: map<string, ExistingLesson>)
    ensures IndexesLessons(m, lessons)
  {
    m := map[];
    for i := 0 to |lessons|
      invariant IndexesLessons(m, lessons[..i])
    {
      assert lessons[..i + 1][..i] == lessons[..i];
      m := m[lessons[i].contentKey := lessons[i]];
    }
    assert lessons[..|lessons|] == lessons;
  }

  method IndexSkills(skills: seq<ExistingSkill>)
    returns (byCode: map<string, ExistingSkill>, byName: map<string, ExistingSkill>)
    ensures IndexesCodes(byCode, skills) && IndexesNames(byName, skills)
  {
    byCode, byName := map[], map[];
    for i := 0 to |skills|
      invariant IndexesCodes(byCode, skills[..i]) && IndexesNames(byName, skills[..i])
    {
      assert skills[..i + 1][..i] == skills[..i];
      var s := skills[i];
      if s.code.Some? && s.code.value != "" {
        byCode := byCode[s.code.value := s];
      }
      byName := byName[Trim(s.name) := s];
    }
    assert skills[..|skills|] == skills;
  }

  // ---- what becomes of each item of the plan ----

  /** A declared skill is reused, created, or refused with a code. */
  datatype SkillFate = Reused(id: string) | Created | Refused(code: Code)

  function FateOf(input: Input, s: Skill): SkillFate {
    var existing := SkillByCode(input.skills, s.code);
    if existing.Some? then
      if existing.value.status.SkillRetired? then Refused(SkillArchived)
      else if Trim(existing.value.name) != Trim(s.name) then Refused(SkillConflict)
      else Reused(existing.value.id)
    else if SkillByName(input.skills, Trim(s.name)).Some? then Refused(SkillConflict)
    else Created
  }

  predicate Declares(p: Plan, code: string) { exists i :: 0 <= i < |p.skills| && p.skills[i].code == code }

  datatype RefFate = InBatch | Existing(id: string) | Unresolved(code: Code)

  function RefFateOf(input: Input, code: string): RefFate {
    if Declares(input.plan, code) then InBatch
    else
      var existing := SkillByCode(input.skills, code);
      if existing.None? then Unresolved(SkillNotFound)
      else if !existing.value.status.SkillActive? then Unresolved(SkillArchived)
      else Existing(existing.value.id)
  }

  predicate InPlan(p: Plan, key: string) { exists i :: 0 <= i < |p.lessons| && p.lessons[i].contentKey == key }

  datatype TargetFate = Target(node: Node) | NoTarget(code: Code)

  function TargetOf(input: Input, r: Requirement): TargetFate {
    if r.target == r.source then NoTarget(PrerequisiteCycle)
    else if InPlan(input.plan, r.target) then Target(NewNode(r.target))
    else
      var existing := LessonByKey(input.lessons, r.target);
      if existing.None? then NoTarget(PrerequisiteNotFound)
      else if existing.value.subject != input.subject then NoTarget(PrerequisiteSubjectMismatch)
      else if existing.value.status.ARCHIVED? then NoTarget(PrerequisiteArchived)
      else Target(existing.value.id)
  }

  // ---- the issues, in the order they are reported ----

  function KeyIssues(input: Input, n: nat): seq<Issue>
    requires n <= |input.plan.lessons|
  {
    if n == 0 then []
    else
      KeyIssues(input, n - 1)
      + if LessonByKey(input.lessons, input.plan.lessons[n - 1].contentKey).Some?
        then [Issue(ContentKeyExists, LessonSpot(n - 1))] else []
  }

  function SkillIssues(input: Input, n: nat): seq<Issue>
    requires n <= |input.plan.skills|
  {
    if n == 0 then []
    else
      var fate := FateOf(input, input.plan.skills[n - 1]);
      SkillIssues(input, n - 1) + if fate.Refused? then [Issue(fate.code, SkillSpot(n - 1))] else []
  }

  function RefIssues(input: Input, refs: seq<SkillRef>): seq<Issue> {
    if refs == [] then []
    else
      var last := refs[|refs| - 1];
      var fate := RefFateOf(input, last.code);
      RefIssues(input, refs[..|refs| - 1]) + if fate.Unresolved? then [Issue(fate.code, last.spot)] else []
  }

  /** The graph after a list of requirements: the subject's edges and the proposed edges that closed no cycle. */
  ghost function Accumulated(input: Input, reqs: seq<Requirement>): set<Edge> {
    if reqs == [] then EdgeSet(input.edges)
    else
      var graph, last := Accumulated(input, reqs[..|reqs| - 1]), reqs[|reqs| - 1];
      var target := TargetOf(input, last);
      if target.Target? && !Reach(graph, target.node, NewNode(last.source))
      then graph + {Edge(NewNode(last.source), target.node)} else graph
  }

  ghost function RequirementIssues(input: Input, reqs: seq<Requirement>): seq<Issue> {
    if reqs == [] then []
    else
      var rest, last := reqs[..|reqs| - 1], reqs[|reqs| - 1];
      var target := TargetOf(input, last);
      RequirementIssues(input, rest)
      + if target.NoTarget? then [Issue(target.code, last.spot)]
        else if Reach(Accumulated(input, rest), target.node, NewNode(last.source))
        then [Issue(PrerequisiteCycle, last.spot)] else []
  }

  ghost function Issues(input: Input): seq<Issue> {
    KeyIssues(input, |input.plan.lessons|) + SkillIssues(input, |input.plan.skills|)
    + RefIssues(input, AllRefs(input.plan)) + RequirementIssues(input, AllRequirements(input.plan))
  }

  // ---- counts and maps ----

  function CreatedSkills(input: Input, n: nat): nat
    requires n <= |input.plan.skills|
  {
    if n == 0 then 0
    else CreatedSkills(input, n - 1) + if FateOf(input, input.plan.skills[n - 1]).Created? then 1 else 0
  }

  function Targets(input: Input, reqs: seq<Requirement>): nat {
    if reqs == [] then 0
    else Targets(input, reqs[..|reqs| - 1]) + if TargetOf(input, reqs[|reqs| - 1]).Target? then 1 else 0
  }

  /** The existing skills that the first `n` declarations and the references reuse, by code. */
  ghost predicate ReusesSkill(input: Input, n: nat, refs: seq<SkillRef>, code: string)
    requires n <= |input.plan.skills|
  {
    || (exists i :: 0 <= i < n && input.plan.skills[i].code == code && FateOf(input, input.plan.skills[i]).Reused?)
    || (exists r :: 0 <= r < |refs| && refs[r].code == code && RefFateOf(input, code).Existing?)
  }

  ghost predicate SkillMap(input: Input, n: nat, refs: seq<SkillRef>, ids: map<string, string>, reused: set<string>)
    requires n <= |input.plan.skills|
  {
    && (forall code :: code in ids <==> ReusesSkill(input, n, refs, code))
    && (forall code :: code in ids ==> SkillByCode(input.skills, code).Some?
                                       && ids[code] == SkillByCode(input.skills, code).value.id)
    && reused == ids.Values
  }

  ghost predicate NeedsLesson(input: Input, reqs: seq<Requirement>, key: string) {
    !InPlan(input.plan, key)
    && exists r :: 0 <= r < |reqs| && reqs[r].target == key && TargetOf(input, reqs[r]).Target?
  }

  ghost predicate LessonMap(input: Input, reqs: seq<Requirement>, ids: map<string, Node>) {
    && (forall key :: key in ids <==> NeedsLesson(input, reqs, key))
    && (forall key :: key in ids ==> LessonByKey(input.lessons, key).Some?
                                     && ids[key] == LessonByKey(input.lessons, key).value.id)
  }
}
