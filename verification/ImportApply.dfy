/**
 Applying a package: revalidate, refuse on any issue, else write the whole batch; and what the written batch is worth.
 (src/content-import/import.service.ts:100-251)
 */
module ImportApply {
  import opened Basics
  import opened PrerequisiteGraph
  import opened ImportPlan
  import opened ImportResolver
  import opened ImportValidator
  import opened ImportAcceptance
  import opened ImportWriter
  import opened ImportBatch

  datatype Written = Written(
    skills: seq<Row<Skill>>, lessons: seq<Row<Lesson>>, revisions: seq<Row<RevisionData>>,
    activities: seq<Row<ActivityData>>, lessonSkills: seq<Link>, activitySkills: seq<Link>, prerequisites: seq<Edge>,
    skillIds: map<string, string>, lessonIds: map<string, Node>, activityIds: map<(string, nat), string>)

  /** The ids of new rows are distinct, and no new lesson has the id of a lesson that exists. */
  ghost predicate FreshIds(input: Input, ids: Ids) {
    && |ids.skills| == CreatedSkills(input, |input.plan.skills|)
    && |ids.lessons| == |input.plan.lessons| && |ids.revisions| == |input.plan.lessons|
    && |ids.activities| == Count(input.plan.lessons, |input.plan.lessons|).activities
    && Distinct(ids.lessons) && Distinct(ids.revisions)
    && (forall l :: l in input.lessons ==> l.id !in ids.lessons)
    && (forall e :: e in input.edges ==> e.lesson !in ids.lessons && e.prerequisite !in ids.lessons)
  }

  ghost predicate LessonIdsRight(lessons: seq<Lesson>, ids: seq<Node>, m: map<string, Node>) {
    && |ids| == |lessons|
    && (forall k :: 0 <= k < |lessons| ==> lessons[k].contentKey in m && m[lessons[k].contentKey] == ids[k])
    && (forall key :: key in m ==> exists k :: 0 <= k < |lessons| && lessons[k].contentKey == key)
  }

  ghost predicate RevisionIdsRight(lessons: seq<Node>, ids: seq<string>, m: map<Node, string>) {
    |ids| == |lessons| && forall k :: 0 <= k < |lessons| ==> lessons[k] in m && m[lessons[k]] == ids[k]
  }

  ghost predicate ActivityIdsRight(rows: seq<ActivityData>, ids: seq<string>, m: map<(string, nat), string>) {
    |ids| == |rows|
    && forall k :: 0 <= k < |rows| ==> (rows[k].revision, rows[k].position) in m && m[(rows[k].revision, rows[k].position)] == ids[k]
  }

  // ---- 2, 3. lessons and their first revisions ----

  method PersistLessons(p: Plan, ids: seq<Node>) returns (rows: seq<Row<Lesson>>, m: map<string, Node>)
    requires Tidy(p) && |ids| == |p.lessons|
    ensures LessonIdsRight(p.lessons, ids, m) && Wrote(p.lessons, ids, rows)
  {
    rows := CreateReturning(p.lessons, ids);
    m := IndexLessonRows(p.lessons, ids, rows);
  }

  method ListRevisions(p: Plan, lessonIds: map<string, Node>, ghost lessons: seq<Node>) returns (data: seq<RevisionData>)
    requires LessonIdsRight(p.lessons, lessons, lessonIds)
    ensures data == RevisionRows(p.lessons, lessons, |p.lessons|)
  {
    data := [];
    for i := 0 to |p.lessons|
      invariant data == RevisionRows(p.lessons, lessons, i)
    {
      var l := p.lessons[i];
      data := data + [RevisionData(lessonIds[l.contentKey], 1, l.revision.title, l.revision.description)];
    }
  }

  method PersistRevisions(p: Plan, lessonIds: map<string, Node>, ghost lessons: seq<Node>, ids: seq<string>)
    returns (rows: seq<Row<RevisionData>>, m: map<Node, string>)
    requires LessonIdsRight(p.lessons, lessons, lessonIds) && |ids| == |p.lessons| && Distinct(lessons)
    ensures RevisionIdsRight(lessons, ids, m) && Wrote(RevisionRows(p.lessons, lessons, |p.lessons|), ids, rows)
  {
    var data := ListRevisions(p, lessonIds, lessons);
    assert |lessons| == |p.lessons|;
    hide LessonIdsRight, RevisionRows;
    forall i, j | 0 <= i < j < |data| ensures data[i].lesson != data[j].lesson {
      assert data[i].lesson == lessons[i] && data[j].lesson == lessons[j];
    }
    rows := CreateReturning(data, ids);
    m := IndexRevisionRows(data, ids, rows);
  }

  // ---- 4. activities ----

  method ListActivities(activities: seq<Activity>, revision: string, source: Source) returns (data: seq<ActivityData>)
    ensures data == ActivityList(activities, revision, source, |activities|)
  {
    data := [];
    for pos := 0 to |activities|
      invariant data == ActivityList(activities, revision, source, pos)
    {
      data := data + [ActivityData(revision, pos, activities[pos], source)];
    }
  }

  method PersistActivities(p: Plan, lessonIds: map<string, Node>, revisionIds: map<Node, string>,
                           ghost lessons: seq<Node>, ghost revisions: seq<string>, ids: seq<string>)
    returns (rows: seq<Row<ActivityData>>, m: map<(string, nat), string>)
    requires LessonIdsRight(p.lessons, lessons, lessonIds) && RevisionIdsRight(lessons, revisions, revisionIds)
    requires Distinct(revisions) && |ids| == |ActivityRows(p, revisions, |p.lessons|)|
    ensures var data := ActivityRows(p, revisions, |p.lessons|); Wrote(data, ids, rows) && ActivityIdsRight(data, ids, m)
  {
    var data: seq<ActivityData> := [];
    for i := 0 to |p.lessons|
      invariant data == ActivityRows(p, revisions, i)
    {
      var l := p.lessons[i];
      var list := ListActivities(l.revision.activities, revisionIds[lessonIds[l.contentKey]], p.source);
      data := data + list;
    }
    ActivityKeys(p, revisions, |p.lessons|);
    rows := ChunkedCreateReturning(data, ids);
    m := IndexActivityRows(data, ids, rows);
  }

  // ---- 5, 6. skill mappings ----

  method LinkCodes(owner: string, codes: seq<string>, skillIds: map<string, string>) returns (links: seq<Link>)
    requires Covered(skillIds, codes)
    ensures links == CodeLinks(owner, codes, skillIds, |codes|)
  {
    links := [];
    for k := 0 to |codes|
      invariant links == CodeLinks(owner, codes, skillIds, k)
    {
      links := links + [Link(owner, skillIds[codes[k]])];
    }
  }

  method PersistLessonSkills(p: Plan, lessonIds: map<string, Node>, ghost lessons: seq<Node>, skillIds: map<string, string>)
    returns (links: seq<Link>)
    requires LessonIdsRight(p.lessons, lessons, lessonIds)
    requires forall i :: 0 <= i < |p.lessons| ==> LessonCovered(skillIds, p.lessons[i])
    ensures links == LessonLinks(p.lessons, lessons, skillIds, |p.lessons|)
  {
    var data: seq<Link> := [];
    for i := 0 to |p.lessons|
      invariant data == LessonLinks(p.lessons, lessons, skillIds, i)
    {
      var l := p.lessons[i];
      var own := LinkCodes(lessonIds[l.contentKey], l.skillCodes, skillIds);
      data := data + own;
    }
    links := ChunkedCreate([], data);
  }

  method LinkActivities(activities: seq<Activity>, revision: string, activityIds: map<(string, nat), string>,
                        skillIds: map<string, string>) returns (links: seq<Link>)
    requires forall a :: 0 <= a < |activities| ==> Covered(skillIds, activities[a].skillCodes)
    requires forall a :: 0 <= a < |activities| ==> (revision, a) in activityIds
    ensures links == ActivityListLinks(activities, revision, activityIds, skillIds, |activities|)
  {
    links := [];
    for pos := 0 to |activities|
      invariant links == ActivityListLinks(activities, revision, activityIds, skillIds, pos)
    {
      var own := LinkCodes(activityIds[(revision, pos)], activities[pos].skillCodes, skillIds);
      links := links + own;
    }
  }

  /** Every (revision, position) of the plan has an id. */
  lemma PositionsHaveIds(p: Plan, revisions: seq<string>, ids: seq<string>, m: map<(string, nat), string>, i: nat, a: nat)
    requires i < |p.lessons| <= |revisions| && a < |p.lessons[i].revision.activities|
    requires ActivityIdsRight(ActivityRows(p, revisions, |p.lessons|), ids, m)
    ensures (revisions[i], a) in m
  {
    ActivityHasRow(p, revisions, |p.lessons|, i, a);
  }

  method PersistActivitySkills(p: Plan, lessonIds: map<string, Node>, revisionIds: map<Node, string>,
                               ghost lessons: seq<Node>, ghost revisions: seq<string>, ghost ids: seq<string>,
                               activityIds: map<(string, nat), string>, skillIds: map<string, string>)
    returns (links: seq<Link>)
    requires LessonIdsRight(p.lessons, lessons, lessonIds) && RevisionIdsRight(lessons, revisions, revisionIds)
    requires ActivityIdsRight(ActivityRows(p, revisions, |p.lessons|), ids, activityIds)
    requires forall i :: 0 <= i < |p.lessons| ==> LessonCovered(skillIds, p.lessons[i])
    ensures links == ActivityLinks(p.lessons, revisions, activityIds, skillIds, |p.lessons|)
  {
    hide ActivityIdsRight, LessonCovered, ActivityListLinks, ActivityRows;
    var data: seq<Link> := [];
    for i := 0 to |p.lessons|
      invariant data == ActivityLinks(p.lessons, revisions, activityIds, skillIds, i)
    {
      var l := p.lessons[i];
      ActivitiesKnown(p, revisions, ids, activityIds, skillIds, i);
      var own := LinkActivities(l.revision.activities, revisionIds[lessonIds[l.contentKey]], activityIds, skillIds);
      data := data + own;
    }
    links := ChunkedCreate([], data);
  }

  lemma ActivitiesKnown(p: Plan, revisions: seq<string>, ids: seq<string>, m: map<(string, nat), string>,
                        skillIds: map<string, string>, i: nat)
    requires i < |p.lessons| <= |revisions| && LessonCovered(skillIds, p.lessons[i])
    requires ActivityIdsRight(ActivityRows(p, revisions, |p.lessons|), ids, m)
    ensures forall a :: 0 <= a < |p.lessons[i].revision.activities| ==>
              (revisions[i], a) in m && Covered(skillIds, p.lessons[i].revision.activities[a].skillCodes)
  {
    hide ActivityIdsRight, ActivityRows, Covered;
    forall a | 0 <= a < |p.lessons[i].revision.activities| ensures (revisions[i], a) in m {
      PositionsHaveIds(p, revisions, ids, m, i, a);
    }
  }

  // ---- 7. prerequisites ----

  /** The target of a requirement of an accepted plan is a lesson of the batch or a resolved existing one. */
  lemma TargetsHaveIds(input: Input, r: Resolution, ids: seq<Node>, lessonIds: map<string, Node>, k: nat)
    requires TargetsFit(input, AllRequirements(input.plan)) && Resolves(input, r)
    requires LessonIdsRight(input.plan.lessons, ids, lessonIds) && k < |AllRequirements(input.plan)|
    ensures var key := AllRequirements(input.plan)[k].target;
            (key in lessonIds <==> InPlan(input.plan, key)) && (key in lessonIds || key in r.lessonIdByKey)
  {
    var reqs := AllRequirements(input.plan);
    var key := reqs[k].target;
    if !InPlan(input.plan, key) {
      assert TargetOf(input, reqs[k]).Target?;
      assert NeedsLesson(input, reqs, key);
    }
  }

  lemma {:induction false} SourcesHaveIds(lessons: seq<Lesson>, ids: seq<Node>, lessonIds: map<string, Node>, n: nat)
    requires LessonIdsRight(lessons, ids, lessonIds) && n <= |lessons|
    ensures forall req :: req in Requirements(lessons, n) ==> req.source in lessonIds
  {
    if n > 0 {
      SourcesHaveIds(lessons, ids, lessonIds, n - 1);
      ListSources(lessons[n - 1], n - 1, |lessons[n - 1].prerequisites|);
    }
  }

  lemma {:induction false} ListSources(l: Lesson, i: nat, n: nat)
    requires n <= |l.prerequisites|
    ensures forall req :: req in ListRequirements(l, i, n) ==> req.source == l.contentKey
  {
    if n > 0 {
      ListSources(l, i, n - 1);
    }
  }

  predicate TargetKnown(lessonIds: map<string, Node>, existing: map<string, Node>, key: string) {
    key in lessonIds || key in existing
  }

  method ListEdges(l: Lesson, i: nat, lessonIds: map<string, Node>, existing: map<string, Node>) returns (edges: seq<Edge>)
    requires l.contentKey in lessonIds
    requires forall k :: 0 <= k < |l.prerequisites| ==> TargetKnown(lessonIds, existing, l.prerequisites[k])
    ensures edges == EdgeRows(ListRequirements(l, i, |l.prerequisites|), lessonIds, existing)
  {
    edges := [];
    for k := 0 to |l.prerequisites|
      invariant edges == EdgeRows(ListRequirements(l, i, k), lessonIds, existing)
    {
      var key := l.prerequisites[k];
      assert TargetKnown(lessonIds, existing, key);
      var target := if key in lessonIds then lessonIds[key] else existing[key];
      edges := edges + [Edge(lessonIds[l.contentKey], target)];
      assert edges == EdgeRows(ListRequirements(l, i, k + 1), lessonIds, existing);
    }
  }

  lemma RowsJoin(a: seq<Requirement>, b: seq<Requirement>, lessonIds: map<string, Node>, existing: map<string, Node>)
    ensures EdgeRows(a + b, lessonIds, existing) == EdgeRows(a, lessonIds, existing) + EdgeRows(b, lessonIds, existing)
  {
  }

  method PersistPrerequisites(input: Input, r: Resolution, ids: seq<Node>, lessonIds: map<string, Node>)
    returns (edges: seq<Edge>)
    requires TargetsFit(input, AllRequirements(input.plan)) && Resolves(input, r)
    requires LessonIdsRight(input.plan.lessons, ids, lessonIds)
    ensures edges == EdgeRows(AllRequirements(input.plan), lessonIds, r.lessonIdByKey)
  {
    hide TargetsFit, Resolves, EdgeRows;
    var lessons := input.plan.lessons;
    var data: seq<Edge> := [];
    forall k | 0 <= k < |AllRequirements(input.plan)|
      ensures TargetKnown(lessonIds, r.lessonIdByKey, AllRequirements(input.plan)[k].target)
    {
      TargetsHaveIds(input, r, ids, lessonIds, k);
    }
    for i := 0 to |lessons|
      invariant data == EdgeRows(Requirements(lessons, i), lessonIds, r.lessonIdByKey)
    {
      var l := lessons[i];
      forall k | 0 <= k < |l.prerequisites| ensures TargetKnown(lessonIds, r.lessonIdByKey, l.prerequisites[k]) {
        RequirementAt(lessons, |lessons|, i, k);
      }
      var own := ListEdges(l, i, lessonIds, r.lessonIdByKey);
      RowsJoin(Requirements(lessons, i), ListRequirements(l, i, |l.prerequisites|), lessonIds, r.lessonIdByKey);
      data := data + own;
    }
    edges := ChunkedCreate([], data);
  }

  lemma {:induction false} RequirementAt(lessons: seq<Lesson>, n: nat, i: nat, k: nat)
    requires i < n <= |lessons| && k < |lessons[i].prerequisites|
    ensures Requirement(PrerequisiteSpot(i, k), lessons[i].contentKey, lessons[i].prerequisites[k]) in Requirements(lessons, n)
  {
    hide ListRequirements;
    var own := ListRequirements(lessons[n - 1], n - 1, |lessons[n - 1].prerequisites|);
    assert Requirements(lessons, n) == Requirements(lessons, n - 1) + own;
    if i == n - 1 {
      ListAt(lessons[i], i, |lessons[i].prerequisites|, k);
    } else {
      RequirementAt(lessons, n - 1, i, k);
    }
  }

  lemma {:induction false} ListAt(l: Lesson, i: nat, n: nat, k: nat)
    requires k < n <= |l.prerequisites|
    ensures Requirement(PrerequisiteSpot(i, k), l.contentKey, l.prerequisites[k]) in ListRequirements(l, i, n)
  {
    if k < n - 1 {
      ListAt(l, i, n - 1, k);
    }
  }

  // ---- the batch ----

  ghost predicate Accepted(input: Input) { DatabaseIds(input) && Tidy(input.plan) && Importable(input) }

  /** The rows written are exactly those the plan stands for, under the ids the database gave. */
  ghost predicate WritesPlan(input: Input, r: Resolution, ids: Ids, w: Written)
    requires FreshIds(input, ids)
  {
    var p, n := input.plan, |input.plan.lessons|;
    var activities := ActivityRows(p, ids.revisions, n);
    && SkillIdsRight(input, r, ids.skills, w.skillIds)
    && LessonIdsRight(p.lessons, ids.lessons, w.lessonIds)
    && ActivityIdsRight(activities, ids.activities, w.activityIds)
    && Wrote(ToCreate(input, |p.skills|), ids.skills, w.skills) && Wrote(p.lessons, ids.lessons, w.lessons)
    && Wrote(RevisionRows(p.lessons, ids.lessons, n), ids.revisions, w.revisions)
    && Wrote(activities, ids.activities, w.activities)
    && w.lessonSkills == LessonLinks(p.lessons, ids.lessons, w.skillIds, n)
    && w.activitySkills == ActivityLinks(p.lessons, ids.revisions, w.activityIds, w.skillIds, n)
    && w.prerequisites == EdgeRows(AllRequirements(p), w.lessonIds, r.lessonIdByKey)
  }

  /** The numbers written are those the dry run announced. */
  ghost predicate MatchesSummary(w: Written, s: Summary) {
    && |w.skills| == s.skillsToCreate && |w.lessons| == s.lessonsToCreate && |w.revisions| == s.revisionsToCreate
    && |w.activities| == s.activitiesToCreate && |w.lessonSkills| == s.lessonSkillMappings
    && |w.activitySkills| == s.activitySkillMappings && |w.prerequisites| == s.prerequisitesToCreate
  }

  lemma AllCovered(input: Input, r: Resolution, ids: seq<string>, m: map<string, string>)
    requires RefsFit(input, AllRefs(input.plan)) && Resolves(input, r) && SkillIdsRight(input, r, ids, m)
    ensures forall i :: 0 <= i < |input.plan.lessons| ==> LessonCovered(m, input.plan.lessons[i])
  {
    hide RefsFit, Resolves, SkillIdsRight, LessonCovered;
    forall k | 0 <= k < |AllRefs(input.plan)| ensures AllRefs(input.plan)[k].code in m {
      RefsHaveIds(input, r, ids, m, k);
    }
    assert RefsCovered(m, AllRefs(input.plan));
    LessonsCovered(m, input.plan.lessons, |input.plan.lessons|);
  }

  method PersistBatch(input: Input, r: Resolution, ids: Ids) returns (w: Written)
    requires Accepted(input) && Resolves(input, r) && FreshIds(input, ids)
    ensures WritesPlan(input, r, ids, w)
    ensures MatchesSummary(w, SummaryOf(input, |r.skillIdByCode.Values|))
  {
    hide KeysFree, SkillsFit, RefsFit, TargetsFit, Proposed, Acyclic, DatabaseIds, Tidy, Resolves;
    hide SkillIdsRight, LessonIdsRight, RevisionIdsRight, ActivityIdsRight, LessonCovered;
    var p := input.plan;
    var skillIds, skills := PersistSkills(input, r, ids.skills);
    AllCovered(input, r, ids.skills, skillIds);
    var lessons, lessonIds := PersistLessons(p, ids.lessons);
    var revisions, revisionIds := PersistRevisions(p, lessonIds, ids.lessons, ids.revisions);
    RowCounts(p, ids.lessons, ids.revisions, map[], skillIds, |p.lessons|);
    var activities, activityIds := PersistActivities(p, lessonIds, revisionIds, ids.lessons, ids.revisions, ids.activities);
    var lessonSkills := PersistLessonSkills(p, lessonIds, ids.lessons, skillIds);
    var activitySkills := PersistActivitySkills(p, lessonIds, revisionIds, ids.lessons, ids.revisions, ids.activities,
                                                activityIds, skillIds);
    var prerequisites := PersistPrerequisites(input, r, ids.lessons, lessonIds);
    RowCounts(p, ids.lessons, ids.revisions, activityIds, skillIds, |p.lessons|);
    AllTargets(input, AllRequirements(p));
    w := Written(skills, lessons, revisions, activities, lessonSkills, activitySkills, prerequisites,
                 skillIds, lessonIds, activityIds);
  }

  // ---- the written graph ----

  /** The synthetic node a new lesson had in the dry run; every other id stands for itself. */
  ghost function NodeOf(lessonIds: map<string, Node>, id: Node): Node {
    if id in lessonIds.Values then
      var key :| key in lessonIds && lessonIds[key] == id;
      NewNode(key)
    else id
  }

  lemma NodeOfNew(lessons: seq<Lesson>, ids: seq<Node>, lessonIds: map<string, Node>, key: string)
    requires LessonIdsRight(lessons, ids, lessonIds) && Distinct(ids) && key in lessonIds
    ensures NodeOf(lessonIds, lessonIds[key]) == NewNode(key)
    ensures lessonIds[key] in ids
  {
    forall other | other in lessonIds && lessonIds[other] == lessonIds[key] ensures other == key {
      var i :| 0 <= i < |lessons| && lessons[i].contentKey == key;
      var j :| 0 <= j < |lessons| && lessons[j].contentKey == other;
      assert ids[i] == ids[j];
    }
    var i :| 0 <= i < |lessons| && lessons[i].contentKey == key;
    assert lessonIds[key] == ids[i];
  }

  lemma NodeOfOld(lessons: seq<Lesson>, ids: seq<Node>, lessonIds: map<string, Node>, id: Node)
    requires LessonIdsRight(lessons, ids, lessonIds) && Distinct(ids) && id !in ids
    ensures NodeOf(lessonIds, id) == id
  {
    forall key | key in lessonIds ensures lessonIds[key] in ids {
      NodeOfNew(lessons, ids, lessonIds, key);
    }
  }

  /** A written edge is the proposed edge of its requirement, under real ids. */
  lemma WrittenIsProposed(input: Input, r: Resolution, ids: seq<Node>, lessonIds: map<string, Node>, k: nat)
    requires TargetsFit(input, AllRequirements(input.plan)) && Resolves(input, r)
    requires LessonIdsRight(input.plan.lessons, ids, lessonIds) && Distinct(ids)
    requires forall l :: l in input.lessons ==> l.id !in ids
    requires k < |AllRequirements(input.plan)|
    ensures var e := EdgeRow(AllRequirements(input.plan)[k], lessonIds, r.lessonIdByKey);
            Edge(NodeOf(lessonIds, e.lesson), NodeOf(lessonIds, e.prerequisite)) in Proposed(input, AllRequirements(input.plan))
  {
    hide TargetsFit, LessonIdsRight, NodeOf, Distinct;
    var reqs := AllRequirements(input.plan);
    var req := reqs[k];
    SourcesHaveIds(input.plan.lessons, ids, lessonIds, |input.plan.lessons|);
    assert req in reqs;
    NodeOfNew(input.plan.lessons, ids, lessonIds, req.source);
    TargetsHaveIds(input, r, ids, lessonIds, k);
    TargetIsFit(input, reqs, k);
    if req.target in lessonIds {
      NodeOfNew(input.plan.lessons, ids, lessonIds, req.target);
    } else {
      var existing := LessonByKey(input.lessons, req.target);
      assert r.lessonIdByKey[req.target] == existing.value.id;
      NodeOfOld(input.plan.lessons, ids, lessonIds, existing.value.id);
    }
  }

  lemma TargetIsFit(input: Input, reqs: seq<Requirement>, k: nat)
    requires TargetsFit(input, reqs) && k < |reqs|
    ensures TargetOf(input, reqs[k]).Target?
  {
  }

  /**
   The existing edges and the edges written under real ids are acyclic, whatever distinct fresh ids the database gave: the
   dry run decided it on synthetic nodes.
   */
  lemma WrittenGraphAcyclic(input: Input, r: Resolution, ids: Ids, w: Written)
    requires Accepted(input) && Resolves(input, r) && FreshIds(input, ids) && WritesPlan(input, r, ids, w)
    ensures Acyclic(EdgeSet(input.edges) + EdgeSet(w.prerequisites))
  {
    var reqs := AllRequirements(input.plan);
    var image := EdgeSet(input.edges) + Proposed(input, reqs);
    hide KeysFree, SkillsFit, RefsFit, TargetsFit, Proposed, Acyclic, DatabaseIds, Tidy, Resolves, NodeOf;
    hide SkillIdsRight, LessonIdsRight, ActivityIdsRight;
    var rename := id => NodeOf(w.lessonIds, id);
    forall e | e in EdgeSet(input.edges) + EdgeSet(w.prerequisites)
      ensures Edge(rename(e.lesson), rename(e.prerequisite)) in image
    {
      if e in input.edges {
        NodeOfOld(input.plan.lessons, ids.lessons, w.lessonIds, e.lesson);
        NodeOfOld(input.plan.lessons, ids.lessons, w.lessonIds, e.prerequisite);
      } else {
        var k :| 0 <= k < |w.prerequisites| && w.prerequisites[k] == e;
        WrittenIsProposed(input, r, ids.lessons, w.lessonIds, k);
      }
    }
    AcyclicUnderRenaming(EdgeSet(input.edges) + EdgeSet(w.prerequisites), image, rename);
  }

  // ---- apply ----

  datatype Outcome = ImportRefused(code: Code) | Imported(summary: Summary, written: Written)

  predicate IsConflict(i: Issue) { HttpStatus(i.code) == 409 }

  /** Issue `k` is answered with: the first database conflict, or the first issue when there is no conflict. */
  ghost predicate IsPrimary(issues: seq<Issue>, k: nat) {
    && k < |issues|
    && (if exists i: Issue :: i in issues && IsConflict(i) then
          IsConflict(issues[k]) && forall i :: 0 <= i < k ==> !IsConflict(issues[i])
        else k == 0)
  }

  lemma PrimaryIsUnique(issues: seq<Issue>, k: nat, l: nat)
    requires IsPrimary(issues, k) && IsPrimary(issues, l)
    ensures k == l
  {
  }

  method PrimaryIssue(issues: seq<Issue>) returns (primary: Issue, ghost k: nat)
    requires |issues| > 0
    ensures IsPrimary(issues, k) && primary == issues[k]
  {
    for i := 0 to |issues|
      invariant forall j :: 0 <= j < i ==> !IsConflict(issues[j])
    {
      if IsConflict(issues[i]) {
        assert issues[i] in issues;
        return issues[i], i;
      }
    }
    return issues[0], 0;
  }

  ghost predicate RefusedWith(issues: seq<Issue>, code: Code) {
    exists k: nat :: IsPrimary(issues, k) && issues[k].code == code
  }

  /**
   Inside one transaction, on the locked subject: refused exactly when the parser or the resolver has an issue, and
   otherwise the whole plan is written, with the announced counts and no cycle.
   */
  method Apply(input: Input, structural: seq<Issue>, ids: Ids) returns (outcome: Outcome)
    requires DatabaseIds(input) && Acyclic(EdgeSet(input.edges)) && FreshIds(input, ids)
    requires structural == [] ==> Tidy(input.plan)
    ensures outcome.Imported? <==> structural == [] && Importable(input)
    ensures outcome.ImportRefused? ==> RefusedWith(structural + Issues(input), outcome.code)
    ensures outcome.Imported? ==> MatchesSummary(outcome.written, outcome.summary)
    ensures outcome.Imported? ==> exists r :: Resolves(input, r) && WritesPlan(input, r, ids, outcome.written)
    ensures outcome.Imported? ==> Acyclic(EdgeSet(input.edges) + EdgeSet(outcome.written.prerequisites))
  {
    hide Resolves, WritesPlan, MatchesSummary, SummaryOf, Importable, Issues, DatabaseIds, Acyclic, FreshIds, Tidy, EdgeSet;
    var issues, summary, resolution := ResolveAndValidate(input);
    AcceptedExactly(input);
    var errors := structural + issues;
    if |errors| > 0 {
      ghost var k: nat;
      var primary;
      primary, k := PrimaryIssue(errors);
      outcome := ImportRefused(primary.code);
    } else {
      var written := PersistBatch(input, resolution, ids);
      WrittenGraphAcyclic(input, resolution, ids, written);
      outcome := Imported(summary, written);
    }
  }
}
