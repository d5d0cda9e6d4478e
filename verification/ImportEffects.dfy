/**
 What an import is allowed to write and what it writes, on the package and the rows alone
 (src/content-import/import-validator.ts:38-147, import.service.ts:141-251).
 */
module ImportEffects {
  import opened Basics
  import opened PrerequisiteGraph
  import opened ImportPlan
  import opened ImportResolver
  import opened ImportValidator
  import opened ImportAcceptance
  import opened ImportWriter
  import opened ImportBatch
  import opened ImportApply
  import opened ImportFaults

  // ---- skill mappings ----

  /** Code `k` of lesson `i` maps the lesson to the skill. */
  ghost predicate MapsLesson(p: Plan, ids: Ids, w: Written, i: nat, k: nat, link: Link) {
    && i < |p.lessons| && i < |ids.lessons| && k < |p.lessons[i].skillCodes|
    && link.owner == ids.lessons[i]
    && p.lessons[i].skillCodes[k] in w.skillIds && link.target == w.skillIds[p.lessons[i].skillCodes[k]]
  }

  /** Code `k` of activity `a` of lesson `i` maps the activity to the skill. */
  ghost predicate MapsActivity(p: Plan, ids: Ids, w: Written, i: nat, a: nat, k: nat, link: Link) {
    && i < |p.lessons| && i < |ids.revisions| && a < |p.lessons[i].revision.activities|
    && var codes := p.lessons[i].revision.activities[a].skillCodes;
    && k < |codes| && (ids.revisions[i], a) in w.activityIds && link.owner == w.activityIds[(ids.revisions[i], a)]
    && codes[k] in w.skillIds && link.target == w.skillIds[codes[k]]
  }

  lemma {:induction false} LessonLinksAre(lessons: seq<Lesson>, ids: seq<Node>, m: map<string, string>, n: nat, link: Link)
    requires n <= |lessons| <= |ids|
    ensures link in LessonLinks(lessons, ids, m, n) <==>
            exists i, k :: 0 <= i < n && 0 <= k < |lessons[i].skillCodes|
                           && link == Link(ids[i], Lookup(m, lessons[i].skillCodes[k]))
  {
    if n > 0 {
      LessonLinksAre(lessons, ids, m, n - 1, link);
      var codes := lessons[n - 1].skillCodes;
      assert LessonLinks(lessons, ids, m, n) == LessonLinks(lessons, ids, m, n - 1) + CodeLinks(ids[n - 1], codes, m, |codes|);
      hide LessonLinks, Lookup;
    }
  }

  /** Every code has an id, and the rows are there. */
  lemma CodesHaveIds(input: Input, r: Resolution, ids: Ids, w: Written)
    requires Accepted(input) && Resolves(input, r) && FreshIds(input, ids) && WritesPlan(input, r, ids, w)
    ensures |ids.lessons| == |input.plan.lessons| == |ids.revisions|
    ensures w.lessonSkills == LessonLinks(input.plan.lessons, ids.lessons, w.skillIds, |input.plan.lessons|)
    ensures forall i :: 0 <= i < |input.plan.lessons| ==>
              && Covered(w.skillIds, input.plan.lessons[i].skillCodes)
              && forall a :: 0 <= a < |input.plan.lessons[i].revision.activities| ==>
                   Covered(w.skillIds, input.plan.lessons[i].revision.activities[a].skillCodes)
  {
    hide KeysFree, SkillsFit, RefsFit, TargetsFit, Proposed, Acyclic, DatabaseIds, Tidy, Resolves, LessonLinks, ActivityLinks;
    hide SkillIdsRight, LessonIdsRight, ActivityIdsRight, Covered, Wrote, EdgeRows;
    AllCovered(input, r, ids.skills, w.skillIds);
    assert forall i :: 0 <= i < |input.plan.lessons| ==> LessonCovered(w.skillIds, input.plan.lessons[i]);
  }

  lemma LessonMappings(p: Plan, ids: Ids, w: Written, link: Link)
    requires |ids.lessons| == |p.lessons| && w.lessonSkills == LessonLinks(p.lessons, ids.lessons, w.skillIds, |p.lessons|)
    requires forall i :: 0 <= i < |p.lessons| ==> Covered(w.skillIds, p.lessons[i].skillCodes)
    ensures link in w.lessonSkills <==> exists i, k :: MapsLesson(p, ids, w, i, k, link)
  {
    LessonLinksAre(p.lessons, ids.lessons, w.skillIds, |p.lessons|, link);
    hide LessonLinks, Covered;
    if link in w.lessonSkills {
      var i, k :| 0 <= i < |p.lessons| && 0 <= k < |p.lessons[i].skillCodes|
                  && link == Link(ids.lessons[i], Lookup(w.skillIds, p.lessons[i].skillCodes[k]));
      IsCovered(w.skillIds, p.lessons[i].skillCodes, k);
      assert MapsLesson(p, ids, w, i, k, link);
    }
  }

  lemma IsCovered(m: map<string, string>, codes: seq<string>, k: nat)
    requires Covered(m, codes) && k < |codes|
    ensures codes[k] in m
  {
  }

  /** The lesson mappings are exactly those of the package: each lesson with the skill of each of its own codes. */
  lemma LessonSkillsExactly(input: Input, r: Resolution, ids: Ids, w: Written, link: Link)
    requires Accepted(input) && Resolves(input, r) && FreshIds(input, ids) && WritesPlan(input, r, ids, w)
    ensures link in w.lessonSkills <==> exists i, k :: MapsLesson(input.plan, ids, w, i, k, link)
  {
    CodesHaveIds(input, r, ids, w);
    hide *;
    LessonMappings(input.plan, ids, w, link);
  }

  lemma {:induction false} ListLinksAre(activities: seq<Activity>, revision: string, activityIds: map<(string, nat), string>,
                                        m: map<string, string>, n: nat, link: Link)
    requires n <= |activities|
    ensures link in ActivityListLinks(activities, revision, activityIds, m, n) <==>
            exists a, k :: 0 <= a < n && 0 <= k < |activities[a].skillCodes|
                           && link == Link(Lookup(activityIds, (revision, a)), Lookup(m, activities[a].skillCodes[k]))
  {
    if n > 0 {
      ListLinksAre(activities, revision, activityIds, m, n - 1, link);
      var codes, owner := activities[n - 1].skillCodes, Lookup(activityIds, (revision, n - 1));
      assert ActivityListLinks(activities, revision, activityIds, m, n)
          == ActivityListLinks(activities, revision, activityIds, m, n - 1) + CodeLinks(owner, codes, m, |codes|);
      hide ActivityListLinks, Lookup;
    }
  }

  ghost predicate LinksActivity(lessons: seq<Lesson>, revisions: seq<string>, activityIds: map<(string, nat), string>,
                                m: map<string, string>, i: nat, link: Link)
    requires i < |lessons| <= |revisions|
  {
    var activities := lessons[i].revision.activities;
    exists a, k :: 0 <= a < |activities| && 0 <= k < |activities[a].skillCodes|
                   && link == Link(Lookup(activityIds, (revisions[i], a)), Lookup(m, activities[a].skillCodes[k]))
  }

  lemma {:induction false} ActivityLinksAre(lessons: seq<Lesson>, revisions: seq<string>, activityIds: map<(string, nat), string>,
                                            m: map<string, string>, n: nat, link: Link)
    requires n <= |lessons| <= |revisions|
    ensures link in ActivityLinks(lessons, revisions, activityIds, m, n) <==>
            exists i :: 0 <= i < n && LinksActivity(lessons, revisions, activityIds, m, i, link)
  {
    if n > 0 {
      ActivityLinksAre(lessons, revisions, activityIds, m, n - 1, link);
      var activities := lessons[n - 1].revision.activities;
      var list := ActivityListLinks(activities, revisions[n - 1], activityIds, m, |activities|);
      ListLinksAre(activities, revisions[n - 1], activityIds, m, |activities|, link);
      assert link in list <==> LinksActivity(lessons, revisions, activityIds, m, n - 1, link);
      hide ActivityListLinks, Lookup, LinksActivity;
      var rest := ActivityLinks(lessons, revisions, activityIds, m, n - 1);
      assert ActivityLinks(lessons, revisions, activityIds, m, n) == rest + list;
      assert link in rest + list <==> link in rest || link in list;
    }
  }

  lemma ActivityMappings(p: Plan, ids: Ids, w: Written, link: Link)
    requires |ids.revisions| == |p.lessons|
    requires w.activitySkills == ActivityLinks(p.lessons, ids.revisions, w.activityIds, w.skillIds, |p.lessons|)
    requires forall i, a :: 0 <= i < |p.lessons| && 0 <= a < |p.lessons[i].revision.activities| ==>
               (ids.revisions[i], a) in w.activityIds && Covered(w.skillIds, p.lessons[i].revision.activities[a].skillCodes)
    ensures link in w.activitySkills <==> exists i, a, k :: MapsActivity(p, ids, w, i, a, k, link)
  {
    ActivityLinksAre(p.lessons, ids.revisions, w.activityIds, w.skillIds, |p.lessons|, link);
    hide ActivityLinks, Covered;
    if link in w.activitySkills {
      var i :| 0 <= i < |p.lessons| && LinksActivity(p.lessons, ids.revisions, w.activityIds, w.skillIds, i, link);
      var activities := p.lessons[i].revision.activities;
      var a, k :| 0 <= a < |activities| && 0 <= k < |activities[a].skillCodes|
                  && link == Link(Lookup(w.activityIds, (ids.revisions[i], a)), Lookup(w.skillIds, activities[a].skillCodes[k]));
      IsCovered(w.skillIds, activities[a].skillCodes, k);
      assert MapsActivity(p, ids, w, i, a, k, link);
    }
    if exists i, a, k :: MapsActivity(p, ids, w, i, a, k, link) {
      var i, a, k :| MapsActivity(p, ids, w, i, a, k, link);
      assert LinksActivity(p.lessons, ids.revisions, w.activityIds, w.skillIds, i, link);
    }
  }

  /** The activity mappings are exactly those of the package, each activity found by its revision and position. */
  lemma ActivitySkillsExactly(input: Input, r: Resolution, ids: Ids, w: Written, link: Link)
    requires Accepted(input) && Resolves(input, r) && FreshIds(input, ids) && WritesPlan(input, r, ids, w)
    ensures link in w.activitySkills <==> exists i, a, k :: MapsActivity(input.plan, ids, w, i, a, k, link)
  {
    CodesHaveIds(input, r, ids, w);
    ActivitiesHaveIds(input, r, ids, w);
    hide *;
    ActivityMappings(input.plan, ids, w, link);
  }

  lemma ActivitiesHaveIds(input: Input, r: Resolution, ids: Ids, w: Written)
    requires Accepted(input) && Resolves(input, r) && FreshIds(input, ids) && WritesPlan(input, r, ids, w)
    ensures |ids.revisions| == |input.plan.lessons|
    ensures w.activitySkills
            == ActivityLinks(input.plan.lessons, ids.revisions, w.activityIds, w.skillIds, |input.plan.lessons|)
    ensures forall i, a :: 0 <= i < |input.plan.lessons| && 0 <= a < |input.plan.lessons[i].revision.activities| ==>
              (ids.revisions[i], a) in w.activityIds
  {
    hide KeysFree, SkillsFit, RefsFit, TargetsFit, Proposed, Acyclic, DatabaseIds, Tidy, Resolves, LessonLinks, ActivityLinks;
    hide SkillIdsRight, LessonIdsRight, ActivityIdsRight, Covered, Wrote, EdgeRows, ActivityRows;
    forall i, a | 0 <= i < |input.plan.lessons| && 0 <= a < |input.plan.lessons[i].revision.activities|
      ensures (ids.revisions[i], a) in w.activityIds
    {
      PositionsHaveIds(input.plan, ids.revisions, ids.activities, w.activityIds, i, a);
    }
  }

  // ---- activities ----

  /** The row of activity `a` of lesson `i`: in the lesson's revision, at its position, as authored. */
  ghost predicate IsActivityRow(p: Plan, ids: Ids, i: nat, a: nat, row: Row<ActivityData>) {
    && i < |p.lessons| && i < |ids.revisions| && a < |p.lessons[i].revision.activities|
    && row.data == ActivityData(ids.revisions[i], a, p.lessons[i].revision.activities[a], p.source)
  }

  lemma {:induction false} ActivityRowsAre(p: Plan, ids: Ids, n: nat, data: ActivityData)
    requires n <= |p.lessons| <= |ids.revisions|
    ensures data in ActivityRows(p, ids.revisions, n) <==>
            exists i, a :: 0 <= i < n && 0 <= a < |p.lessons[i].revision.activities|
                           && data == ActivityData(ids.revisions[i], a, p.lessons[i].revision.activities[a], p.source)
  {
    if n > 0 {
      ActivityRowsAre(p, ids, n - 1, data);
      var activities := p.lessons[n - 1].revision.activities;
      var list := ActivityList(activities, ids.revisions[n - 1], p.source, |activities|);
      assert ActivityRows(p, ids.revisions, n) == ActivityRows(p, ids.revisions, n - 1) + list;
      hide ActivityRows;
    }
  }

  lemma ActivityTable(p: Plan, ids: Ids, w: Written)
    requires |ids.revisions| == |p.lessons|
    requires var rows := ActivityRows(p, ids.revisions, |p.lessons|);
             Wrote(rows, ids.activities, w.activities) && ActivityIdsRight(rows, ids.activities, w.activityIds)
    ensures forall row :: row in w.activities ==> exists i, a :: IsActivityRow(p, ids, i, a, row)
    ensures forall i, a :: 0 <= i < |p.lessons| && 0 <= a < |p.lessons[i].revision.activities| ==>
              && (ids.revisions[i], a) in w.activityIds
              && Row(w.activityIds[(ids.revisions[i], a)],
                     ActivityData(ids.revisions[i], a, p.lessons[i].revision.activities[a], p.source)) in w.activities
  {
    hide ActivityRows;
    var rows := ActivityRows(p, ids.revisions, |p.lessons|);
    forall row | row in w.activities ensures exists i, a :: IsActivityRow(p, ids, i, a, row) {
      assert Inserted(rows, ids.activities, row);
      ActivityRowsAre(p, ids, |p.lessons|, row.data);
      var i, a :| 0 <= i < |p.lessons| && 0 <= a < |p.lessons[i].revision.activities|
                  && row.data == ActivityData(ids.revisions[i], a, p.lessons[i].revision.activities[a], p.source);
      assert IsActivityRow(p, ids, i, a, row);
    }
    forall i, a | 0 <= i < |p.lessons| && 0 <= a < |p.lessons[i].revision.activities|
      ensures && (ids.revisions[i], a) in w.activityIds
              && Row(w.activityIds[(ids.revisions[i], a)],
                     ActivityData(ids.revisions[i], a, p.lessons[i].revision.activities[a], p.source)) in w.activities
    {
      var data := ActivityData(ids.revisions[i], a, p.lessons[i].revision.activities[a], p.source);
      ActivityRowsAre(p, ids, |p.lessons|, data);
      var k :| 0 <= k < |rows| && rows[k] == data;
      assert Row(ids.activities[k], rows[k]) in w.activities;
    }
  }

  /**
   Each activity of the package is one row, under its lesson's new revision at its position in the document, found again by
   that; there is no other row.
   */
  lemma ActivitiesExactly(input: Input, r: Resolution, ids: Ids, w: Written)
    requires FreshIds(input, ids) && WritesPlan(input, r, ids, w)
    ensures |ids.revisions| == |input.plan.lessons|
    ensures forall row :: row in w.activities ==> exists i, a :: IsActivityRow(input.plan, ids, i, a, row)
    ensures forall i, a :: 0 <= i < |input.plan.lessons| && 0 <= a < |input.plan.lessons[i].revision.activities| ==>
              && (ids.revisions[i], a) in w.activityIds
              && Row(w.activityIds[(ids.revisions[i], a)],
                     ActivityData(ids.revisions[i], a, input.plan.lessons[i].revision.activities[a], input.plan.source))
                 in w.activities
  {
    hide Wrote, ActivityIdsRight, ActivityRows, LessonLinks, ActivityLinks, EdgeRows, SkillIdsRight, LessonIdsRight, Distinct;
    ActivityTable(input.plan, ids, w);
  }

  /** Each lesson of the package is one row, and its first revision one more, numbered 1, with its title and description. */
  lemma LessonsExactly(input: Input, r: Resolution, ids: Ids, w: Written)
    requires FreshIds(input, ids) && WritesPlan(input, r, ids, w)
    ensures |w.lessons| == |w.revisions| == |input.plan.lessons| == |ids.lessons| == |ids.revisions|
    ensures forall i :: 0 <= i < |input.plan.lessons| ==>
              var l := input.plan.lessons[i];
              && Row(ids.lessons[i], l) in w.lessons
              && Row(ids.revisions[i], RevisionData(ids.lessons[i], 1, l.revision.title, l.revision.description)) in w.revisions
  {
    hide ActivityIdsRight, ActivityRows, LessonLinks, ActivityLinks, EdgeRows, SkillIdsRight, LessonIdsRight, Distinct, Inserted,
      ToCreate, RevisionRows;
    var rows := RevisionRows(input.plan.lessons, ids.lessons, |input.plan.lessons|);
    assert forall i :: 0 <= i < |rows| ==> Row(ids.revisions[i], rows[i]) in w.revisions;
  }

  // ---- prerequisites ----

  /** The edge of prerequisite `k` of lesson `i`: to the new lesson of the package under that key, or else the existing one. */
  ghost predicate WritesEdge(input: Input, ids: Ids, i: nat, k: nat, e: Edge) {
    && i < |input.plan.lessons| && |ids.lessons| == |input.plan.lessons| && k < |input.plan.lessons[i].prerequisites|
    && e.lesson == ids.lessons[i]
    && var target := input.plan.lessons[i].prerequisites[k];
    || (exists j :: 0 <= j < |input.plan.lessons| && input.plan.lessons[j].contentKey == target && e.prerequisite == ids.lessons[j])
    || ((forall j :: 0 <= j < |input.plan.lessons| ==> input.plan.lessons[j].contentKey != target)
        && LessonByKey(input.lessons, target).Some? && e.prerequisite == LessonByKey(input.lessons, target).value.id)
  }

  ghost predicate EdgesRight(input: Input, r: Resolution, ids: Ids, w: Written) {
    && TargetsFit(input, AllRequirements(input.plan)) && Resolves(input, r)
    && LessonIdsRight(input.plan.lessons, ids.lessons, w.lessonIds)
    && w.prerequisites == EdgeRows(AllRequirements(input.plan), w.lessonIds, r.lessonIdByKey)
  }

  /** The edge row of a requirement is the only edge that its place writes. */
  lemma EdgeOfRequirement(input: Input, r: Resolution, ids: Ids, w: Written, n: nat, e: Edge)
    requires EdgesRight(input, r, ids, w) && n < |AllRequirements(input.plan)|
    ensures var req := AllRequirements(input.plan)[n];
            && IsRequirement(input.plan, req)
            && (e == EdgeRow(req, w.lessonIds, r.lessonIdByKey)
                <==> WritesEdge(input, ids, req.spot.lesson, req.spot.index, e))
  {
    var reqs := AllRequirements(input.plan);
    var req := reqs[n];
    assert req in reqs;
    RequirementsAre(input.plan, |input.plan.lessons|, req);
    TargetsHaveIds(input, r, ids.lessons, w.lessonIds, n);
    if req.target in r.lessonIdByKey {
      KeyIsResolved(input, r, req.target);
    }
    hide Resolves, TargetsFit, LessonByKey, AllRequirements, EdgeRows;
  }

  lemma KeyIsResolved(input: Input, r: Resolution, key: string)
    requires Resolves(input, r) && key in r.lessonIdByKey
    ensures LessonByKey(input.lessons, key).Some? && r.lessonIdByKey[key] == LessonByKey(input.lessons, key).value.id
  {
  }

  lemma EdgesAre(input: Input, r: Resolution, ids: Ids, w: Written, e: Edge)
    requires EdgesRight(input, r, ids, w)
    ensures e in w.prerequisites <==> exists i: nat, k: nat :: WritesEdge(input, ids, i, k, e)
  {
    var p, reqs := input.plan, AllRequirements(input.plan);
    hide WritesEdge, AllRequirements, EdgesRight, EdgeRow;
    RowsOfEdges(input, r, ids, w);
    if e in w.prerequisites {
      var n :| 0 <= n < |reqs| && e == EdgeRow(reqs[n], w.lessonIds, r.lessonIdByKey);
      EdgeOfRequirement(input, r, ids, w, n, e);
    }
    if exists i: nat, k: nat :: WritesEdge(input, ids, i, k, e) {
      var i: nat, k: nat :| WritesEdge(input, ids, i, k, e);
      var req := PlaceOf(input, ids, i, k, e);
      RequirementsAre(p, |p.lessons|, req);
      InAll(p, req);
      var n :| 0 <= n < |reqs| && reqs[n] == req;
      EdgeOfRequirement(input, r, ids, w, n, e);
      assert w.prerequisites[n] == e;
    }
  }

  lemma InAll(p: Plan, req: Requirement)
    requires req in Requirements(p.lessons, |p.lessons|)
    ensures req in AllRequirements(p)
  {
  }

  lemma RowsOfEdges(input: Input, r: Resolution, ids: Ids, w: Written)
    requires EdgesRight(input, r, ids, w)
    ensures |w.prerequisites| == |AllRequirements(input.plan)|
    ensures forall n :: 0 <= n < |w.prerequisites| ==>
              w.prerequisites[n] == EdgeRow(AllRequirements(input.plan)[n], w.lessonIds, r.lessonIdByKey)
  {
    hide EdgeRow, AllRequirements, TargetsFit, Resolves, LessonIdsRight;
  }

  lemma PlaceOf(input: Input, ids: Ids, i: nat, k: nat, e: Edge) returns (req: Requirement)
    requires WritesEdge(input, ids, i, k, e)
    ensures IsRequirement(input.plan, req) && req.spot == PrerequisiteSpot(i, k)
  {
    req := Requirement(PrerequisiteSpot(i, k), input.plan.lessons[i].contentKey, input.plan.lessons[i].prerequisites[k]);
  }

  /** The written edges are exactly those of the package, under the real ids of its lessons. */
  lemma PrerequisitesExactly(input: Input, r: Resolution, ids: Ids, w: Written, e: Edge)
    requires Accepted(input) && Resolves(input, r) && FreshIds(input, ids) && WritesPlan(input, r, ids, w)
    ensures e in w.prerequisites <==> exists i: nat, k: nat :: WritesEdge(input, ids, i, k, e)
  {
    assert EdgesRight(input, r, ids, w) by {
      hide KeysFree, SkillsFit, RefsFit, TargetsFit, Proposed, Acyclic, DatabaseIds, Tidy, Resolves, LessonLinks, ActivityLinks,
        SkillIdsRight, LessonIdsRight, ActivityIdsRight, Wrote, EdgeRows, ActivityRows, FreshIds, AllRequirements;
    }
    hide *;
    EdgesAre(input, r, ids, w, e);
  }

  // ---- skills ----

  /** The subject has neither the code nor the name of the skill. */
  ghost predicate IsNew(input: Input, s: Skill) {
    && SkillByCode(input.skills, s.code).None?
    && forall e: ExistingSkill :: e in input.skills ==> Trim(e.name) != Trim(s.name)
  }

  lemma CreatedAre(input: Input, s: Skill)
    ensures s in ToCreate(input, |input.plan.skills|) <==> s in input.plan.skills && IsNew(input, s)
  {
    ToCreateHolds(input, |input.plan.skills|, s);
    hide ToCreate, Trim;
  }

  lemma SkillTable(input: Input, r: Resolution, ids: Ids, w: Written)
    requires |ids.skills| == CreatedSkills(input, |input.plan.skills|) && SkillIdsRight(input, r, ids.skills, w.skillIds)
    requires Wrote(ToCreate(input, |input.plan.skills|), ids.skills, w.skills)
    ensures forall row :: row in w.skills ==> row.data in input.plan.skills && IsNew(input, row.data)
    ensures forall s :: s in input.plan.skills && IsNew(input, s) ==> s.code in w.skillIds && Row(w.skillIds[s.code], s) in w.skills
  {
    var created := ToCreate(input, |input.plan.skills|);
    forall s ensures s in created <==> s in input.plan.skills && IsNew(input, s) {
      CreatedAre(input, s);
    }
    hide ToCreate, IsNew, CreatedSkills;
    forall row | row in w.skills ensures row.data in created {
      assert Inserted(created, ids.skills, row);
    }
    forall s | s in created ensures s.code in w.skillIds && Row(w.skillIds[s.code], s) in w.skills {
      var k :| 0 <= k < |created| && created[k] == s;
      assert Row(ids.skills[k], created[k]) in w.skills;
    }
  }

  /** The skill rows created are exactly the declared skills whose code and name the subject does not have. */
  lemma SkillsExactly(input: Input, r: Resolution, ids: Ids, w: Written)
    requires FreshIds(input, ids) && WritesPlan(input, r, ids, w)
    ensures forall row :: row in w.skills ==> row.data in input.plan.skills && IsNew(input, row.data)
    ensures forall s :: s in input.plan.skills && IsNew(input, s) ==> s.code in w.skillIds && Row(w.skillIds[s.code], s) in w.skills
  {
    hide ActivityIdsRight, ActivityRows, LessonLinks, ActivityLinks, EdgeRows, LessonIdsRight, Distinct, RevisionRows, IsNew,
      SkillIdsRight, Wrote, ToCreate, CreatedSkills;
    SkillTable(input, r, ids, w);
  }

  /** The package declares the code, or one of its lessons or activities refers to it. */
  ghost predicate Names(p: Plan, code: string) {
    || (exists i :: 0 <= i < |p.skills| && p.skills[i].code == code)
    || (exists holder, k :: 0 <= k < |CodesOf(p, holder)| && CodesOf(p, holder)[k] == code)
  }

  /** A code of an accepted package that the subject has stands for the skill there. */
  lemma NamedIsReused(input: Input, r: Resolution, code: string)
    requires SkillsFit(input) && RefsFit(input, AllRefs(input.plan)) && Resolves(input, r)
    ensures code in r.skillIdByCode <==> Names(input.plan, code) && SkillByCode(input.skills, code).Some?
    ensures code in r.skillIdByCode ==> r.skillIdByCode[code] == SkillByCode(input.skills, code).value.id
  {
    var p, refs := input.plan, AllRefs(input.plan);
    forall ref ensures ref in refs <==> IsRef(p, ref) {
      RefsAre(p, |p.lessons|, ref);
    }
    hide AllRefs, SkillByCode, Trim, RefsFit, LessonMap;
    MapIsReuse(input, r, code);
    if exists holder, k :: 0 <= k < |CodesOf(p, holder)| && CodesOf(p, holder)[k] == code {
      var holder, k :| 0 <= k < |CodesOf(p, holder)| && CodesOf(p, holder)[k] == code;
      var ref := SkillRef(SkillRefSpot(holder, k), code);
      assert IsRef(p, ref);
      var n :| 0 <= n < |refs| && refs[n] == ref;
      RefFits(input, refs, n);
    }
    if code in r.skillIdByCode && !(exists i :: 0 <= i < |p.skills| && p.skills[i].code == code) {
      var n :| 0 <= n < |refs| && refs[n].code == code;
      assert IsRef(p, refs[n]);
      assert CodesOf(p, refs[n].spot.holder)[refs[n].spot.index] == code;
    }
  }

  lemma RefFits(input: Input, refs: seq<SkillRef>, n: nat)
    requires RefsFit(input, refs) && n < |refs|
    ensures !RefFateOf(input, refs[n].code).Unresolved?
  {
  }

  lemma MapIsReuse(input: Input, r: Resolution, code: string)
    requires Resolves(input, r)
    ensures code in r.skillIdByCode <==> ReusesSkill(input, |input.plan.skills|, AllRefs(input.plan), code)
    ensures code in r.skillIdByCode ==> SkillByCode(input.skills, code).Some?
                                        && r.skillIdByCode[code] == SkillByCode(input.skills, code).value.id
  {
  }

  /** A code the subject has is written with the skill it stands for there; no such skill is created. */
  lemma ReusedExactly(input: Input, r: Resolution, ids: Ids, w: Written, code: string)
    requires Accepted(input) && Resolves(input, r) && FreshIds(input, ids) && WritesPlan(input, r, ids, w)
    requires Names(input.plan, code) && SkillByCode(input.skills, code).Some?
    ensures code in w.skillIds && w.skillIds[code] == SkillByCode(input.skills, code).value.id
    ensures forall row :: row in w.skills ==> row.data.code != code
  {
    hide TargetsFit, Proposed, Acyclic, DatabaseIds, Tidy, Resolves, LessonLinks, ActivityLinks, Wrote, EdgeRows, ActivityRows,
      LessonIdsRight, ActivityIdsRight, SkillByCode, Names, AllRefs, KeysFree, SkillsFit, RefsFit, Distinct;
    NamedIsReused(input, r, code);
    SkillsExactly(input, r, ids, w);
  }

  /** The package names the skill that the subject has. */
  ghost predicate IsReused(input: Input, e: ExistingSkill) {
    e in input.skills && exists code :: Names(input.plan, code) && SkillByCode(input.skills, code) == Some(e)
  }

  /** The announced number of reused skills is that of the subject's skills the package names. */
  lemma ReusedCount(input: Input, r: Resolution)
    requires SkillsFit(input) && RefsFit(input, AllRefs(input.plan)) && Resolves(input, r)
    ensures r.skillIdByCode.Values
            == set e | e in input.skills && IsReused(input, e) :: e.id
  {
    forall code ensures code in r.skillIdByCode <==> Names(input.plan, code) && SkillByCode(input.skills, code).Some?
                ensures code in r.skillIdByCode ==> r.skillIdByCode[code] == SkillByCode(input.skills, code).value.id
    {
      NamedIsReused(input, r, code);
    }
    hide SkillsFit, RefsFit, Resolves, Names;
    forall id | id in r.skillIdByCode.Values
      ensures exists e :: e in input.skills && IsReused(input, e) && e.id == id
    {
      var code :| code in r.skillIdByCode && r.skillIdByCode[code] == id;
      assert IsReused(input, SkillByCode(input.skills, code).value);
    }
  }
}
