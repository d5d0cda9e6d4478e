/** The resolver as it runs: nested loops over the plan that push issues, fill maps and extend the accumulated graph. */
module ImportValidator {
  import opened Basics
  import opened PrerequisiteGraph
  import opened ImportPlan
  import opened ImportResolver

  /** Database ids are never empty and never synthetic. */
  predicate DatabaseId(id: Node) { id != "" && !("new:" <= id) }

  predicate DatabaseIds(input: Input) {
    && (forall l :: l in input.lessons ==> DatabaseId(l.id))
    && (forall e :: e in input.edges ==> DatabaseId(e.lesson) && DatabaseId(e.prerequisite))
  }

  method CheckKeys(input: Input, byKey: map<string, ExistingLesson>) returns (issues: seq<Issue>)
    requires IndexesLessons(byKey, input.lessons)
    ensures issues == KeyIssues(input, |input.plan.lessons|)
  {
    issues := [];
    for i := 0 to |input.plan.lessons|
      invariant issues == KeyIssues(input, i)
    {
      if input.plan.lessons[i].contentKey in byKey {
        issues := issues + [Issue(ContentKeyExists, LessonSpot(i))];
      }
    }
  }

  // ---- skills ----

  lemma SkillMapStep(input: Input, i: nat, ids: map<string, string>, reused: set<string>)
    requires i < |input.plan.skills| && SkillMap(input, i, [], ids, reused)
    ensures var s := input.plan.skills[i]; var fate := FateOf(input, s);
            if fate.Reused? then SkillMap(input, i + 1, [], ids[s.code := fate.id], reused + {fate.id})
            else SkillMap(input, i + 1, [], ids, reused)
  {
    var s := input.plan.skills[i];
    var fate := FateOf(input, s);
    forall code ensures ReusesSkill(input, i + 1, [], code) <==>
                        ReusesSkill(input, i, [], code) || (code == s.code && fate.Reused?) {}
    if fate.Reused? {
      ValuesAfter(ids, s.code, fate.id);
    }
  }

  lemma ValuesAfter(ids: map<string, string>, code: string, id: string)
    requires code in ids ==> ids[code] == id
    ensures ids[code := id].Values == ids.Values + {id}
  {
    var more := ids[code := id];
    forall v | v in ids.Values ensures v in more.Values {
      var k :| k in ids && ids[k] == v;
      assert more[k] == v;
    }
    assert more[code] == id;
  }

  method CheckSkills(input: Input, byCode: map<string, ExistingSkill>, byName: map<string, ExistingSkill>)
    returns (issues: seq<Issue>, ids: map<string, string>, reused: set<string>, toCreate: nat)
    requires IndexesCodes(byCode, input.skills) && IndexesNames(byName, input.skills)
    ensures issues == SkillIssues(input, |input.plan.skills|)
    ensures SkillMap(input, |input.plan.skills|, [], ids, reused)
    ensures toCreate == CreatedSkills(input, |input.plan.skills|)
  {
    hide SkillMap;
    issues, ids, reused, toCreate := [], map[], {}, 0;
    NothingReused(input);
    for i := 0 to |input.plan.skills|
      invariant issues == SkillIssues(input, i)
      invariant SkillMap(input, i, [], ids, reused)
      invariant toCreate == CreatedSkills(input, i)
    {
      var s := input.plan.skills[i];
      SkillMapStep(input, i, ids, reused);
      assert SkillByCode(input.skills, s.code) == if s.code in byCode then Some(byCode[s.code]) else None;
      assert SkillByName(input.skills, Trim(s.name)).Some? <==> Trim(s.name) in byName;
      if s.code in byCode {
        var existing := byCode[s.code];
        if existing.status.SkillRetired? {
          issues := issues + [Issue(SkillArchived, SkillSpot(i))];
        } else if Trim(existing.name) != Trim(s.name) {
          issues := issues + [Issue(SkillConflict, SkillSpot(i))];
        } else {
          ids, reused := ids[s.code := existing.id], reused + {existing.id};
        }
      } else if Trim(s.name) in byName {
        issues := issues + [Issue(SkillConflict, SkillSpot(i))];
      } else {
        toCreate := toCreate + 1;
      }
    }
  }

  lemma NothingReused(input: Input)
    ensures SkillMap(input, 0, [], map[], {})
  {
  }

  // ---- skill references ----

  function DeclaredCodes(p: Plan): (r: set<string>)
    ensures forall code :: code in r <==> Declares(p, code)
  {
    set i | 0 <= i < |p.skills| :: p.skills[i].code
  }

  lemma RefMapStep(input: Input, refs: seq<SkillRef>, ref: SkillRef, ids: map<string, string>, reused: set<string>)
    requires SkillMap(input, |input.plan.skills|, refs, ids, reused)
    ensures var fate := RefFateOf(input, ref.code); var n := |input.plan.skills|;
            if fate.Existing? then SkillMap(input, n, refs + [ref], ids[ref.code := fate.id], reused + {fate.id})
            else SkillMap(input, n, refs + [ref], ids, reused)
  {
    var fate, n := RefFateOf(input, ref.code), |input.plan.skills|;
    forall code ensures ReusesSkill(input, n, refs + [ref], code) <==>
                        ReusesSkill(input, n, refs, code) || (code == ref.code && fate.Existing?) {
      RefReuse(input, refs, ref, code);
    }
    if fate.Existing? {
      ValuesAfter(ids, ref.code, fate.id);
    }
  }

  lemma RefReuse(input: Input, refs: seq<SkillRef>, ref: SkillRef, code: string)
    ensures ReusesSkill(input, |input.plan.skills|, refs + [ref], code) <==>
            ReusesSkill(input, |input.plan.skills|, refs, code) || (code == ref.code && RefFateOf(input, code).Existing?)
  {
    hide RefFateOf, FateOf;
    var more := refs + [ref];
    assert forall r :: 0 <= r < |refs| ==> more[r] == refs[r];
    assert more[|refs|] == ref;
  }

  /** One reference: nothing to do when the plan declares the skill. */
  method ResolveSkillRef(input: Input, declared: set<string>, byCode: map<string, ExistingSkill>, ref: SkillRef,
                         issues: seq<Issue>, ids: map<string, string>, reused: set<string>, ghost refs: seq<SkillRef>)
    returns (issues': seq<Issue>, ids': map<string, string>, reused': set<string>)
    requires declared == DeclaredCodes(input.plan) && IndexesCodes(byCode, input.skills)
    requires issues == RefIssues(input, refs) && SkillMap(input, |input.plan.skills|, refs, ids, reused)
    ensures issues' == RefIssues(input, refs + [ref])
    ensures SkillMap(input, |input.plan.skills|, refs + [ref], ids', reused')
  {
    issues', ids', reused' := issues, ids, reused;
    RefMapStep(input, refs, ref, ids, reused);
    hide SkillMap;
    assert (refs + [ref])[..|refs|] == refs;
    assert SkillByCode(input.skills, ref.code) == if ref.code in byCode then Some(byCode[ref.code]) else None;
    if ref.code in declared {
      return;
    }
    if ref.code !in byCode {
      issues' := issues + [Issue(SkillNotFound, ref.spot)];
    } else if !byCode[ref.code].status.SkillActive? {
      issues' := issues + [Issue(SkillArchived, ref.spot)];
    } else {
      ids', reused' := ids[ref.code := byCode[ref.code].id], reused + {byCode[ref.code].id};
    }
  }

  method ResolveList(input: Input, declared: set<string>, byCode: map<string, ExistingSkill>, codes: seq<string>, holder: Holder,
                     issues: seq<Issue>, ids: map<string, string>, reused: set<string>, ghost refs: seq<SkillRef>)
    returns (issues': seq<Issue>, ids': map<string, string>, reused': set<string>)
    requires declared == DeclaredCodes(input.plan) && IndexesCodes(byCode, input.skills)
    requires issues == RefIssues(input, refs) && SkillMap(input, |input.plan.skills|, refs, ids, reused)
    ensures issues' == RefIssues(input, refs + ListRefs(codes, holder, |codes|))
    ensures SkillMap(input, |input.plan.skills|, refs + ListRefs(codes, holder, |codes|), ids', reused')
  {
    hide SkillMap, RefIssues, IndexesCodes;
    issues', ids', reused' := issues, ids, reused;
    assert refs + [] == refs;
    for i := 0 to |codes|
      invariant issues' == RefIssues(input, refs + ListRefs(codes, holder, i))
      invariant SkillMap(input, |input.plan.skills|, refs + ListRefs(codes, holder, i), ids', reused')
    {
      var ref := SkillRef(SkillRefSpot(holder, i), codes[i]);
      ghost var before := refs + ListRefs(codes, holder, i);
      issues', ids', reused' := ResolveSkillRef(input, declared, byCode, ref, issues', ids', reused', before);
      assert before + [ref] == refs + ListRefs(codes, holder, i + 1);
    }
  }

  method ResolveActivities(input: Input, declared: set<string>, byCode: map<string, ExistingSkill>,
                           activities: seq<Activity>, lesson: nat,
                           issues: seq<Issue>, ids: map<string, string>, reused: set<string>, ghost refs: seq<SkillRef>)
    returns (issues': seq<Issue>, ids': map<string, string>, reused': set<string>, count: nat, mappings: nat)
    requires declared == DeclaredCodes(input.plan) && IndexesCodes(byCode, input.skills)
    requires issues == RefIssues(input, refs) && SkillMap(input, |input.plan.skills|, refs, ids, reused)
    ensures issues' == RefIssues(input, refs + ActivityRefs(activities, lesson, |activities|))
    ensures SkillMap(input, |input.plan.skills|, refs + ActivityRefs(activities, lesson, |activities|), ids', reused')
    ensures count == |activities| && mappings == ActivityMappings(activities, |activities|)
  {
    hide SkillMap, RefIssues, IndexesCodes, DistinctCount, DeclaredCodes, ListRefs;
    issues', ids', reused', count, mappings := issues, ids, reused, 0, 0;
    assert refs + [] == refs;
    for i := 0 to |activities|
      invariant issues' == RefIssues(input, refs + ActivityRefs(activities, lesson, i))
      invariant SkillMap(input, |input.plan.skills|, refs + ActivityRefs(activities, lesson, i), ids', reused')
      invariant count == i && mappings == ActivityMappings(activities, i)
    {
      count := count + 1;
      var codes := activities[i].skillCodes;
      ghost var before := refs + ActivityRefs(activities, lesson, i);
      issues', ids', reused' :=
        ResolveList(input, declared, byCode, codes, OfActivity(lesson, i), issues', ids', reused', before);
      assert before + ListRefs(codes, OfActivity(lesson, i), |codes|) == refs + ActivityRefs(activities, lesson, i + 1);
      mappings := mappings + DistinctCount(codes);
    }
  }

  method ResolveLesson(input: Input, declared: set<string>, byCode: map<string, ExistingSkill>, l: Lesson, i: nat,
                       issues: seq<Issue>, ids: map<string, string>, reused: set<string>, ghost refs: seq<SkillRef>)
    returns (issues': seq<Issue>, ids': map<string, string>, reused': set<string>, activities: nat, mappings: nat)
    requires declared == DeclaredCodes(input.plan) && IndexesCodes(byCode, input.skills)
    requires issues == RefIssues(input, refs) && SkillMap(input, |input.plan.skills|, refs, ids, reused)
    ensures issues' == RefIssues(input, refs + LessonRefs(l, i))
    ensures SkillMap(input, |input.plan.skills|, refs + LessonRefs(l, i), ids', reused')
    ensures activities == |l.revision.activities| && mappings == ActivityMappings(l.revision.activities, activities)
  {
    hide SkillMap, RefIssues, IndexesCodes, ListRefs, ActivityRefs;
    ghost var own := ListRefs(l.skillCodes, OfLesson(i), |l.skillCodes|);
    issues', ids', reused' := ResolveList(input, declared, byCode, l.skillCodes, OfLesson(i), issues, ids, reused, refs);
    issues', ids', reused', activities, mappings :=
      ResolveActivities(input, declared, byCode, l.revision.activities, i, issues', ids', reused', refs + own);
    assert refs + own + ActivityRefs(l.revision.activities, i, activities) == refs + LessonRefs(l, i);
  }

  method ResolveLessons(input: Input, byCode: map<string, ExistingSkill>, ids: map<string, string>, reused: set<string>)
    returns (issues: seq<Issue>, ids': map<string, string>, reused': set<string>, counts: Counts)
    requires IndexesCodes(byCode, input.skills) && SkillMap(input, |input.plan.skills|, [], ids, reused)
    ensures issues == RefIssues(input, AllRefs(input.plan))
    ensures SkillMap(input, |input.plan.skills|, AllRefs(input.plan), ids', reused')
    ensures counts == Count(input.plan.lessons, |input.plan.lessons|)
  {
    assert RefIssues(input, []) == [];
    NothingCounted(input.plan.lessons);
    hide Count, SkillRefs, SkillMap, IndexesCodes, RefIssues, LessonRefs, DistinctCount, DeclaredCodes, ActivityMappings, Declares;
    var lessons := input.plan.lessons;
    var declared := DeclaredCodes(input.plan);
    issues, ids', reused', counts := [], ids, reused, Counts(0, 0, 0);
    for i := 0 to |lessons|
      invariant issues == RefIssues(input, SkillRefs(lessons, i))
      invariant SkillMap(input, |input.plan.skills|, SkillRefs(lessons, i), ids', reused')
      invariant counts == Count(lessons, i)
    {
      var l := lessons[i];
      var activities, mappings;
      CountNext(lessons, i);
      issues, ids', reused', activities, mappings :=
        ResolveLesson(input, declared, byCode, l, i, issues, ids', reused', SkillRefs(lessons, i));
      counts := Counts(counts.activities + activities, counts.lessonMappings + DistinctCount(l.skillCodes),
                       counts.activityMappings + mappings);
    }
  }

  lemma NothingCounted(lessons: seq<Lesson>)
    ensures SkillRefs(lessons, 0) == [] && Count(lessons, 0) == Counts(0, 0, 0)
  {
  }

  lemma CountNext(lessons: seq<Lesson>, i: nat)
    requires i < |lessons|
    ensures SkillRefs(lessons, i + 1) == SkillRefs(lessons, i) + LessonRefs(lessons[i], i)
    ensures var c, l := Count(lessons, i), lessons[i];
            Count(lessons, i + 1)
            == Counts(c.activities + |l.revision.activities|, c.lessonMappings + DistinctCount(l.skillCodes),
                      c.activityMappings + ActivityMappings(l.revision.activities, |l.revision.activities|))
  {
  }

  // ---- prerequisites ----

  function PlanKeys(p: Plan): (r: set<string>)
    ensures forall key :: key in r <==> InPlan(p, key)
  {
    set i | 0 <= i < |p.lessons| :: p.lessons[i].contentKey
  }

  lemma LessonMapStep(input: Input, reqs: seq<Requirement>, req: Requirement, ids: map<string, Node>)
    requires LessonMap(input, reqs, ids)
    ensures var target := TargetOf(input, req);
            if target.Target? && !InPlan(input.plan, req.target)
            then LessonMap(input, reqs + [req], ids[req.target := target.node])
            else LessonMap(input, reqs + [req], ids)
  {
    forall key ensures NeedsLesson(input, reqs + [req], key) <==>
                       NeedsLesson(input, reqs, key)
                       || (key == req.target && !InPlan(input.plan, key) && TargetOf(input, req).Target?) {
      NeedMore(input, reqs, req, key);
    }
  }

  lemma NeedMore(input: Input, reqs: seq<Requirement>, req: Requirement, key: string)
    ensures NeedsLesson(input, reqs + [req], key) <==>
            NeedsLesson(input, reqs, key) || (key == req.target && !InPlan(input.plan, key) && TargetOf(input, req).Target?)
  {
    hide TargetOf, InPlan;
    var more := reqs + [req];
    assert forall r :: 0 <= r < |reqs| ==> more[r] == reqs[r];
    assert more[|reqs|] == req;
  }

  /** One requirement: its issue if any, and its edge when the target is known and no cycle closes. */
  method ResolveRequirement(input: Input, keys: set<string>, byKey: map<string, ExistingLesson>, req: Requirement,
                            ids: map<string, Node>, edges: seq<Edge>, ghost reqs: seq<Requirement>)
    returns (issues: seq<Issue>, ids': map<string, Node>, edges': seq<Edge>, toCreate: nat)
    requires keys == PlanKeys(input.plan) && IndexesLessons(byKey, input.lessons) && DatabaseIds(input)
    requires LessonMap(input, reqs, ids) && EdgeSet(edges) == Accumulated(input, reqs)
    ensures RequirementIssues(input, reqs) + issues == RequirementIssues(input, reqs + [req])
    ensures LessonMap(input, reqs + [req], ids') && EdgeSet(edges') == Accumulated(input, reqs + [req])
    ensures Targets(input, reqs) + toCreate == Targets(input, reqs + [req])
  {
    issues, ids', edges', toCreate := [], ids, edges, 0;
    LessonMapStep(input, reqs, req, ids);
    assert LessonByKey(input.lessons, req.target) == if req.target in byKey then Some(byKey[req.target]) else None;
    hide LessonMap, IndexesLessons, Reach, LessonByKey;
    assert (reqs + [req])[..|reqs|] == reqs;
    if req.target == req.source {
      issues := [Issue(PrerequisiteCycle, req.spot)];
      return;
    }
    var target: Node := "";
    if req.target in keys {
      target := NewNode(req.target);
    } else if req.target !in byKey {
      issues := [Issue(PrerequisiteNotFound, req.spot)];
    } else if byKey[req.target].subject != input.subject {
      issues := [Issue(PrerequisiteSubjectMismatch, req.spot)];
    } else if byKey[req.target].status.ARCHIVED? {
      issues := [Issue(PrerequisiteArchived, req.spot)];
    } else {
      target := byKey[req.target].id;
      ids' := ids'[req.target := target];
    }
    if target != "" {
      toCreate := 1;
      var cycle := WouldCreatePrerequisiteCycle(edges, NewNode(req.source), target);
      if cycle {
        issues := issues + [Issue(PrerequisiteCycle, req.spot)];
      } else {
        edges' := edges + [Edge(NewNode(req.source), target)];
      }
    }
  }

  /** What the loop over requirements has done when it has visited `reqs`. */
  ghost predicate Visited(input: Input, reqs: seq<Requirement>,
                          issues: seq<Issue>, ids: map<string, Node>, edges: seq<Edge>, toCreate: nat) {
    && issues == RequirementIssues(input, reqs) && LessonMap(input, reqs, ids)
    && EdgeSet(edges) == Accumulated(input, reqs) && toCreate == Targets(input, reqs)
  }

  method ResolveLessonPrerequisites(input: Input, keys: set<string>, byKey: map<string, ExistingLesson>, l: Lesson, i: nat,
                                    issues: seq<Issue>, ids: map<string, Node>, edges: seq<Edge>, toCreate: nat,
                                    ghost reqs: seq<Requirement>)
    returns (issues': seq<Issue>, ids': map<string, Node>, edges': seq<Edge>, toCreate': nat)
    requires keys == PlanKeys(input.plan) && IndexesLessons(byKey, input.lessons) && DatabaseIds(input)
    requires Visited(input, reqs, issues, ids, edges, toCreate)
    ensures Visited(input, reqs + ListRequirements(l, i, |l.prerequisites|), issues', ids', edges', toCreate')
  {
    hide IndexesLessons, DatabaseIds, LessonMap, RequirementIssues, Accumulated, Targets, EdgeSet, PlanKeys;
    issues', ids', edges', toCreate' := issues, ids, edges, toCreate;
    assert reqs + [] == reqs;
    for k := 0 to |l.prerequisites|
      invariant Visited(input, reqs + ListRequirements(l, i, k), issues', ids', edges', toCreate')
    {
      var req := Requirement(PrerequisiteSpot(i, k), l.contentKey, l.prerequisites[k]);
      ghost var done := reqs + ListRequirements(l, i, k);
      var found, n;
      found, ids', edges', n := ResolveRequirement(input, keys, byKey, req, ids', edges', done);
      issues', toCreate' := issues' + found, toCreate' + n;
      assert done + [req] == reqs + ListRequirements(l, i, k + 1);
    }
  }

  method ResolvePrerequisites(input: Input, byKey: map<string, ExistingLesson>)
    returns (issues: seq<Issue>, ids: map<string, Node>, toCreate: nat)
    requires IndexesLessons(byKey, input.lessons) && DatabaseIds(input)
    ensures issues == RequirementIssues(input, AllRequirements(input.plan))
    ensures LessonMap(input, AllRequirements(input.plan), ids)
    ensures toCreate == Targets(input, AllRequirements(input.plan))
  {
    var lessons, keys := input.plan.lessons, PlanKeys(input.plan);
    issues, ids, toCreate := [], map[], 0;
    var edges := input.edges;
    NoLessonNeeded(input);
    hide IndexesLessons, DatabaseIds, LessonMap, RequirementIssues, Accumulated, Targets, EdgeSet, PlanKeys, ListRequirements;
    for i := 0 to |lessons|
      invariant Visited(input, Requirements(lessons, i), issues, ids, edges, toCreate)
    {
      issues, ids, edges, toCreate :=
        ResolveLessonPrerequisites(input, keys, byKey, lessons[i], i, issues, ids, edges, toCreate, Requirements(lessons, i));
    }
  }

  lemma NoLessonNeeded(input: Input)
    ensures LessonMap(input, [], map[])
    ensures RequirementIssues(input, []) == [] && Targets(input, []) == 0 && Accumulated(input, []) == EdgeSet(input.edges)
  {
  }

  // ---- the whole resolution ----

  ghost function SummaryOf(input: Input, reused: nat): Summary {
    var p := input.plan;
    var counts := Count(p.lessons, |p.lessons|);
    Summary(CreatedSkills(input, |p.skills|), reused, |p.lessons|, |p.lessons|, counts.activities, counts.lessonMappings,
            counts.activityMappings, Targets(input, AllRequirements(p)))
  }

  ghost predicate Resolves(input: Input, r: Resolution) {
    && SkillMap(input, |input.plan.skills|, AllRefs(input.plan), r.skillIdByCode, r.skillIdByCode.Values)
    && LessonMap(input, AllRequirements(input.plan), r.lessonIdByKey)
  }

  method ResolveAndValidate(input: Input) returns (issues: seq<Issue>, summary: Summary, resolution: Resolution)
    requires DatabaseIds(input)
    ensures issues == Issues(input)
    ensures Resolves(input, resolution)
    ensures summary == SummaryOf(input, |resolution.skillIdByCode.Values|)
  {
    var byKey := IndexLessons(input.lessons);
    var byCode, byName := IndexSkills(input.skills);
    issues := CheckKeys(input, byKey);
    var found, ids, reused, toCreate := CheckSkills(input, byCode, byName);
    issues := issues + found;
    var counts;
    found, ids, reused, counts := ResolveLessons(input, byCode, ids, reused);
    issues := issues + found;
    var lessonIds, prerequisites;
    found, lessonIds, prerequisites := ResolvePrerequisites(input, byKey);
    issues := issues + found;
    var lessons := |input.plan.lessons|;
    summary := Summary(toCreate, |reused|, lessons, lessons, counts.activities, counts.lessonMappings,
                       counts.activityMappings, prerequisites);
    resolution := Resolution(ids, lessonIds);
  }
}
