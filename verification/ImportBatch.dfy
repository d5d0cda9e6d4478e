/** The whole batch: every id lookup is defined, the rows are the plan's, and the counts are those of the dry run. */
module ImportBatch {
  import opened Basics
  import opened PrerequisiteGraph
  import opened ImportPlan
  import opened ImportResolver
  import opened ImportAcceptance
  import opened ImportWriter

  /** The value of a map, for specifications; the methods below only look up keys that are there. */
  function Lookup<K(==)>(m: map<K, string>, k: K): string { if k in m then m[k] else "" }

  // ---- the rows a plan stands for ----

  function RevisionRows(lessons: seq<Lesson>, ids: seq<Node>, n: nat): (r: seq<RevisionData>)
    requires n <= |lessons| <= |ids|
    ensures |r| == n && forall k :: 0 <= k < n ==>
              r[k] == RevisionData(ids[k], 1, lessons[k].revision.title, lessons[k].revision.description)
  {
    if n == 0 then []
    else
      var rev := lessons[n - 1].revision;
      RevisionRows(lessons, ids, n - 1) + [RevisionData(ids[n - 1], 1, rev.title, rev.description)]
  }

  function ActivityList(activities: seq<Activity>, revision: string, source: Source, n: nat): (r: seq<ActivityData>)
    requires n <= |activities|
    ensures |r| == n && forall k :: 0 <= k < n ==> r[k] == ActivityData(revision, k, activities[k], source)
  {
    if n == 0 then []
    else ActivityList(activities, revision, source, n - 1) + [ActivityData(revision, n - 1, activities[n - 1], source)]
  }

  function ActivityRows(p: Plan, revisions: seq<string>, n: nat): seq<ActivityData>
    requires n <= |p.lessons| <= |revisions|
  {
    if n == 0 then []
    else
      var activities := p.lessons[n - 1].revision.activities;
      ActivityRows(p, revisions, n - 1) + ActivityList(activities, revisions[n - 1], p.source, |activities|)
  }

  function CodeLinks(owner: string, codes: seq<string>, skillIds: map<string, string>, n: nat): (r: seq<Link>)
    requires n <= |codes|
    ensures |r| == n && forall k :: 0 <= k < n ==> r[k] == Link(owner, Lookup(skillIds, codes[k]))
  {
    if n == 0 then [] else CodeLinks(owner, codes, skillIds, n - 1) + [Link(owner, Lookup(skillIds, codes[n - 1]))]
  }

  function LessonLinks(lessons: seq<Lesson>, ids: seq<Node>, skillIds: map<string, string>, n: nat): seq<Link>
    requires n <= |lessons| <= |ids|
  {
    if n == 0 then []
    else
      var codes := lessons[n - 1].skillCodes;
      LessonLinks(lessons, ids, skillIds, n - 1) + CodeLinks(ids[n - 1], codes, skillIds, |codes|)
  }

  function ActivityListLinks(activities: seq<Activity>, revision: string, activityIds: map<(string, nat), string>,
                             skillIds: map<string, string>, n: nat): seq<Link>
    requires n <= |activities|
  {
    if n == 0 then []
    else
      var codes := activities[n - 1].skillCodes;
      ActivityListLinks(activities, revision, activityIds, skillIds, n - 1)
      + CodeLinks(Lookup(activityIds, (revision, n - 1)), codes, skillIds, |codes|)
  }

  function ActivityLinks(lessons: seq<Lesson>, revisions: seq<string>, activityIds: map<(string, nat), string>,
                         skillIds: map<string, string>, n: nat): seq<Link>
    requires n <= |lessons| <= |revisions|
  {
    if n == 0 then []
    else
      var activities := lessons[n - 1].revision.activities;
      ActivityLinks(lessons, revisions, activityIds, skillIds, n - 1)
      + ActivityListLinks(activities, revisions[n - 1], activityIds, skillIds, |activities|)
  }

  /** The edge written for a requirement: a lesson of the batch, or else an existing one. */
  function EdgeRow(req: Requirement, lessonIds: map<string, Node>, existing: map<string, Node>): Edge {
    Edge(Lookup(lessonIds, req.source),
         if req.target in lessonIds then lessonIds[req.target] else Lookup(existing, req.target))
  }

  function EdgeRows(reqs: seq<Requirement>, lessonIds: map<string, Node>, existing: map<string, Node>): (r: seq<Edge>)
    ensures |r| == |reqs| && forall k :: 0 <= k < |r| ==> r[k] == EdgeRow(reqs[k], lessonIds, existing)
  {
    if reqs == [] then []
    else EdgeRows(reqs[..|reqs| - 1], lessonIds, existing) + [EdgeRow(reqs[|reqs| - 1], lessonIds, existing)]
  }

  // ---- counts ----

  lemma {:induction false} ActivityListLinksCount(activities: seq<Activity>, revision: string,
                                                  activityIds: map<(string, nat), string>, skillIds: map<string, string>, n: nat)
    requires n <= |activities| && forall a :: 0 <= a < |activities| ==> Distinct(activities[a].skillCodes)
    ensures |ActivityListLinks(activities, revision, activityIds, skillIds, n)| == ActivityMappings(activities, n)
  {
    if n > 0 {
      ActivityListLinksCount(activities, revision, activityIds, skillIds, n - 1);
      DistinctSize(activities[n - 1].skillCodes);
    }
  }

  lemma {:induction false} ActivityRowsCount(p: Plan, revisions: seq<string>, n: nat)
    requires n <= |p.lessons| <= |revisions|
    ensures |ActivityRows(p, revisions, n)| == Count(p.lessons, n).activities
  {
    hide DistinctCount, ActivityMappings;
    if n > 0 {
      ActivityRowsCount(p, revisions, n - 1);
    }
  }

  lemma {:induction false} LessonLinksCount(p: Plan, ids: seq<Node>, skillIds: map<string, string>, n: nat)
    requires n <= |p.lessons| <= |ids| && forall i :: 0 <= i < |p.lessons| ==> TidyLesson(p.lessons[i])
    ensures |LessonLinks(p.lessons, ids, skillIds, n)| == Count(p.lessons, n).lessonMappings
  {
    hide DistinctCount, Distinct, ActivityMappings;
    if n > 0 {
      LessonLinksCount(p, ids, skillIds, n - 1);
      assert TidyLesson(p.lessons[n - 1]);
      DistinctSize(p.lessons[n - 1].skillCodes);
    }
  }

  lemma {:induction false} ActivityLinksCount(p: Plan, revisions: seq<string>, activityIds: map<(string, nat), string>,
                                              skillIds: map<string, string>, n: nat)
    requires n <= |p.lessons| <= |revisions| && forall i :: 0 <= i < |p.lessons| ==> TidyLesson(p.lessons[i])
    ensures |ActivityLinks(p.lessons, revisions, activityIds, skillIds, n)| == Count(p.lessons, n).activityMappings
  {
    hide DistinctCount, Distinct, ActivityListLinks, ActivityMappings;
    if n > 0 {
      ActivityLinksCount(p, revisions, activityIds, skillIds, n - 1);
      var l := p.lessons[n - 1];
      assert TidyLesson(l);
      ActivityListLinksCount(l.revision.activities, revisions[n - 1], activityIds, skillIds, |l.revision.activities|);
    }
  }

  /** The numbers of rows are the numbers of the summary. */
  lemma RowCounts(p: Plan, ids: seq<Node>, revisions: seq<string>, activityIds: map<(string, nat), string>,
                  skillIds: map<string, string>, n: nat)
    requires Tidy(p) && n <= |p.lessons| <= |ids| && |p.lessons| <= |revisions|
    ensures |ActivityRows(p, revisions, n)| == Count(p.lessons, n).activities
    ensures |LessonLinks(p.lessons, ids, skillIds, n)| == Count(p.lessons, n).lessonMappings
    ensures |ActivityLinks(p.lessons, revisions, activityIds, skillIds, n)| == Count(p.lessons, n).activityMappings
  {
    hide TidyLesson, Distinct, Count, ActivityRows, LessonLinks, ActivityLinks;
    ActivityRowsCount(p, revisions, n);
    LessonLinksCount(p, ids, skillIds, n);
    ActivityLinksCount(p, revisions, activityIds, skillIds, n);
  }

  lemma {:induction false} AllTargets(input: Input, reqs: seq<Requirement>)
    requires TargetsFit(input, reqs)
    ensures Targets(input, reqs) == |reqs|
  {
    hide TargetOf;
    if reqs != [] {
      AllTargets(input, reqs[..|reqs| - 1]);
    }
  }

  // ---- every lookup is defined ----

  predicate Covered(m: map<string, string>, codes: seq<string>) { forall k :: 0 <= k < |codes| ==> codes[k] in m }

  predicate LessonCovered(m: map<string, string>, l: Lesson) {
    Covered(m, l.skillCodes)
    && forall a :: 0 <= a < |l.revision.activities| ==> Covered(m, l.revision.activities[a].skillCodes)
  }

  predicate RefsCovered(m: map<string, string>, refs: seq<SkillRef>) {
    forall k :: 0 <= k < |refs| ==> refs[k].code in m
  }

  lemma CoveredParts(m: map<string, string>, a: seq<SkillRef>, b: seq<SkillRef>)
    ensures RefsCovered(m, a + b) ==> RefsCovered(m, a) && RefsCovered(m, b)
  {
    assert forall k :: 0 <= k < |a| ==> (a + b)[k] == a[k];
    assert forall k :: 0 <= k < |b| ==> (a + b)[|a| + k] == b[k];
  }

  lemma {:induction false} ListCovered(m: map<string, string>, codes: seq<string>, holder: Holder, n: nat)
    requires n <= |codes| && RefsCovered(m, ListRefs(codes, holder, n))
    ensures Covered(m, codes[..n])
  {
    if n > 0 {
      var rest, last := ListRefs(codes, holder, n - 1), [SkillRef(SkillRefSpot(holder, n - 1), codes[n - 1])];
      CoveredParts(m, rest, last);
      ListCovered(m, codes, holder, n - 1);
      assert last[0].code in m;
    }
  }

  lemma WholeListCovered(m: map<string, string>, codes: seq<string>, holder: Holder)
    requires RefsCovered(m, ListRefs(codes, holder, |codes|))
    ensures Covered(m, codes)
  {
    ListCovered(m, codes, holder, |codes|);
    assert codes[..|codes|] == codes;
  }

  lemma {:induction false} ActivitiesCovered(m: map<string, string>, activities: seq<Activity>, lesson: nat, n: nat)
    requires n <= |activities| && RefsCovered(m, ActivityRefs(activities, lesson, n))
    ensures forall a :: 0 <= a < n ==> Covered(m, activities[a].skillCodes)
  {
    hide Covered, RefsCovered;
    if n > 0 {
      var codes := activities[n - 1].skillCodes;
      CoveredParts(m, ActivityRefs(activities, lesson, n - 1), ListRefs(codes, OfActivity(lesson, n - 1), |codes|));
      WholeListCovered(m, codes, OfActivity(lesson, n - 1));
      ActivitiesCovered(m, activities, lesson, n - 1);
    }
  }

  lemma {:induction false} LessonsCovered(m: map<string, string>, lessons: seq<Lesson>, n: nat)
    requires n <= |lessons| && RefsCovered(m, SkillRefs(lessons, n))
    ensures forall i :: 0 <= i < n ==> LessonCovered(m, lessons[i])
  {
    hide Covered, RefsCovered;
    if n > 0 {
      var l := lessons[n - 1];
      var own := ListRefs(l.skillCodes, OfLesson(n - 1), |l.skillCodes|);
      var acts := ActivityRefs(l.revision.activities, n - 1, |l.revision.activities|);
      CoveredParts(m, SkillRefs(lessons, n - 1), LessonRefs(l, n - 1));
      CoveredParts(m, own, acts);
      WholeListCovered(m, l.skillCodes, OfLesson(n - 1));
      ActivitiesCovered(m, l.revision.activities, n - 1, |l.revision.activities|);
      LessonsCovered(m, lessons, n - 1);
    }
  }

  predicate Among(revisions: seq<string>, n: nat, revision: string)
    requires n <= |revisions|
  {
    exists i :: 0 <= i < n && revisions[i] == revision
  }

  predicate DistinctKeys(rows: seq<ActivityData>) {
    forall i, j :: 0 <= i < j < |rows| ==> (rows[i].revision, rows[i].position) != (rows[j].revision, rows[j].position)
  }

  lemma {:induction false} ActivityKeys(p: Plan, revisions: seq<string>, n: nat)
    requires n <= |p.lessons| <= |revisions| && Distinct(revisions)
    ensures forall row :: row in ActivityRows(p, revisions, n) ==> Among(revisions, n, row.revision)
    ensures DistinctKeys(ActivityRows(p, revisions, n))
  {
    if n > 0 {
      ActivityKeys(p, revisions, n - 1);
      var activities := p.lessons[n - 1].revision.activities;
      var rest, list := ActivityRows(p, revisions, n - 1), ActivityList(activities, revisions[n - 1], p.source, |activities|);
      forall row: ActivityData | row in rest + list ensures Among(revisions, n, row.revision) {
        if row in rest {
          assert Among(revisions, n - 1, row.revision);
        } else {
          assert row.revision == revisions[n - 1];
        }
      }
      KeysJoin(rest, list, revisions, n - 1);
    }
  }

  lemma KeysJoin(rest: seq<ActivityData>, list: seq<ActivityData>, revisions: seq<string>, n: nat)
    requires n < |revisions| && Distinct(revisions) && DistinctKeys(rest)
    requires forall row :: row in rest ==> Among(revisions, n, row.revision)
    requires forall k :: 0 <= k < |list| ==> list[k].revision == revisions[n] && list[k].position == k
    ensures DistinctKeys(rest + list)
  {
    var rows := rest + list;
    forall i, j | 0 <= i < j < |rows| ensures (rows[i].revision, rows[i].position) != (rows[j].revision, rows[j].position) {
      if i < |rest| && j >= |rest| {
        assert rest[i] in rest && list[j - |rest|].revision == revisions[n];
      }
    }
  }

  lemma {:induction false} ActivityHasRow(p: Plan, revisions: seq<string>, n: nat, i: nat, a: nat)
    requires n <= |p.lessons| <= |revisions| && i < n && a < |p.lessons[i].revision.activities|
    ensures ActivityData(revisions[i], a, p.lessons[i].revision.activities[a], p.source) in ActivityRows(p, revisions, n)
  {
    var activities := p.lessons[n - 1].revision.activities;
    var rest, list := ActivityRows(p, revisions, n - 1), ActivityList(activities, revisions[n - 1], p.source, |activities|);
    if i == n - 1 {
      assert list[a] in list;
    } else {
      ActivityHasRow(p, revisions, n - 1, i, a);
    }
  }
}
