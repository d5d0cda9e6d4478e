/** The normalized content package, the issues reported about it, and what its parser promises (src/content-import/import-contract.ts). */
module ImportPlan {
  import opened Basics
  import CanonicalJson

  datatype Activity = Activity(
    kind: string, position: nat, payload: CanonicalJson.Json, minutes: Option<nat>, skillCodes: seq<string>)

  datatype Revision = Revision(title: string, description: Option<string>, activities: seq<Activity>)

  datatype Lesson = Lesson(
    contentKey: string, slug: Option<string>, sortOrder: nat, skillCodes: seq<string>, prerequisites: seq<string>,
    revision: Revision)

  datatype Skill = Skill(code: string, name: string, description: Option<string>, sortOrder: nat)

  datatype Source = HUMAN | AI_ASSISTED | AI_GENERATED

  datatype Plan = Plan(source: Source, skills: seq<Skill>, lessons: seq<Lesson>)

  datatype Code =
    | InvalidDocument | LimitExceeded | ContentKeyDuplicate | SkillDuplicate
    | ContentKeyExists | SkillNotFound | SkillArchived | SkillConflict
    | PrerequisiteNotFound | PrerequisiteArchived | PrerequisiteSubjectMismatch | PrerequisiteCycle

  function HttpStatus(c: Code): int {
    match c
    case InvalidDocument => 400
    case LimitExceeded => 400
    case ContentKeyDuplicate => 400
    case SkillDuplicate => 400
    case ContentKeyExists => 409
    case SkillNotFound => 400
    case SkillArchived => 409
    case SkillConflict => 409
    case PrerequisiteNotFound => 400
    case PrerequisiteArchived => 409
    case PrerequisiteSubjectMismatch => 409
    case PrerequisiteCycle => 409
  }

  /** The list a reference is in: that of a lesson, or of one of its activities. */
  datatype Holder = OfLesson(lesson: nat) | OfActivity(lesson: nat, activity: nat)

  /** The place in the document that an issue names. */
  datatype Spot =
    | SkillSpot(skill: nat)
    | LessonSpot(lesson: nat)
    | SkillRefSpot(holder: Holder, index: nat)
    | PrerequisiteSpot(lesson: nat, index: nat)
    | SkillListSpot(holder: Holder)
    | PrerequisiteListSpot(lesson: nat)

  datatype Issue = Issue(code: Code, spot: Spot)

  // ---- what the parser guarantees of a plan it reports no issue about ----

  predicate TidyLesson(l: Lesson) {
    && Distinct(l.skillCodes) && Distinct(l.prerequisites)
    && forall a :: 0 <= a < |l.revision.activities| ==> Distinct(l.revision.activities[a].skillCodes)
  }

  predicate Tidy(p: Plan) {
    && (forall i :: 0 <= i < |p.skills| ==> p.skills[i].code != "")
    && (forall i, j :: 0 <= i < j < |p.skills| ==> p.skills[i].code != p.skills[j].code)
    && (forall i, j :: 0 <= i < j < |p.skills| ==> p.skills[i].name != p.skills[j].name)
    && (forall i, j :: 0 <= i < j < |p.lessons| ==> p.lessons[i].contentKey != p.lessons[j].contentKey)
    && (forall i :: 0 <= i < |p.lessons| ==> TidyLesson(p.lessons[i]))
  }

  // ---- the references of a plan, in the order they are visited ----

  datatype SkillRef = SkillRef(spot: Spot, code: string)

  datatype Requirement = Requirement(spot: Spot, source: string, target: string)

  function ListRefs(codes: seq<string>, holder: Holder, n: nat): seq<SkillRef>
    requires n <= |codes|
  {
    if n == 0 then [] else ListRefs(codes, holder, n - 1) + [SkillRef(SkillRefSpot(holder, n - 1), codes[n - 1])]
  }

  function ActivityRefs(activities: seq<Activity>, lesson: nat, n: nat): seq<SkillRef>
    requires n <= |activities|
  {
    if n == 0 then []
    else
      var codes := activities[n - 1].skillCodes;
      ActivityRefs(activities, lesson, n - 1) + ListRefs(codes, OfActivity(lesson, n - 1), |codes|)
  }

  function LessonRefs(l: Lesson, i: nat): seq<SkillRef> {
    ListRefs(l.skillCodes, OfLesson(i), |l.skillCodes|) + ActivityRefs(l.revision.activities, i, |l.revision.activities|)
  }

  function SkillRefs(lessons: seq<Lesson>, n: nat): seq<SkillRef>
    requires n <= |lessons|
  {
    if n == 0 then [] else SkillRefs(lessons, n - 1) + LessonRefs(lessons[n - 1], n - 1)
  }

  function ListRequirements(l: Lesson, i: nat, n: nat): seq<Requirement>
    requires n <= |l.prerequisites|
  {
    if n == 0 then []
    else ListRequirements(l, i, n - 1) + [Requirement(PrerequisiteSpot(i, n - 1), l.contentKey, l.prerequisites[n - 1])]
  }

  function Requirements(lessons: seq<Lesson>, n: nat): seq<Requirement>
    requires n <= |lessons|
  {
    if n == 0 then []
    else Requirements(lessons, n - 1) + ListRequirements(lessons[n - 1], n - 1, |lessons[n - 1].prerequisites|)
  }

  function AllRefs(p: Plan): seq<SkillRef> { SkillRefs(p.lessons, |p.lessons|) }

  function AllRequirements(p: Plan): seq<Requirement> { Requirements(p.lessons, |p.lessons|) }

  // ---- what the summary counts ----

  function ActivityMappings(activities: seq<Activity>, n: nat): nat
    requires n <= |activities|
  {
    if n == 0 then 0 else ActivityMappings(activities, n - 1) + DistinctCount(activities[n - 1].skillCodes)
  }

  datatype Counts = Counts(activities: nat, lessonMappings: nat, activityMappings: nat)

  function Count(lessons: seq<Lesson>, n: nat): Counts
    requires n <= |lessons|
  {
    if n == 0 then Counts(0, 0, 0)
    else
      var c, l := Count(lessons, n - 1), lessons[n - 1];
      Counts(c.activities + |l.revision.activities|,
             c.lessonMappings + DistinctCount(l.skillCodes),
             c.activityMappings + ActivityMappings(l.revision.activities, |l.revision.activities|))
  }
}
