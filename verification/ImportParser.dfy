/**
 The structural checks of the package parser that the writer relies on (src/content-import/import-parser.ts:32-203,
 :218-251): identities, duplicates, reference lists, limits. A raw entity carries the values of the fields that
 are only copied, and in `others` the issues of the field checks that are not part of this model (unknown keys,
 descriptions, slugs, sort orders, durations).
 */
module ImportParser {
  import opened Basics
  import opened ImportPlan
  import CanonicalJson

  datatype RawItem = NotText | Text(value: string)

  datatype RawList = Missing | NotAList | Items(items: seq<RawItem>)

  datatype RawSkill =
    | NotASkill
    | RawSkill(code: string, name: string, description: Option<string>, sortOrder: nat, others: seq<Issue>)

  /** `kind` is None when the type is unsupported, `payload` when the payload validator refuses it. */
  datatype RawActivity =
    | NotAnActivity
    | RawActivity(kind: Option<string>, payload: Option<CanonicalJson.Json>, minutes: Option<nat>, skillCodes: RawList,
                  others: seq<Issue>)

  datatype RawRevision =
    | NotARevision
    | RawRevision(title: string, description: Option<string>, activities: Option<seq<RawActivity>>, others: seq<Issue>)

  datatype RawLesson =
    | NotALesson
    | RawLesson(contentKey: string, slug: Option<string>, sortOrder: nat, skillCodes: RawList, prerequisites: RawList,
                revision: RawRevision, others: seq<Issue>)

  datatype RawDocument = RawDocument(source: Source, skills: seq<RawSkill>, lessons: seq<RawLesson>, others: seq<Issue>)

  datatype Parsed = ParseRefused(code: Code) | Parsed(plan: Plan, issues: seq<Issue>)

  const MAX_SKILLS: nat := 200
  const MAX_LESSONS: nat := 250
  const MAX_ACTIVITIES_TOTAL: nat := 5000
  const MAX_SKILL_REFS_PER_LESSON: nat := 100
  const MAX_SKILL_REFS_PER_ACTIVITY: nat := 50
  const MAX_PREREQUISITES_PER_LESSON: nat := 50
  const MAX_LESSON_SKILL_MAPPINGS: nat := 10_000
  const MAX_ACTIVITY_SKILL_MAPPINGS: nat := 25_000
  const MAX_PREREQUISITES_TOTAL: nat := 10_000

  // ---- text syntax ----

  /** The number of UTF-16 code units. */
  function Units(s: string): nat {
    if s == "" then 0 else (if s[0] > '\U{ffff}' then 2 else 1) + Units(s[1..])
  }

  predicate NoControl(s: string) {
    forall c :: c in s ==> c > '\U{1f}' && !('\U{7f}' <= c <= '\U{9f}')
  }

  predicate Alphanumeric(c: char) { 'A' <= c <= 'Z' || 'a' <= c <= 'z' || '0' <= c <= '9' }

  predicate KeySyntax(s: string) {
    s != "" && Alphanumeric(s[0]) && forall c :: c in s ==> Alphanumeric(c) || c in "._:-"
  }

  predicate CodeOk(t: string) { 1 <= Units(t) <= 80 && NoControl(t) }

  predicate NameOk(t: string) { 1 <= Units(t) <= 200 && NoControl(t) }

  predicate TitleOk(t: string) { 1 <= Units(t) <= 300 && NoControl(t) }

  predicate KeyOk(t: string) { 1 <= Units(t) <= 200 && KeySyntax(t) }

  // ---- reference lists ----

  datatype Site = SkillSite(holder: Holder) | PrerequisiteSite(lesson: nat)

  function ListSpot(site: Site): Spot {
    match site
    case SkillSite(holder) => SkillListSpot(holder)
    case PrerequisiteSite(lesson) => PrerequisiteListSpot(lesson)
  }

  function ItemSpot(site: Site, i: nat): Spot {
    match site
    case SkillSite(holder) => SkillRefSpot(holder, i)
    case PrerequisiteSite(lesson) => PrerequisiteSpot(lesson, i)
  }

  function Limit(site: Site): nat {
    match site
    case SkillSite(OfLesson(_)) => MAX_SKILL_REFS_PER_LESSON
    case SkillSite(OfActivity(_, _)) => MAX_SKILL_REFS_PER_ACTIVITY
    case PrerequisiteSite(_) => MAX_PREREQUISITES_PER_LESSON
  }

  predicate RefOk(site: Site, t: string) { if site.SkillSite? then CodeOk(t) else KeyOk(t) }

  /** An item that is well-formed text. */
  predicate GoodItem(site: Site, item: RawItem) { item.Text? && RefOk(site, Trim(item.value)) }

  /** A list the parser has nothing against: absent, or short enough with distinct well-formed items. */
  ghost predicate GoodList(site: Site, v: RawList) {
    v.Missing? || (
      && v.Items? && |v.items| <= Limit(site)
      && (forall i :: 0 <= i < |v.items| ==> GoodItem(site, v.items[i]))
      && (forall i, j :: 0 <= i < j < |v.items| ==> Trim(v.items[i].value) != Trim(v.items[j].value)))
  }

  /** The references a list stands for when it is good. */
  function ItemTexts(items: seq<RawItem>): (r: seq<string>)
    ensures |r| == |items|
    ensures forall i :: 0 <= i < |items| ==> r[i] == if items[i].Text? then Trim(items[i].value) else ""
  {
    if items == [] then []
    else [if items[0].Text? then Trim(items[0].value) else ""] + ItemTexts(items[1..])
  }

  function Texts(v: RawList): seq<string> { if v.Items? then ItemTexts(v.items) else [] }

  /** The references kept of any list, good or not: the well-formed items, each at its first occurrence. */
  function KeptItems(site: Site, items: seq<RawItem>): seq<string> {
    if items == [] then []
    else
      var rest, last := KeptItems(site, items[..|items| - 1]), items[|items| - 1];
      if GoodItem(site, last) && Trim(last.value) !in rest then rest + [Trim(last.value)] else rest
  }

  function KeptRefs(site: Site, v: RawList): seq<string> { if v.Items? then KeptItems(site, v.items) else [] }

  /** Whatever the list, the result has no duplicate; no issue is reported exactly when nothing was dropped or too long. */
  method NormRefList(v: RawList, site: Site) returns (out: seq<string>, issues: seq<Issue>)
    ensures out == KeptRefs(site, v)
    ensures Distinct(out) && forall t :: t in out ==> RefOk(site, t)
    ensures issues == [] <==> GoodList(site, v)
    ensures issues == [] ==> out == Texts(v)
  {
    hide Trim, RefOk, Limit, Distinct, ItemTexts, KeptItems;
    out, issues := [], [];
    NoTexts(site);
    if v.Missing? {
      return;
    }
    if v.NotAList? {
      issues := [Issue(InvalidDocument, ListSpot(site))];
      return;
    }
    GoodWhole(site, v);
    hide GoodList, GoodPrefix;
    if |v.items| > Limit(site) {
      issues := [Issue(LimitExceeded, ListSpot(site))];
    }
    var seen: set<string> := {};
    for i := 0 to |v.items|
      invariant Distinct(out) && (forall t :: t in out ==> RefOk(site, t))
      invariant forall t :: t in seen <==> t in out
      invariant |issues| == 0 <==> GoodPrefix(site, v.items, i) && |v.items| <= Limit(site)
      invariant |issues| == 0 ==> out == ItemTexts(v.items)[..i]
      invariant out == KeptItems(site, v.items[..i])
    {
      var item := v.items[i];
      KeptStep(site, v.items, i);
      PrefixStep(site, v.items, i);
      OneMore(ItemTexts(v.items), i);
      if item.NotText? || !RefOk(site, Trim(item.value)) || Trim(item.value) in seen {
        issues := issues + [Issue(InvalidDocument, ItemSpot(site, i))];
      } else {
        DistinctMore(out, Trim(item.value));
        seen := seen + {Trim(item.value)};
        out := out + [Trim(item.value)];
      }
    }
    assert ItemTexts(v.items)[..|v.items|] == ItemTexts(v.items);
    assert v.items[..|v.items|] == v.items;
  }

  lemma OneMore<T>(s: seq<T>, i: nat)
    requires i < |s|
    ensures s[..i + 1] == s[..i] + [s[i]]
  {
  }

  lemma NoTexts(site: Site)
    ensures Distinct<string>([]) && KeptItems(site, []) == []
  {
  }

  lemma KeptStep(site: Site, items: seq<RawItem>, i: nat)
    requires i < |items|
    ensures var rest, item := KeptItems(site, items[..i]), items[i];
            KeptItems(site, items[..i + 1])
            == if GoodItem(site, item) && Trim(item.value) !in rest then rest + [Trim(item.value)] else rest
  {
    assert items[..i + 1][..i] == items[..i];
  }

  lemma GoodWhole(site: Site, v: RawList)
    requires v.Items?
    ensures GoodList(site, v) <==> |v.items| <= Limit(site) && GoodPrefix(site, v.items, |v.items|)
    ensures GoodPrefix(site, v.items, 0)
  {
    hide Trim, RefOk;
  }

  ghost predicate GoodPrefix(site: Site, items: seq<RawItem>, n: nat)
    requires n <= |items|
  {
    && (forall i :: 0 <= i < n ==> GoodItem(site, items[i]))
    && (forall i, j :: 0 <= i < j < n ==> Trim(items[i].value) != Trim(items[j].value))
  }

  lemma PrefixStep(site: Site, items: seq<RawItem>, i: nat)
    requires i < |items|
    ensures GoodPrefix(site, items, i + 1)
            <==> GoodPrefix(site, items, i) && GoodItem(site, items[i]) && Trim(items[i].value) !in ItemTexts(items)[..i]
  {
    hide RefOk, Trim;
    var texts := ItemTexts(items);
    if GoodPrefix(site, items, i) && GoodItem(site, items[i]) {
      if Trim(items[i].value) in texts[..i] {
        var j :| 0 <= j < i && texts[..i][j] == Trim(items[i].value);
        assert texts[j] == Trim(items[j].value);
      } else {
        forall j | 0 <= j < i ensures Trim(items[j].value) != Trim(items[i].value) {
          assert texts[..i][j] == Trim(items[j].value);
        }
      }
    }
  }

  // ---- entities: what is refused, what is kept, and that good entities are kept whole ----

  function ListOf<T>(x: Option<T>): seq<T> { if x.Some? then [x.value] else [] }

  predicate GoodSkill(raw: RawSkill) {
    raw.RawSkill? && raw.others == [] && CodeOk(Trim(raw.code)) && NameOk(Trim(raw.name))
  }

  function SkillOf(raw: RawSkill): Skill
    requires raw.RawSkill?
  {
    Skill(Trim(raw.code), Trim(raw.name), raw.description, raw.sortOrder)
  }

  function KeptSkill(raw: RawSkill): Option<Skill> {
    if raw.NotASkill? || Trim(raw.code) == "" || Trim(raw.name) == "" then None else Some(SkillOf(raw))
  }

  method ValidateSkill(raw: RawSkill, i: nat) returns (skill: Option<Skill>, issues: seq<Issue>)
    ensures skill == KeptSkill(raw)
    ensures issues == [] <==> GoodSkill(raw)
    ensures issues == [] ==> skill == Some(SkillOf(raw))
    ensures skill.Some? ==> raw.RawSkill? && skill.value == SkillOf(raw)
  {
    if raw.NotASkill? {
      return None, [Issue(InvalidDocument, SkillSpot(i))];
    }
    issues := raw.others;
    var code, name := Trim(raw.code), Trim(raw.name);
    if code == "" || Units(code) > 80 || !NoControl(code) {
      issues := issues + [Issue(InvalidDocument, SkillSpot(i))];
    }
    if name == "" || Units(name) > 200 || !NoControl(name) {
      issues := issues + [Issue(InvalidDocument, SkillSpot(i))];
    }
    if code == "" || name == "" {
      skill := None;
    } else {
      skill := Some(SkillOf(raw));
    }
  }

  ghost predicate GoodActivity(raw: RawActivity, lesson: nat, i: nat) {
    raw.RawActivity? && raw.others == [] && raw.kind.Some? && raw.payload.Some?
    && GoodList(SkillSite(OfActivity(lesson, i)), raw.skillCodes)
  }

  function ActivityOf(raw: RawActivity, i: nat): Activity
    requires raw.RawActivity? && raw.kind.Some? && raw.payload.Some?
  {
    Activity(raw.kind.value, i, raw.payload.value, raw.minutes, Texts(raw.skillCodes))
  }

  /** What is kept of an activity, whatever issues it has. */
  function KeptActivity(raw: RawActivity, lesson: nat, i: nat): Option<Activity> {
    if raw.NotAnActivity? || raw.kind.None? || raw.payload.None? then None
    else
      var codes := KeptRefs(SkillSite(OfActivity(lesson, i)), raw.skillCodes);
      Some(Activity(raw.kind.value, i, raw.payload.value, raw.minutes, codes))
  }

  method ValidateActivity(raw: RawActivity, lesson: nat, i: nat) returns (activity: Option<Activity>, issues: seq<Issue>)
    ensures activity == KeptActivity(raw, lesson, i)
    ensures issues == [] <==> GoodActivity(raw, lesson, i)
    ensures issues == [] ==> activity == Some(ActivityOf(raw, i))
    ensures activity.Some? ==> Distinct(activity.value.skillCodes)
  {
    if raw.NotAnActivity? {
      return None, [Issue(InvalidDocument, LessonSpot(lesson))];
    }
    issues := raw.others;
    if raw.kind.None? {
      return None, issues + [Issue(InvalidDocument, LessonSpot(lesson))];
    }
    var codes, found := NormRefList(raw.skillCodes, SkillSite(OfActivity(lesson, i)));
    issues := issues + found;
    if raw.payload.None? {
      return None, issues + [Issue(InvalidDocument, LessonSpot(lesson))];
    }
    activity := Some(Activity(raw.kind.value, i, raw.payload.value, raw.minutes, codes));
  }

  ghost predicate GoodActivities(raw: seq<RawActivity>, lesson: nat) {
    forall i :: 0 <= i < |raw| ==> GoodActivity(raw[i], lesson, i)
  }

  ghost predicate KeepsActivities(raw: seq<RawActivity>, activities: seq<Activity>) {
    |activities| == |raw|
    && forall i :: 0 <= i < |raw| ==>
         raw[i].RawActivity? && raw[i].kind.Some? && raw[i].payload.Some? && activities[i] == ActivityOf(raw[i], i)
  }

  function KeptActivities(raw: seq<RawActivity>, lesson: nat): seq<Activity> {
    if raw == [] then []
    else
      var i := |raw| - 1;
      KeptActivities(raw[..i], lesson) + ListOf(KeptActivity(raw[i], lesson, i))
  }

  method ValidateActivities(raw: seq<RawActivity>, lesson: nat) returns (activities: seq<Activity>, issues: seq<Issue>)
    ensures activities == KeptActivities(raw, lesson)
    ensures issues == [] <==> GoodActivities(raw, lesson)
    ensures issues == [] ==> KeepsActivities(raw, activities)
    ensures forall a :: 0 <= a < |activities| ==> Distinct(activities[a].skillCodes)
  {
    hide Distinct, GoodList, KeptActivity, GoodActivity, GoodActivities, KeepsActivities, KeptActivities;
    activities, issues := [], [];
    NoActivities(lesson);
    for i := 0 to |raw|
      invariant activities == KeptActivities(raw[..i], lesson)
      invariant |issues| == 0 <==> GoodActivities(raw[..i], lesson)
      invariant |issues| == 0 ==> KeepsActivities(raw[..i], activities)
      invariant forall a :: 0 <= a < |activities| ==> Distinct(activities[a].skillCodes)
    {
      ActivitiesStep(raw, lesson, i, activities);
      var activity, found := ValidateActivity(raw[i], lesson, i);
      issues := issues + found;
      if activity.Some? {
        activities := activities + [activity.value];
      }
    }
    assert raw[..|raw|] == raw;
  }

  lemma NoActivities(lesson: nat)
    ensures GoodActivities([], lesson) && KeepsActivities([], []) && KeptActivities([], lesson) == []
  {
  }

  lemma GoodIsPresent(raw: RawActivity, lesson: nat, i: nat)
    requires GoodActivity(raw, lesson, i)
    ensures raw.RawActivity? && raw.kind.Some? && raw.payload.Some?
  {
  }

  lemma ActivitiesStep(raw: seq<RawActivity>, lesson: nat, i: nat, activities: seq<Activity>)
    requires i < |raw|
    ensures GoodActivities(raw[..i + 1], lesson) <==> GoodActivities(raw[..i], lesson) && GoodActivity(raw[i], lesson, i)
    ensures KeptActivities(raw[..i + 1], lesson) == KeptActivities(raw[..i], lesson) + ListOf(KeptActivity(raw[i], lesson, i))
    ensures KeepsActivities(raw[..i], activities) && GoodActivity(raw[i], lesson, i)
            ==> KeepsActivities(raw[..i + 1], activities + [ActivityOf(raw[i], i)])
  {
    hide KeptActivity, GoodActivity, ActivityOf;
    if GoodActivity(raw[i], lesson, i) {
      GoodIsPresent(raw[i], lesson, i);
    }
    assert raw[..i + 1][..i] == raw[..i];
    assert forall k :: 0 <= k < i ==> raw[..i + 1][k] == raw[..i][k];
  }

  ghost predicate GoodRevision(raw: RawRevision, lesson: nat) {
    raw.RawRevision? && raw.others == [] && TitleOk(Trim(raw.title))
    && raw.activities.Some? && GoodActivities(raw.activities.value, lesson)
  }

  ghost predicate KeepsRevision(raw: RawRevision, r: Revision) {
    raw.RawRevision? && r.title == Trim(raw.title) && r.description == raw.description
    && raw.activities.Some? && KeepsActivities(raw.activities.value, r.activities)
  }

  function KeptRevision(raw: RawRevision, lesson: nat): Option<Revision> {
    if raw.NotARevision? || Trim(raw.title) == "" then None
    else
      Some(Revision(Trim(raw.title), raw.description,
                    if raw.activities.None? then [] else KeptActivities(raw.activities.value, lesson)))
  }

  method ValidateRevision(raw: RawRevision, lesson: nat) returns (r: Option<Revision>, issues: seq<Issue>)
    ensures r == KeptRevision(raw, lesson)
    ensures issues == [] <==> GoodRevision(raw, lesson)
    ensures issues == [] ==> r.Some? && KeepsRevision(raw, r.value)
    ensures r.Some? ==> forall a :: 0 <= a < |r.value.activities| ==> Distinct(r.value.activities[a].skillCodes)
  {
    hide GoodActivities, KeepsActivities, KeptActivities, Distinct;
    if raw.NotARevision? {
      return None, [Issue(InvalidDocument, LessonSpot(lesson))];
    }
    issues := raw.others;
    var title := Trim(raw.title);
    if title == "" || Units(title) > 300 || !NoControl(title) {
      issues := issues + [Issue(InvalidDocument, LessonSpot(lesson))];
    }
    if raw.activities.None? {
      issues := issues + [Issue(InvalidDocument, LessonSpot(lesson))];
      r := if title == "" then None else Some(Revision(title, raw.description, []));
      return;
    }
    var activities, found := ValidateActivities(raw.activities.value, lesson);
    issues := issues + found;
    r := if title == "" then None else Some(Revision(title, raw.description, activities));
  }

  ghost predicate GoodLesson(raw: RawLesson, i: nat) {
    raw.RawLesson? && raw.others == [] && KeyOk(Trim(raw.contentKey))
    && GoodList(SkillSite(OfLesson(i)), raw.skillCodes) && GoodList(PrerequisiteSite(i), raw.prerequisites)
    && GoodRevision(raw.revision, i)
  }

  ghost predicate KeepsLesson(raw: RawLesson, l: Lesson) {
    raw.RawLesson? && l.contentKey == Trim(raw.contentKey) && l.slug == raw.slug && l.sortOrder == raw.sortOrder
    && l.skillCodes == Texts(raw.skillCodes) && l.prerequisites == Texts(raw.prerequisites)
    && KeepsRevision(raw.revision, l.revision)
  }

  function KeptLesson(raw: RawLesson, i: nat): Option<Lesson> {
    if raw.NotALesson? || Trim(raw.contentKey) == "" then None
    else
      var revision := KeptRevision(raw.revision, i);
      if revision.None? then None
      else
        Some(Lesson(Trim(raw.contentKey), raw.slug, raw.sortOrder, KeptRefs(SkillSite(OfLesson(i)), raw.skillCodes),
                    KeptRefs(PrerequisiteSite(i), raw.prerequisites), revision.value))
  }

  method ValidateLesson(raw: RawLesson, i: nat) returns (lesson: Option<Lesson>, issues: seq<Issue>)
    ensures lesson == KeptLesson(raw, i)
    ensures issues == [] <==> GoodLesson(raw, i)
    ensures issues == [] ==> lesson.Some? && KeepsLesson(raw, lesson.value)
    ensures lesson.Some? ==> raw.RawLesson? && lesson.value.contentKey == Trim(raw.contentKey) && TidyLesson(lesson.value)
  {
    hide GoodList, GoodRevision, KeepsRevision, KeptRevision, KeptRefs, Distinct, Texts;
    if raw.NotALesson? {
      return None, [Issue(InvalidDocument, LessonSpot(i))];
    }
    issues := raw.others;
    var key := Trim(raw.contentKey);
    if key == "" || Units(key) > 200 || !KeySyntax(key) {
      issues := issues + [Issue(InvalidDocument, LessonSpot(i))];
    }
    var codes, found := NormRefList(raw.skillCodes, SkillSite(OfLesson(i)));
    issues := issues + found;
    var prerequisites, more := NormRefList(raw.prerequisites, PrerequisiteSite(i));
    issues := issues + more;
    var revision, last := ValidateRevision(raw.revision, i);
    issues := issues + last;
    if key == "" || revision.None? {
      lesson := None;
    } else {
      lesson := Some(Lesson(key, raw.slug, raw.sortOrder, codes, prerequisites, revision.value));
    }
  }

  // ---- identities across the package ----

  ghost predicate GoodSkills(raw: seq<RawSkill>) {
    && (forall i :: 0 <= i < |raw| ==> GoodSkill(raw[i]))
    && (forall i, j :: 0 <= i < j < |raw| ==> Trim(raw[i].code) != Trim(raw[j].code) && Trim(raw[i].name) != Trim(raw[j].name))
  }

  ghost predicate KeepsSkills(raw: seq<RawSkill>, skills: seq<Skill>) {
    |skills| == |raw| && forall i :: 0 <= i < |raw| ==> raw[i].RawSkill? && skills[i] == SkillOf(raw[i])
  }

  lemma SkillsStep(raw: seq<RawSkill>, i: nat, skills: seq<Skill>)
    requires i < |raw|
    requires GoodSkills(raw[..i]) ==> KeepsSkills(raw[..i], skills)
    ensures GoodSkills(raw[..i]) && GoodSkill(raw[i])
            ==> (GoodSkills(raw[..i + 1])
                 <==> (forall s :: s in skills ==> s.code != Trim(raw[i].code) && s.name != Trim(raw[i].name)))
    ensures GoodSkills(raw[..i + 1]) ==> GoodSkills(raw[..i]) && GoodSkill(raw[i])
  {
    hide Trim, CodeOk, NameOk;
    var a, b := raw[..i], raw[..i + 1];
    assert forall k :: 0 <= k < i ==> b[k] == a[k];
    assert b[i] == raw[i];
    if GoodSkills(a) && GoodSkill(raw[i]) {
      if GoodSkills(b) {
        forall s | s in skills ensures s.code != Trim(raw[i].code) && s.name != Trim(raw[i].name) {
          var k :| 0 <= k < i && skills[k] == s;
          assert s == SkillOf(b[k]);
        }
      }
      if forall s :: s in skills ==> s.code != Trim(raw[i].code) && s.name != Trim(raw[i].name) {
        forall k | 0 <= k < i ensures Trim(b[k].code) != Trim(b[i].code) && Trim(b[k].name) != Trim(b[i].name) {
          assert skills[k] in skills && skills[k] == SkillOf(a[k]);
        }
      }
    }
  }

  /** The skills kept of any list, a skill with a repeated code or name included. */
  function KeptSkills(raw: seq<RawSkill>): seq<Skill> {
    if raw == [] then [] else KeptSkills(raw[..|raw| - 1]) + ListOf(KeptSkill(raw[|raw| - 1]))
  }

  /** A skill that is kept and repeats the code or the name of one kept before it. */
  ghost predicate RepeatsSkill(raw: seq<RawSkill>, i: nat) {
    && i < |raw| && KeptSkill(raw[i]).Some?
    && exists j :: 0 <= j < i && KeptSkill(raw[j]).Some?
                   && (KeptSkill(raw[j]).value.code == KeptSkill(raw[i]).value.code
                       || KeptSkill(raw[j]).value.name == KeptSkill(raw[i]).value.name)
  }

  /** The codes and names of the first `n` skills kept are seen. */
  ghost predicate SkillsSeen(raw: seq<RawSkill>, n: nat, codes: set<string>, names: set<string>)
    requires n <= |raw|
  {
    forall j :: 0 <= j < n && KeptSkill(raw[j]).Some? ==>
      KeptSkill(raw[j]).value.code in codes && KeptSkill(raw[j]).value.name in names
  }

  /** Every skill among the first `n` that repeats a code or a name is reported as a duplicate. */
  ghost predicate SkillsReported(raw: seq<RawSkill>, n: nat, issues: seq<Issue>) {
    forall j :: 0 <= j < n && RepeatsSkill(raw, j) ==> Issue(SkillDuplicate, SkillSpot(j)) in issues
  }

  lemma SkillReported(raw: seq<RawSkill>, i: nat, codes: set<string>, names: set<string>, before: seq<Issue>,
                      codes': set<string>, names': set<string>, after: seq<Issue>)
    requires i < |raw| && SkillsSeen(raw, i, codes, names) && SkillsReported(raw, i, before)
    requires codes <= codes' && names <= names' && before <= after
    requires var s := KeptSkill(raw[i]);
             s.Some? ==>
               && s.value.code in codes' && s.value.name in names'
               && (s.value.code in codes || s.value.name in names ==> Issue(SkillDuplicate, SkillSpot(i)) in after)
    ensures SkillsSeen(raw, i + 1, codes', names') && SkillsReported(raw, i + 1, after)
  {
    hide KeptSkill;
  }

  method ParseSkills(raw: seq<RawSkill>) returns (skills: seq<Skill>, issues: seq<Issue>)
    ensures skills == KeptSkills(raw)
    ensures issues == [] <==> GoodSkills(raw)
    ensures issues == [] ==> KeepsSkills(raw, skills)
    ensures SkillsReported(raw, |raw|, issues)
  {
    hide GoodSkills, KeepsSkills, GoodSkill, KeptSkill, KeptSkills, SkillOf, Trim, RepeatsSkill, SkillsSeen;
    SkillsUnseen(raw);
    skills, issues := [], [];
    var seenCodes: set<string>, seenNames: set<string> := {}, {};
    NoSkills();
    for i := 0 to |raw|
      invariant skills == KeptSkills(raw[..i])
      invariant |issues| == 0 <==> GoodSkills(raw[..i])
      invariant |issues| == 0 ==> KeepsSkills(raw[..i], skills)
      invariant forall s :: s in skills ==> s.code in seenCodes && s.name in seenNames
      invariant |issues| == 0 ==> (forall c :: c in seenCodes ==> exists s :: s in skills && s.code == c)
      invariant |issues| == 0 ==> (forall n :: n in seenNames ==> exists s :: s in skills && s.name == n)
      invariant SkillsSeen(raw, i, seenCodes, seenNames) && SkillsReported(raw, i, issues)
    {
      SkillsStep(raw, i, skills);
      KeptSkillsStep(raw, i);
      var skill, found := ValidateSkill(raw[i], i);
      ghost var clean := |issues| == 0 && |found| == 0;
      ghost var before, codes, names := issues, seenCodes, seenNames;
      issues := issues + found;
      if skill.Some? {
        var s := skill.value;
        SkillFields(raw[i]);
        if s.code in seenCodes {
          issues := issues + [Issue(SkillDuplicate, SkillSpot(i))];
        } else {
          seenCodes := seenCodes + {s.code};
        }
        if s.name in seenNames {
          issues := issues + [Issue(SkillDuplicate, SkillSpot(i))];
        } else {
          seenNames := seenNames + {s.name};
        }
        if clean {
          SkillsKept(raw, i, skills);
        }
        skills := skills + [s];
        assert s in skills;
      }
      SkillReported(raw, i, codes, names, before, seenCodes, seenNames, issues);
    }
    assert raw[..|raw|] == raw;
  }

  lemma SkillsUnseen(raw: seq<RawSkill>)
    ensures SkillsSeen(raw, 0, {}, {})
  {
  }

  lemma NoSkills()
    ensures GoodSkills([]) && KeepsSkills([], []) && KeptSkills([]) == []
  {
  }

  lemma KeptSkillsStep(raw: seq<RawSkill>, i: nat)
    requires i < |raw|
    ensures KeptSkills(raw[..i + 1]) == KeptSkills(raw[..i]) + ListOf(KeptSkill(raw[i]))
  {
    hide KeptSkill;
    assert raw[..i + 1][..i] == raw[..i];
  }

  lemma SkillFields(raw: RawSkill)
    requires raw.RawSkill?
    ensures SkillOf(raw).code == Trim(raw.code) && SkillOf(raw).name == Trim(raw.name)
  {
  }

  lemma SkillsKept(raw: seq<RawSkill>, i: nat, skills: seq<Skill>)
    requires i < |raw| && KeepsSkills(raw[..i], skills) && raw[i].RawSkill?
    ensures KeepsSkills(raw[..i + 1], skills + [SkillOf(raw[i])])
  {
    hide SkillOf;
    assert forall k :: 0 <= k < i ==> raw[..i + 1][k] == raw[..i][k];
  }

  ghost predicate GoodLessons(raw: seq<RawLesson>) {
    && (forall i :: 0 <= i < |raw| ==> GoodLesson(raw[i], i))
    && (forall i, j :: 0 <= i < j < |raw| ==> Trim(raw[i].contentKey) != Trim(raw[j].contentKey))
  }

  ghost predicate KeepsLessons(raw: seq<RawLesson>, lessons: seq<Lesson>) {
    |lessons| == |raw| && forall i :: 0 <= i < |raw| ==> KeepsLesson(raw[i], lessons[i])
  }

  lemma LessonsStep(raw: seq<RawLesson>, i: nat, lessons: seq<Lesson>)
    requires i < |raw|
    requires GoodLessons(raw[..i]) ==> KeepsLessons(raw[..i], lessons)
    ensures GoodLessons(raw[..i]) && GoodLesson(raw[i], i)
            ==> (GoodLessons(raw[..i + 1]) <==> (forall l :: l in lessons ==> l.contentKey != Trim(raw[i].contentKey)))
    ensures GoodLessons(raw[..i + 1]) ==> GoodLessons(raw[..i]) && GoodLesson(raw[i], i)
  {
    hide Trim, KeyOk, GoodList, GoodRevision, KeepsRevision, Texts;
    var a, b := raw[..i], raw[..i + 1];
    assert forall k :: 0 <= k < i ==> b[k] == a[k];
    assert b[i] == raw[i];
    if GoodLessons(a) && GoodLesson(raw[i], i) {
      if GoodLessons(b) {
        forall l | l in lessons ensures l.contentKey != Trim(raw[i].contentKey) {
          var k :| 0 <= k < i && lessons[k] == l;
          assert KeepsLesson(a[k], l) && b[k] == a[k];
        }
      }
      if forall l :: l in lessons ==> l.contentKey != Trim(raw[i].contentKey) {
        forall k | 0 <= k < i ensures Trim(b[k].contentKey) != Trim(b[i].contentKey) {
          assert lessons[k] in lessons && KeepsLesson(a[k], lessons[k]);
        }
      }
    }
  }

  lemma LessonsKept(raw: seq<RawLesson>, i: nat, lessons: seq<Lesson>, l: Lesson)
    requires i < |raw| && KeepsLessons(raw[..i], lessons) && KeepsLesson(raw[i], l)
    ensures KeepsLessons(raw[..i + 1], lessons + [l])
  {
    hide KeepsLesson;
    assert forall k :: 0 <= k < i ==> raw[..i + 1][k] == raw[..i][k];
  }

  lemma NoLessons()
    ensures GoodLessons([]) && KeepsLessons([], [])
  {
  }

  /** The lessons kept of any list, a lesson with a repeated key included. */
  function KeptLessons(raw: seq<RawLesson>): seq<Lesson> {
    if raw == [] then []
    else
      var i := |raw| - 1;
      KeptLessons(raw[..i]) + ListOf(KeptLesson(raw[i], i))
  }

  /** A lesson that is kept and repeats the content key of one kept before it. */
  ghost predicate RepeatsKey(raw: seq<RawLesson>, i: nat) {
    && i < |raw| && KeptLesson(raw[i], i).Some?
    && exists j :: 0 <= j < i && KeptLesson(raw[j], j).Some?
                   && KeptLesson(raw[j], j).value.contentKey == KeptLesson(raw[i], i).value.contentKey
  }

  /** The content keys of the first `n` lessons kept are seen. */
  ghost predicate KeysSeen(raw: seq<RawLesson>, n: nat, keys: set<string>)
    requires n <= |raw|
  {
    forall j :: 0 <= j < n && KeptLesson(raw[j], j).Some? ==> KeptLesson(raw[j], j).value.contentKey in keys
  }

  /** Every lesson among the first `n` that repeats a content key is reported as a duplicate. */
  ghost predicate KeysReported(raw: seq<RawLesson>, n: nat, issues: seq<Issue>) {
    forall j :: 0 <= j < n && RepeatsKey(raw, j) ==> Issue(ContentKeyDuplicate, LessonSpot(j)) in issues
  }

  lemma KeyReported(raw: seq<RawLesson>, i: nat, keys: set<string>, before: seq<Issue>, keys': set<string>, after: seq<Issue>)
    requires i < |raw| && KeysSeen(raw, i, keys) && KeysReported(raw, i, before) && keys <= keys' && before <= after
    requires var l := KeptLesson(raw[i], i);
             l.Some? ==>
               && l.value.contentKey in keys'
               && (l.value.contentKey in keys ==> Issue(ContentKeyDuplicate, LessonSpot(i)) in after)
    ensures KeysSeen(raw, i + 1, keys') && KeysReported(raw, i + 1, after)
  {
    hide KeptLesson;
  }

  method ParseLessons(raw: seq<RawLesson>) returns (lessons: seq<Lesson>, issues: seq<Issue>, activities: nat)
    ensures lessons == KeptLessons(raw)
    ensures issues == [] <==> GoodLessons(raw)
    ensures issues == [] ==> KeepsLessons(raw, lessons)
    ensures forall i :: 0 <= i < |lessons| ==> TidyLesson(lessons[i])
    ensures activities == Count(lessons, |lessons|).activities
    ensures KeysReported(raw, |raw|, issues)
  {
    hide GoodLessons, KeepsLessons, GoodLesson, KeepsLesson, KeptLesson, Trim, TidyLesson, DistinctCount, ActivityMappings,
      RepeatsKey, KeysSeen;
    KeysUnseen(raw);
    lessons, issues, activities := [], [], 0;
    var seen: set<string> := {};
    NoLessons();
    for i := 0 to |raw|
      invariant lessons == KeptLessons(raw[..i])
      invariant issues == [] <==> GoodLessons(raw[..i])
      invariant issues == [] ==> KeepsLessons(raw[..i], lessons)
      invariant forall k :: 0 <= k < |lessons| ==> TidyLesson(lessons[k])
      invariant forall key :: key in seen <==> exists l :: l in lessons && l.contentKey == key
      invariant activities == Count(lessons, |lessons|).activities
      invariant KeysSeen(raw, i, seen) && KeysReported(raw, i, issues)
    {
      LessonsStep(raw, i, lessons);
      assert raw[..i + 1][..i] == raw[..i];
      var lesson, found := ValidateLesson(raw[i], i);
      ghost var clean := issues == [] && found == [];
      ghost var before, keys := issues, seen;
      issues := issues + found;
      if lesson.Some? {
        var l := lesson.value;
        if l.contentKey in seen {
          issues := issues + [Issue(ContentKeyDuplicate, LessonSpot(i))];
        } else {
          seen := seen + {l.contentKey};
        }
        if clean {
          LessonsKept(raw, i, lessons, l);
        }
        CountMore(lessons, l);
        activities := activities + |l.revision.activities|;
        lessons := lessons + [l];
      }
      KeyReported(raw, i, keys, before, seen, issues);
    }
    assert raw[..|raw|] == raw;
  }

  lemma KeysUnseen(raw: seq<RawLesson>)
    ensures KeysSeen(raw, 0, {})
  {
  }

  lemma {:induction false} CountPrefix(lessons: seq<Lesson>, l: Lesson, n: nat)
    requires n <= |lessons|
    ensures Count(lessons + [l], n) == Count(lessons, n)
  {
    if n > 0 {
      CountPrefix(lessons, l, n - 1);
    }
  }

  lemma CountMore(lessons: seq<Lesson>, l: Lesson)
    ensures Count(lessons + [l], |lessons| + 1).activities == Count(lessons, |lessons|).activities + |l.revision.activities|
  {
    CountPrefix(lessons, l, |lessons|);
  }

  // ---- the package ----

  function RefTotal(activities: seq<Activity>): nat {
    if activities == [] then 0
    else RefTotal(activities[..|activities| - 1]) + |activities[|activities| - 1].skillCodes|
  }

  datatype Totals = Totals(lessonSkills: nat, prerequisites: nat, activitySkills: nat)

  function Total(lessons: seq<Lesson>): Totals {
    if lessons == [] then Totals(0, 0, 0)
    else
      var t, l := Total(lessons[..|lessons| - 1]), lessons[|lessons| - 1];
      Totals(t.lessonSkills + |l.skillCodes|, t.prerequisites + |l.prerequisites|,
             t.activitySkills + RefTotal(l.revision.activities))
  }

  method SumTotals(lessons: seq<Lesson>) returns (t: Totals)
    ensures t == Total(lessons)
  {
    t := Totals(0, 0, 0);
    for i := 0 to |lessons|
      invariant t == Total(lessons[..i])
    {
      var l := lessons[i];
      var refs := 0;
      for a := 0 to |l.revision.activities|
        invariant refs == RefTotal(l.revision.activities[..a])
      {
        assert l.revision.activities[..a + 1][..a] == l.revision.activities[..a];
        refs := refs + |l.revision.activities[a].skillCodes|;
      }
      assert l.revision.activities[..|l.revision.activities|] == l.revision.activities;
      assert lessons[..i + 1][..i] == lessons[..i];
      t := Totals(t.lessonSkills + |l.skillCodes|, t.prerequisites + |l.prerequisites|, t.activitySkills + refs);
    }
    assert lessons[..|lessons|] == lessons;
  }

  ghost predicate Bounded(lessons: seq<Lesson>) {
    var t := Total(lessons);
    && Count(lessons, |lessons|).activities <= MAX_ACTIVITIES_TOTAL
    && t.lessonSkills <= MAX_LESSON_SKILL_MAPPINGS && t.activitySkills <= MAX_ACTIVITY_SKILL_MAPPINGS
    && t.prerequisites <= MAX_PREREQUISITES_TOTAL
  }

  function PlanOf(raw: RawDocument): Plan { Plan(raw.source, KeptSkills(raw.skills), KeptLessons(raw.lessons)) }

  /** Neither list is too long, and what is kept of the lessons stays within every total. */
  ghost predicate WithinLimits(raw: RawDocument) {
    |raw.skills| <= MAX_SKILLS && |raw.lessons| <= MAX_LESSONS && Bounded(KeptLessons(raw.lessons))
  }

  ghost predicate GoodDocument(raw: RawDocument) {
    raw.others == [] && GoodSkills(raw.skills) && GoodLessons(raw.lessons)
  }

  /**
   A package is refused exactly when it is over a limit. Otherwise it is parsed, without issue exactly when every entity
   is good and no identity is repeated; its plan then keeps every entity and is tidy.
   */
  method ParseImportDocument(raw: RawDocument) returns (r: Parsed)
    ensures r.ParseRefused? <==> !WithinLimits(raw)
    ensures r.ParseRefused? ==> r.code == LimitExceeded
    ensures r.Parsed? ==> (r.issues == [] <==> GoodDocument(raw))
    ensures r.Parsed? ==> r.plan == PlanOf(raw)
    ensures r.Parsed? ==> SkillsReported(raw.skills, |raw.skills|, r.issues)
    ensures r.Parsed? ==> KeysReported(raw.lessons, |raw.lessons|, r.issues)
    ensures r.Parsed? && r.issues == []
            ==> Tidy(r.plan) && KeepsSkills(raw.skills, r.plan.skills) && KeepsLessons(raw.lessons, r.plan.lessons)
  {
    hide Tidy, GoodSkills, GoodLessons, KeepsSkills, KeepsLessons, KeptLessons, KeptSkills, TidyLesson, Count, Total,
      RepeatsSkill, RepeatsKey;
    if |raw.skills| > MAX_SKILLS || |raw.lessons| > MAX_LESSONS {
      return ParseRefused(LimitExceeded);
    }
    var skills, skillIssues := ParseSkills(raw.skills);
    var lessons, lessonIssues, activities := ParseLessons(raw.lessons);
    if activities > MAX_ACTIVITIES_TOTAL {
      return ParseRefused(LimitExceeded);
    }
    var t := SumTotals(lessons);
    if t.lessonSkills > MAX_LESSON_SKILL_MAPPINGS || t.activitySkills > MAX_ACTIVITY_SKILL_MAPPINGS
       || t.prerequisites > MAX_PREREQUISITES_TOTAL {
      return ParseRefused(LimitExceeded);
    }
    var issues := raw.others + skillIssues + lessonIssues;
    r := Parsed(Plan(raw.source, skills, lessons), issues);
    if |issues| == 0 {
      KeptIsTidy(raw, r.plan);
    }
  }

  lemma KeptIsTidy(raw: RawDocument, p: Plan)
    requires GoodSkills(raw.skills) && GoodLessons(raw.lessons)
    requires KeepsSkills(raw.skills, p.skills) && KeepsLessons(raw.lessons, p.lessons)
    requires forall i :: 0 <= i < |p.lessons| ==> TidyLesson(p.lessons[i])
    ensures Tidy(p)
  {
    hide GoodList, GoodRevision, KeepsRevision, TidyLesson, NoControl, KeySyntax, Trim, Texts;
    forall i | 0 <= i < |p.skills| ensures p.skills[i].code != "" {
      assert GoodSkill(raw.skills[i]) && p.skills[i] == SkillOf(raw.skills[i]);
    }
    forall i, j | 0 <= i < j < |p.lessons| ensures p.lessons[i].contentKey != p.lessons[j].contentKey {
      assert KeepsLesson(raw.lessons[i], p.lessons[i]) && KeepsLesson(raw.lessons[j], p.lessons[j]);
    }
  }
}
