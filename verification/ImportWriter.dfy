/**
 The batch writer (src/content-import/import.service.ts:141-263). The database supplies the ids of the new rows and
 returns created rows in an order the writer may not rely on.
 */
module ImportWriter {
  import opened Basics
  import opened PrerequisiteGraph
  import opened ImportPlan
  import opened ImportResolver
  import opened ImportValidator
  import opened ImportAcceptance

  const INSERT_CHUNK: nat := 1000

  datatype Row<T> = Row(id: string, data: T)

  datatype RevisionData = RevisionData(lesson: Node, version: nat, title: string, description: Option<string>)

  datatype ActivityData = ActivityData(revision: string, position: nat, activity: Activity, source: Source)

  /** A junction row: its two ends. */
  datatype Link = Link(owner: string, target: string)

  /** The ids the database will give to the new rows. */
  datatype Ids = Ids(skills: seq<string>, lessons: seq<Node>, revisions: seq<string>, activities: seq<string>)

  // ---- batched inserts ----

  /** The returned row is one of the inserted ones, with its id. */
  ghost predicate Inserted<T>(data: seq<T>, ids: seq<string>, row: Row<T>) {
    exists k :: 0 <= k < |data| && k < |ids| && row == Row(ids[k], data[k])
  }

  /** The rows are exactly the data, each under its own id, in whatever order. */
  ghost predicate Wrote<T>(data: seq<T>, ids: seq<string>, rows: seq<Row<T>>) {
    && |ids| == |data| && |rows| == |data|
    && (forall k :: 0 <= k < |data| ==> Row(ids[k], data[k]) in rows)
    && (forall row :: row in rows ==> Inserted(data, ids, row))
  }

  /** Each inserted row gets its own id; callers know nothing about the order of the returned rows. */
  method CreateReturning<T>(data: seq<T>, ids: seq<string>) returns (rows: seq<Row<T>>)
    requires |ids| == |data|
    ensures |rows| == |data|
    ensures forall k :: 0 <= k < |data| ==> Row(ids[k], data[k]) in rows
    ensures forall row :: row in rows ==> Inserted(data, ids, row)
  {
    rows := [];
    for i := 0 to |data|
      invariant |rows| == i
      invariant forall k :: 0 <= k < i ==> Row(ids[k], data[k]) in rows
      invariant forall row :: row in rows ==> Inserted(data, ids, row)
    {
      rows := [Row(ids[i], data[i])] + rows;
    }
  }

  /** Inserts in bounded chunks; nothing is lost, repeated or reordered. */
  method ChunkedCreate<T>(table: seq<T>, rows: seq<T>) returns (table': seq<T>)
    ensures table' == table + rows
  {
    table' := table;
    var i := 0;
    while i < |rows|
      invariant table' == table + rows[..if i < |rows| then i else |rows|]
    {
      var end := if i + INSERT_CHUNK < |rows| then i + INSERT_CHUNK else |rows|;
      table' := table' + rows[i..end];
      assert rows[..end] == rows[..i] + rows[i..end];
      i := i + INSERT_CHUNK;
    }
  }

  lemma InsertedChunk<T>(data: seq<T>, ids: seq<string>, i: nat, end: nat, row: Row<T>)
    requires |ids| == |data| && i <= end <= |data| && Inserted(data[i..end], ids[i..end], row)
    ensures Inserted(data, ids, row)
  {
    var k :| 0 <= k < end - i && row == Row(ids[i..end][k], data[i..end][k]);
    assert ids[i..end][k] == ids[i + k] && data[i..end][k] == data[i + k];
  }

  method ChunkedCreateReturning<T>(data: seq<T>, ids: seq<string>) returns (rows: seq<Row<T>>)
    requires |ids| == |data|
    ensures |rows| == |data|
    ensures forall k :: 0 <= k < |data| ==> Row(ids[k], data[k]) in rows
    ensures forall row :: row in rows ==> Inserted(data, ids, row)
  {
    hide Inserted;
    rows := [];
    var i := 0;
    while i < |data|
      invariant |rows| == if i < |data| then i else |data|
      invariant forall k :: 0 <= k < i && k < |data| ==> Row(ids[k], data[k]) in rows
      invariant forall row :: row in rows ==> Inserted(data, ids, row)
    {
      var end := if i + INSERT_CHUNK < |data| then i + INSERT_CHUNK else |data|;
      var created := CreateReturning(data[i..end], ids[i..end]);
      forall k | i <= k < end ensures Row(ids[k], data[k]) in created {
        assert data[i..end][k - i] == data[k] && ids[i..end][k - i] == ids[k];
      }
      forall row | row in created ensures Inserted(data, ids, row) {
        InsertedChunk(data, ids, i, end, row);
      }
      rows := rows + created;
      i := i + INSERT_CHUNK;
    }
  }

  // ---- correlation by business keys ----

  /** The lesson ids by content key, whatever the order of the returned rows. */
  method IndexLessonRows(lessons: seq<Lesson>, ids: seq<Node>, rows: seq<Row<Lesson>>) returns (m: map<string, Node>)
    requires |ids| == |lessons| && forall i, j :: 0 <= i < j < |lessons| ==> lessons[i].contentKey != lessons[j].contentKey
    requires forall k :: 0 <= k < |lessons| ==> Row(ids[k], lessons[k]) in rows
    requires forall row :: row in rows ==> Inserted(lessons, ids, row)
    ensures forall k :: 0 <= k < |lessons| ==> lessons[k].contentKey in m && m[lessons[k].contentKey] == ids[k]
    ensures forall key :: key in m ==> exists k :: 0 <= k < |lessons| && lessons[k].contentKey == key
  {
    m := map[];
    for i := 0 to |rows|
      invariant forall key :: key in m ==> exists k :: 0 <= k < |lessons| && lessons[k].contentKey == key && m[key] == ids[k]
      invariant forall r :: 0 <= r < i ==> rows[r].data.contentKey in m
    {
      assert rows[i] in rows;
      m := m[rows[i].data.contentKey := rows[i].id];
    }
    forall k | 0 <= k < |lessons| ensures lessons[k].contentKey in m && m[lessons[k].contentKey] == ids[k] {
      var r :| 0 <= r < |rows| && rows[r] == Row(ids[k], lessons[k]);
      assert rows[r].data.contentKey in m;
    }
  }

  /** The id of the one new revision of each lesson. */
  method IndexRevisionRows(data: seq<RevisionData>, ids: seq<string>, rows: seq<Row<RevisionData>>) returns (m: map<Node, string>)
    requires |ids| == |data| && forall i, j :: 0 <= i < j < |data| ==> data[i].lesson != data[j].lesson
    requires forall k :: 0 <= k < |data| ==> Row(ids[k], data[k]) in rows
    requires forall row :: row in rows ==> Inserted(data, ids, row)
    ensures forall k :: 0 <= k < |data| ==> data[k].lesson in m && m[data[k].lesson] == ids[k]
  {
    m := map[];
    for i := 0 to |rows|
      invariant forall l :: l in m ==> exists k :: 0 <= k < |data| && data[k].lesson == l && m[l] == ids[k]
      invariant forall r :: 0 <= r < i ==> rows[r].data.lesson in m
    {
      assert rows[i] in rows;
      m := m[rows[i].data.lesson := rows[i].id];
    }
    forall k | 0 <= k < |data| ensures data[k].lesson in m && m[data[k].lesson] == ids[k] {
      var r :| 0 <= r < |rows| && rows[r] == Row(ids[k], data[k]);
      assert rows[r].data.lesson in m;
    }
  }

  /** The new activity ids by (revision, position). */
  method IndexActivityRows(data: seq<ActivityData>, ids: seq<string>, rows: seq<Row<ActivityData>>)
    returns (m: map<(string, nat), string>)
    requires |ids| == |data|
    requires forall i, j :: 0 <= i < j < |data| ==> (data[i].revision, data[i].position) != (data[j].revision, data[j].position)
    requires forall k :: 0 <= k < |data| ==> Row(ids[k], data[k]) in rows
    requires forall row :: row in rows ==> Inserted(data, ids, row)
    ensures forall k :: 0 <= k < |data| ==>
              (data[k].revision, data[k].position) in m && m[(data[k].revision, data[k].position)] == ids[k]
  {
    m := map[];
    for i := 0 to |rows|
      invariant forall p :: p in m ==> exists k :: 0 <= k < |data| && (data[k].revision, data[k].position) == p && m[p] == ids[k]
      invariant forall r :: 0 <= r < i ==> (rows[r].data.revision, rows[r].data.position) in m
    {
      assert rows[i] in rows;
      m := m[(rows[i].data.revision, rows[i].data.position) := rows[i].id];
    }
    forall k | 0 <= k < |data|
      ensures (data[k].revision, data[k].position) in m && m[(data[k].revision, data[k].position)] == ids[k]
    {
      var r :| 0 <= r < |rows| && rows[r] == Row(ids[k], data[k]);
      assert (rows[r].data.revision, rows[r].data.position) in m;
    }
  }

  // ---- 1. skills ----

  ghost predicate IsCreated(input: Input, n: nat, s: Skill)
    requires n <= |input.plan.skills|
  {
    exists i :: 0 <= i < n && input.plan.skills[i] == s && FateOf(input, s).Created?
  }

  /** The declared skills to create, in order. */
  function ToCreate(input: Input, n: nat): (r: seq<Skill>)
    requires n <= |input.plan.skills|
    ensures |r| == CreatedSkills(input, n)
  {
    if n == 0 then []
    else
      var s := input.plan.skills[n - 1];
      ToCreate(input, n - 1) + if FateOf(input, s).Created? then [s] else []
  }

  lemma {:induction false} ToCreateHolds(input: Input, n: nat, s: Skill)
    requires n <= |input.plan.skills|
    ensures s in ToCreate(input, n) <==> IsCreated(input, n, s)
  {
    hide FateOf;
    if n > 0 {
      ToCreateHolds(input, n - 1, s);
    }
  }

  /** A declared skill is missing from the resolution exactly when it is to be created. */
  lemma MissingIsCreated(input: Input, r: Resolution, i: nat)
    requires SkillsFit(input) && Resolves(input, r) && i < |input.plan.skills|
    ensures input.plan.skills[i].code !in r.skillIdByCode <==> FateOf(input, input.plan.skills[i]).Created?
  {
    var s := input.plan.skills[i];
    if FateOf(input, s).Reused? {
      assert ReusesSkill(input, |input.plan.skills|, AllRefs(input.plan), s.code);
    }
  }

  /** Reused skills keep their id, created ones have the id the database gave them, and every declared code has one. */
  ghost predicate SkillIdsRight(input: Input, r: Resolution, ids: seq<string>, m: map<string, string>) {
    && (forall code :: code in r.skillIdByCode ==> code in m && m[code] == r.skillIdByCode[code])
    && (forall k :: 0 <= k < |ids| && k < CreatedSkills(input, |input.plan.skills|)
          ==> ToCreate(input, |input.plan.skills|)[k].code in m && m[ToCreate(input, |input.plan.skills|)[k].code] == ids[k])
    && (forall i :: 0 <= i < |input.plan.skills| ==> input.plan.skills[i].code in m)
  }

  method FilterSkills(input: Input, r: Resolution) returns (toCreate: seq<Skill>)
    requires SkillsFit(input) && Resolves(input, r)
    ensures toCreate == ToCreate(input, |input.plan.skills|)
  {
    hide Resolves, SkillsFit, FateOf;
    toCreate := [];
    for i := 0 to |input.plan.skills|
      invariant toCreate == ToCreate(input, i)
    {
      MissingIsCreated(input, r, i);
      if input.plan.skills[i].code !in r.skillIdByCode {
        toCreate := toCreate + [input.plan.skills[i]];
      }
    }
  }

  lemma {:induction false} CreatedOnce(input: Input, n: nat)
    requires Tidy(input.plan) && n <= |input.plan.skills|
    ensures forall j, k :: 0 <= j < k < |ToCreate(input, n)| ==> ToCreate(input, n)[j].code != ToCreate(input, n)[k].code
  {
    hide FateOf;
    if n > 0 {
      CreatedOnce(input, n - 1);
      forall s | s in ToCreate(input, n - 1) ensures s.code != input.plan.skills[n - 1].code {
        ToCreateHolds(input, n - 1, s);
        var i :| 0 <= i < n - 1 && input.plan.skills[i] == s && FateOf(input, s).Created?;
      }
    }
  }

  method IndexSkillRows(known: map<string, string>, skills: seq<Skill>, ids: seq<string>, rows: seq<Row<Skill>>)
    returns (m: map<string, string>)
    requires |ids| == |skills| && forall j, k :: 0 <= j < k < |skills| ==> skills[j].code != skills[k].code
    requires forall s :: s in skills ==> s.code !in known && s.code != ""
    requires forall k :: 0 <= k < |skills| ==> Row(ids[k], skills[k]) in rows
    requires forall row :: row in rows ==> Inserted(skills, ids, row)
    ensures forall code :: code in known ==> code in m && m[code] == known[code]
    ensures forall k :: 0 <= k < |skills| ==> skills[k].code in m && m[skills[k].code] == ids[k]
  {
    m := known;
    for i := 0 to |rows|
      invariant forall code :: code in known ==> code in m && m[code] == known[code]
      invariant forall code :: code in m && code !in known
                               ==> exists k :: 0 <= k < |skills| && skills[k].code == code && m[code] == ids[k]
      invariant forall r :: 0 <= r < i ==> rows[r].data.code in m
    {
      assert rows[i] in rows;
      if rows[i].data.code != "" {
        m := m[rows[i].data.code := rows[i].id];
      }
    }
    forall k | 0 <= k < |skills| ensures skills[k].code in m && m[skills[k].code] == ids[k] {
      var r :| 0 <= r < |rows| && rows[r] == Row(ids[k], skills[k]);
      assert rows[r].data.code in m;
    }
  }

  lemma CreatedAreNew(input: Input, r: Resolution)
    requires Tidy(input.plan) && SkillsFit(input) && Resolves(input, r)
    ensures forall s :: s in ToCreate(input, |input.plan.skills|) ==> s.code !in r.skillIdByCode && s.code != ""
  {
    hide Resolves, SkillsFit, FateOf, ToCreate;
    forall s | s in ToCreate(input, |input.plan.skills|) ensures s.code !in r.skillIdByCode && s.code != "" {
      ToCreateHolds(input, |input.plan.skills|, s);
      var i :| 0 <= i < |input.plan.skills| && input.plan.skills[i] == s && FateOf(input, s).Created?;
      MissingIsCreated(input, r, i);
    }
  }

  lemma DeclaredHaveIds(input: Input, r: Resolution, m: map<string, string>, i: nat)
    requires SkillsFit(input) && Resolves(input, r) && i < |input.plan.skills|
    requires forall code :: code in r.skillIdByCode ==> code in m
    requires forall s :: s in ToCreate(input, |input.plan.skills|) ==> s.code in m
    ensures input.plan.skills[i].code in m
  {
    MissingIsCreated(input, r, i);
    hide Resolves, SkillsFit, FateOf, ToCreate;
    var s := input.plan.skills[i];
    if s.code !in r.skillIdByCode {
      ToCreateHolds(input, |input.plan.skills|, s);
    }
  }

  method PersistSkills(input: Input, r: Resolution, ids: seq<string>) returns (m: map<string, string>, rows: seq<Row<Skill>>)
    requires Tidy(input.plan) && SkillsFit(input) && Resolves(input, r)
    requires |ids| == CreatedSkills(input, |input.plan.skills|)
    ensures SkillIdsRight(input, r, ids, m)
    ensures Wrote(ToCreate(input, |input.plan.skills|), ids, rows)
  {
    hide Resolves, Tidy, SkillsFit, FateOf, ToCreate, CreatedSkills;
    var toCreate := FilterSkills(input, r);
    CreatedOnce(input, |input.plan.skills|);
    CreatedAreNew(input, r);
    rows := [];
    if |toCreate| > 0 {
      rows := CreateReturning(toCreate, ids);
    }
    m := IndexSkillRows(r.skillIdByCode, toCreate, ids, rows);
    forall i | 0 <= i < |input.plan.skills| ensures input.plan.skills[i].code in m {
      DeclaredHaveIds(input, r, m, i);
    }
  }

  /** Every code a lesson or activity refers to has an id. */
  lemma RefsHaveIds(input: Input, r: Resolution, ids: seq<string>, m: map<string, string>, k: nat)
    requires RefsFit(input, AllRefs(input.plan)) && Resolves(input, r) && SkillIdsRight(input, r, ids, m)
    requires k < |AllRefs(input.plan)|
    ensures AllRefs(input.plan)[k].code in m
  {
    var refs := AllRefs(input.plan);
    var code := refs[k].code;
    if RefFateOf(input, code).InBatch? {
      var i :| 0 <= i < |input.plan.skills| && input.plan.skills[i].code == code;
    } else {
      assert RefFateOf(input, code).Existing?;
      assert ReusesSkill(input, |input.plan.skills|, refs, code);
    }
  }
}
