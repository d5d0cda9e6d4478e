/**
 The prerequisite graph of all subjects under authoring and import (src/content-authoring/prerequisite.service.ts:39-87,
 prerequisite.repository.ts, hierarchy.service.ts:263-279, src/content-import/import.service.ts:107-122). Each writer
 holds the lock of one subject and checks the edges of that subject only. A call that throws changes nothing.
 */
module Curriculum {
  import opened Basics
  import opened OptimisticTokens
  import opened PrerequisiteGraph
  import opened ImportPlan
  import opened ImportResolver
  import opened ImportValidator
  import opened ImportAcceptance
  import opened ImportWriter
  import opened ImportApply
  import opened ImportParser
  import opened ImportService

  datatype LessonRow = LessonRow(topic: string, key: string, status: LessonStatus, token: int)

  /** `subjects` gives the subject of each topic; topics never change subject. Edge rows are unique. */
  datatype Tables = Tables(subjects: map<string, string>, lessons: map<Node, LessonRow>, edges: seq<Edge>)

  datatype Outcome =
    | Done | Unchanged | LessonNotFound | TopicNotFound | NotDraft | TargetArchived | SelfLoop | EditConflict | CycleRefused

  function SubjectOf(t: Tables, lesson: Node): string {
    if lesson in t.lessons && t.lessons[lesson].topic in t.subjects then t.subjects[t.lessons[lesson].topic] else ""
  }

  /** The edges whose source lesson belongs to the subject. */
  function SubjectGraph(t: Tables, subject: string): set<Edge> {
    set e | e in t.edges && SubjectOf(t, e.lesson) == subject
  }

  function WithToken(t: Tables, lesson: Node, expected: int, clock: int): Tables
    requires lesson in t.lessons
  {
    t.(lessons := t.lessons[lesson := t.lessons[lesson].(token := NextToken(expected, clock))])
  }

  // ---- the transactions ----

  ghost function Add(t: Tables, source: Node, target: Node, expected: int, clock: int): (Tables, Outcome) {
    if source !in t.lessons || target !in t.lessons || SubjectOf(t, target) != SubjectOf(t, source) then (t, LessonNotFound)
    else if !t.lessons[source].status.DRAFT? then (t, NotDraft)
    else if t.lessons[target].status.ARCHIVED? then (t, TargetArchived)
    else if source == target then (t, SelfLoop)
    else if t.lessons[source].token != expected then (t, EditConflict)
    else if Edge(source, target) in t.edges then (t, Unchanged)
    else if Reach(SubjectGraph(t, SubjectOf(t, source)), target, source) then (t, CycleRefused)
    else (WithToken(t, source, expected, clock).(edges := t.edges + [Edge(source, target)]), Done)
  }

  function Without(edges: seq<Edge>, e: Edge): (r: seq<Edge>)
    ensures forall f :: f in r <==> f in edges && f != e
  {
    if edges == [] then []
    else (if edges[0] == e then [] else [edges[0]]) + Without(edges[1..], e)
  }

  function Remove(t: Tables, source: Node, target: Node, expected: int, clock: int): (Tables, Outcome) {
    if source !in t.lessons then (t, LessonNotFound)
    else if !t.lessons[source].status.DRAFT? then (t, NotDraft)
    else if t.lessons[source].token != expected then (t, EditConflict)
    else if Edge(source, target) !in t.edges then (t, Unchanged)
    else (WithToken(t, source, expected, clock).(edges := Without(t.edges, Edge(source, target))), Done)
  }

  function Move(t: Tables, lesson: Node, topic: string, expected: int, clock: int): (Tables, Outcome) {
    if lesson !in t.lessons then (t, LessonNotFound)
    else if !t.lessons[lesson].status.DRAFT? then (t, NotDraft)
    else if topic !in t.subjects || t.subjects[topic] != SubjectOf(t, lesson) then (t, TopicNotFound)
    else if t.lessons[lesson].token != expected then (t, EditConflict)
    else
      var row := t.lessons[lesson].(topic := topic, token := NextToken(expected, clock));
      (t.(lessons := t.lessons[lesson := row]), Done)
  }

  ghost predicate FoundLessons(t: Tables, found: seq<ExistingLesson>) {
    forall l :: l in found ==>
      l.id in t.lessons && l.subject == SubjectOf(t, l.id) && l.status == t.lessons[l.id].status
      && l.contentKey == t.lessons[l.id].key
  }

  /** What the import transaction reads of the locked subject. */
  ghost predicate Snapshot(t: Tables, topic: string, input: Input) {
    && topic in t.subjects && input.subject == t.subjects[topic]
    && EdgeSet(input.edges) == SubjectGraph(t, input.subject)
    && FoundLessons(t, input.lessons)
  }

  /** The rows an import adds: new DRAFT lessons under the topic, and the written edges. */
  ghost predicate Imports(t: Tables, topic: string, input: Input, r: Resolution, ids: Ids, w: Written, token: int, t': Tables) {
    && |ids.lessons| == |input.plan.lessons| && Snapshot(t, topic, input) && FreshIds(input, ids)
    && Accepted(input) && Resolves(input, r) && WritesPlan(input, r, ids, w)
    && (forall id :: id in ids.lessons ==> id !in t.lessons && DatabaseId(id))
    && t'.subjects == t.subjects && t'.edges == t.edges + w.prerequisites
    && t'.lessons.Keys == t.lessons.Keys + (set id | id in ids.lessons)
    && (forall id :: id in t.lessons ==> t'.lessons[id] == t.lessons[id])
    && (forall k :: 0 <= k < |ids.lessons| ==>
          t'.lessons[ids.lessons[k]] == LessonRow(topic, input.plan.lessons[k].contentKey, DRAFT, token))
  }

  // ---- the invariant ----

  /** Rows refer to rows, no edge leaves its subject, and the graph of all subjects together is acyclic. */
  ghost predicate GraphOk(t: Tables) {
    && (forall l :: l in t.lessons ==> t.lessons[l].topic in t.subjects && DatabaseId(l))
    && (forall e :: e in t.edges ==> e.lesson in t.lessons && e.prerequisite in t.lessons
                                     && SubjectOf(t, e.lesson) == SubjectOf(t, e.prerequisite))
    && Acyclic(EdgeSet(t.edges))
  }

  /** While no edge leaves its subject, the graph of all subjects is acyclic exactly when the graph of each is. */
  lemma WholeIsAcyclicExactly(t: Tables)
    requires forall e :: e in t.edges ==> SubjectOf(t, e.lesson) == SubjectOf(t, e.prerequisite)
    ensures Acyclic(EdgeSet(t.edges)) <==> forall s :: Acyclic(SubjectGraph(t, s))
  {
    hide Acyclic;
    var all, part := EdgeSet(t.edges), n => SubjectOf(t, n);
    forall s ensures Part(all, part, s) == SubjectGraph(t, s) {}
    AcyclicByParts(all, part);
  }

  lemma SubjectIsAcyclic(t: Tables, subject: string)
    requires GraphOk(t)
    ensures Acyclic(SubjectGraph(t, subject))
  {
    SubgraphAcyclic(SubjectGraph(t, subject), EdgeSet(t.edges));
  }

  /** Inside one subject the whole graph reaches no further than the subject's own edges. */
  lemma ReachInSubject(t: Tables, a: Node, b: Node)
    requires GraphOk(t)
    ensures Reach(EdgeSet(t.edges), a, b) <==> Reach(SubjectGraph(t, SubjectOf(t, a)), a, b)
  {
    var all, own := EdgeSet(t.edges), SubjectGraph(t, SubjectOf(t, a));
    if Reach(all, a, b) {
      var w :| WalkFromTo(all, w, a, b);
      forall i | 0 <= i < |w| - 1 ensures Edge(w[i], w[i + 1]) in own {
        WalkStaysInPart(all, n => SubjectOf(t, n), w, i);
      }
      assert WalkFromTo(own, w, a, b);
    }
    if Reach(own, a, b) {
      var w :| WalkFromTo(own, w, a, b);
      assert WalkFromTo(all, w, a, b);
    }
  }

  /** Refused as a cycle exactly when the edge would make the graph of all subjects cyclic, though one subject is checked. */
  lemma RefusalIsExact(t: Tables, source: Node, target: Node, expected: int, clock: int)
    requires GraphOk(t)
    ensures Add(t, source, target, expected, clock).1.CycleRefused?
            ==> Cyclic(EdgeSet(t.edges) + {Edge(source, target)})
    ensures Add(t, source, target, expected, clock).1.Done?
            ==> Acyclic(EdgeSet(t.edges) + {Edge(source, target)})
  {
    hide Acyclic, Cyclic, Reach;
    if source in t.lessons && target in t.lessons && SubjectOf(t, source) == SubjectOf(t, target) {
      ReachInSubject(t, target, source);
      WholeGuard(EdgeSet(t.edges), source, target);
    }
  }

  lemma WholeGuard(edges: set<Edge>, source: Node, target: Node)
    requires Acyclic(edges)
    ensures Reach(edges, target, source) <==> Cyclic(edges + {Edge(source, target)})
    ensures Reach(edges, target, source) <==> !Acyclic(edges + {Edge(source, target)})
  {
    GuardIsExact(edges, source, target);
  }

  lemma AddShape(t: Tables, source: Node, target: Node, expected: int, clock: int)
    requires Add(t, source, target, expected, clock).1.Done?
    ensures var t' := Add(t, source, target, expected, clock).0;
            && source in t.lessons && target in t.lessons && SubjectOf(t, target) == SubjectOf(t, source)
            && t' == WithToken(t, source, expected, clock).(edges := t.edges + [Edge(source, target)])
  {
    hide SubjectOf, SubjectGraph, Reach;
  }

  lemma RefusedAdd(t: Tables, source: Node, target: Node, expected: int, clock: int)
    requires !Add(t, source, target, expected, clock).1.Done?
    ensures Add(t, source, target, expected, clock).0 == t
  {
    hide SubjectOf, SubjectGraph, Reach;
  }

  lemma KeepAdd(t: Tables, source: Node, target: Node, expected: int, clock: int)
    requires GraphOk(t)
    ensures GraphOk(Add(t, source, target, expected, clock).0)
  {
    var r := Add(t, source, target, expected, clock);
    RefusalIsExact(t, source, target, expected, clock);
    hide Add, Acyclic, DatabaseId;
    if r.1.Done? {
      AddShape(t, source, target, expected, clock);
      assert EdgeSet(r.0.edges) == EdgeSet(t.edges) + {Edge(source, target)};
      assert forall l :: SubjectOf(r.0, l) == SubjectOf(t, l);
      hide SubjectOf, EdgeSet;
    } else {
      RefusedAdd(t, source, target, expected, clock);
    }
  }

  lemma KeepRemove(t: Tables, source: Node, target: Node, expected: int, clock: int)
    requires GraphOk(t)
    ensures GraphOk(Remove(t, source, target, expected, clock).0)
  {
    var t' := Remove(t, source, target, expected, clock).0;
    SubgraphAcyclic(EdgeSet(t'.edges), EdgeSet(t.edges));
    assert forall l :: SubjectOf(t', l) == SubjectOf(t, l);
  }

  lemma KeepMove(t: Tables, lesson: Node, topic: string, expected: int, clock: int)
    requires GraphOk(t)
    ensures GraphOk(Move(t, lesson, topic, expected, clock).0)
  {
    hide Acyclic;
    var t' := Move(t, lesson, topic, expected, clock).0;
    assert forall l :: SubjectOf(t', l) == SubjectOf(t, l);
  }

  // ---- import ----

  lemma SubjectsAfterImport(t: Tables, topic: string, input: Input, r: Resolution, ids: Ids, w: Written, token: int, t': Tables)
    requires GraphOk(t) && Imports(t, topic, input, r, ids, w, token, t')
    ensures forall l :: l in t.lessons ==> SubjectOf(t', l) == SubjectOf(t, l)
    ensures forall l :: l in ids.lessons ==> l in t'.lessons && t'.lessons[l].topic == topic && SubjectOf(t', l) == input.subject
  {
    hide Acyclic, Accepted, Resolves, FreshIds, WritesPlan, DatabaseId;
    forall l | l in ids.lessons ensures l in t'.lessons && t'.lessons[l].topic == topic && SubjectOf(t', l) == input.subject {
      var k :| 0 <= k < |ids.lessons| && ids.lessons[k] == l;
    }
  }

  /** Both ends of a written edge are lessons of the destination subject. */
  lemma WrittenInSubject(t: Tables, topic: string, input: Input, r: Resolution, ids: Ids, w: Written, token: int, t': Tables, k: nat)
    requires GraphOk(t) && Imports(t, topic, input, r, ids, w, token, t') && k < |w.prerequisites|
    ensures var e := w.prerequisites[k];
            && e.lesson in t'.lessons && e.prerequisite in t'.lessons
            && SubjectOf(t', e.lesson) == input.subject && SubjectOf(t', e.prerequisite) == input.subject
  {
    SubjectsAfterImport(t, topic, input, r, ids, w, token, t');
    WrittenEnds(input, r, ids, w, k);
  }

  lemma WrittenEnds(input: Input, r: Resolution, ids: Ids, w: Written, k: nat)
    requires Accepted(input) && Resolves(input, r) && FreshIds(input, ids) && WritesPlan(input, r, ids, w)
    requires k < |w.prerequisites|
    ensures w.prerequisites[k].lesson in ids.lessons
    ensures w.prerequisites[k].prerequisite in ids.lessons
            || exists l :: l in input.lessons && l.id == w.prerequisites[k].prerequisite && l.subject == input.subject
  {
    hide SkillIdsRight, ActivityIdsRight, Acyclic, LessonIdsRight, Distinct, KeysFree, SkillsFit, RefsFit, TargetsFit, Proposed;
    var reqs, lessons := AllRequirements(input.plan), input.plan.lessons;
    var req := reqs[k];
    SourcesHaveIds(lessons, ids.lessons, w.lessonIds, |lessons|);
    assert req in reqs;
    NodeOfNew(lessons, ids.lessons, w.lessonIds, req.source);
    TargetsHaveIds(input, r, ids.lessons, w.lessonIds, k);
    TargetIsFit(input, reqs, k);
    if req.target in w.lessonIds {
      NodeOfNew(lessons, ids.lessons, w.lessonIds, req.target);
    } else {
      var existing := LessonByKey(input.lessons, req.target).value;
      assert existing in input.lessons && existing.subject == input.subject;
    }
  }

  lemma EdgesAfterImport(t: Tables, topic: string, input: Input, r: Resolution, ids: Ids, w: Written, token: int, t': Tables)
    requires GraphOk(t) && Imports(t, topic, input, r, ids, w, token, t')
    ensures forall e :: e in t'.edges ==> e.lesson in t'.lessons && e.prerequisite in t'.lessons
                                          && SubjectOf(t', e.lesson) == SubjectOf(t', e.prerequisite)
    ensures forall e :: e in w.prerequisites ==> SubjectOf(t', e.lesson) == input.subject
  {
    hide Acyclic, Accepted, Resolves, FreshIds, WritesPlan, DatabaseId;
    SubjectsAfterImport(t, topic, input, r, ids, w, token, t');
    forall e | e in w.prerequisites
      ensures e.lesson in t'.lessons && e.prerequisite in t'.lessons
              && SubjectOf(t', e.lesson) == input.subject && SubjectOf(t', e.prerequisite) == input.subject
    {
      var k :| 0 <= k < |w.prerequisites| && w.prerequisites[k] == e;
      WrittenInSubject(t, topic, input, r, ids, w, token, t', k);
    }
    hide SubjectOf;
  }

  /** The destination subject gains the written edges; the others keep theirs. */
  lemma PartAfterImport(t: Tables, topic: string, input: Input, r: Resolution, ids: Ids, w: Written, token: int, t': Tables,
                        s: string)
    requires GraphOk(t) && Imports(t, topic, input, r, ids, w, token, t')
    ensures Acyclic(SubjectGraph(t', s))
  {
    SubjectsAfterImport(t, topic, input, r, ids, w, token, t');
    EdgesAfterImport(t, topic, input, r, ids, w, token, t');
    WrittenGraphAcyclic(input, r, ids, w);
    SubjectIsAcyclic(t, s);
    hide Acyclic, Accepted, Resolves, FreshIds, WritesPlan, DatabaseId, SubjectOf;
    if s == input.subject {
      AcyclicPart(SubjectGraph(t', s), EdgeSet(input.edges) + EdgeSet(w.prerequisites));
    } else {
      AcyclicPart(SubjectGraph(t', s), SubjectGraph(t, s));
    }
  }

  lemma LessonsAfterImport(t: Tables, topic: string, input: Input, r: Resolution, ids: Ids, w: Written, token: int, t': Tables)
    requires GraphOk(t) && Imports(t, topic, input, r, ids, w, token, t')
    ensures forall l :: l in t'.lessons ==> t'.lessons[l].topic in t'.subjects && DatabaseId(l)
  {
    SubjectsAfterImport(t, topic, input, r, ids, w, token, t');
    hide Acyclic, Accepted, Resolves, FreshIds, WritesPlan, DatabaseId, SubjectOf, EdgeSet;
    assert topic in t'.subjects;
  }

  lemma KeepImport(t: Tables, topic: string, input: Input, r: Resolution, ids: Ids, w: Written, token: int, t': Tables)
    requires GraphOk(t) && Imports(t, topic, input, r, ids, w, token, t')
    ensures GraphOk(t')
  {
    hide Acyclic, Imports, DatabaseId, SubjectOf, SubjectGraph, EdgeSet;
    LessonsAfterImport(t, topic, input, r, ids, w, token, t');
    EdgesAfterImport(t, topic, input, r, ids, w, token, t');
    forall s ensures Acyclic(SubjectGraph(t', s)) {
      PartAfterImport(t, topic, input, r, ids, w, token, t', s);
    }
    WholeIsAcyclicExactly(t');
  }

  // ---- runs ----

  datatype Step =
    | AddStep(source: Node, target: Node, expected: int, clock: int)
    | RemoveStep(source: Node, target: Node, expected: int, clock: int)
    | MoveStep(lesson: Node, topic: string, expected: int, clock: int)
    | ImportStep(topic: string, input: Input, r: Resolution, ids: Ids, w: Written, token: int, after: Tables)
    | TopicStep(id: string, subject: string)
    | LessonStep(id: Node, row: LessonRow)
    | LifecycleStep(lesson: Node, status: LessonStatus, clock: int)

  ghost function Perform(t: Tables, s: Step): Tables {
    match s
    case AddStep(source, target, expected, clock) => Add(t, source, target, expected, clock).0
    case RemoveStep(source, target, expected, clock) => Remove(t, source, target, expected, clock).0
    case MoveStep(lesson, topic, expected, clock) => Move(t, lesson, topic, expected, clock).0
    case ImportStep(topic, input, r, ids, w, token, after) => if Imports(t, topic, input, r, ids, w, token, after) then after else t
    case TopicStep(id, subject) => if id in t.subjects then t else t.(subjects := t.subjects[id := subject])
    case LessonStep(id, row) =>
      if id in t.lessons || !DatabaseId(id) || row.topic !in t.subjects then t else t.(lessons := t.lessons[id := row])
    case LifecycleStep(lesson, status, clock) =>
      if lesson !in t.lessons then t
      else
        var row := t.lessons[lesson];
        t.(lessons := t.lessons[lesson := row.(status := status, token := NextToken(row.token, clock))])
  }

  lemma KeepOther(t: Tables, s: Step)
    requires GraphOk(t) && (s.TopicStep? || s.LessonStep? || s.LifecycleStep?)
    ensures GraphOk(Perform(t, s))
  {
    hide Acyclic;
    var t' := Perform(t, s);
    assert forall l :: l in t.lessons ==> SubjectOf(t', l) == SubjectOf(t, l);
  }

  lemma Keep(t: Tables, s: Step)
    requires GraphOk(t)
    ensures GraphOk(Perform(t, s))
  {
    hide GraphOk, Imports, Add, Remove, Move, DatabaseId;
    match s
    case AddStep(source, target, expected, clock) => KeepAdd(t, source, target, expected, clock);
    case RemoveStep(source, target, expected, clock) => KeepRemove(t, source, target, expected, clock);
    case MoveStep(lesson, topic, expected, clock) => KeepMove(t, lesson, topic, expected, clock);
    case ImportStep(topic, input, r, ids, w, token, after) =>
      if Imports(t, topic, input, r, ids, w, token, after) {
        KeepImport(t, topic, input, r, ids, w, token, after);
      }
    case _ => KeepOther(t, s);
  }

  ghost function Run(t: Tables, steps: seq<Step>): Tables
    decreases |steps|
  {
    if steps == [] then t else Perform(Run(t, steps[..|steps| - 1]), steps[|steps| - 1])
  }

  /** Every run keeps each edge inside one subject and the graph of all subjects acyclic. */
  lemma {:induction false} EveryRun(t: Tables, steps: seq<Step>)
    requires GraphOk(t)
    ensures GraphOk(Run(t, steps))
    decreases |steps|
  {
    if steps != [] {
      hide GraphOk, Perform;
      EveryRun(t, steps[..|steps| - 1]);
      Keep(Run(t, steps[..|steps| - 1]), steps[|steps| - 1]);
    }
  }

  const NOTHING: Tables := Tables(map[], map[], [])

  lemma NothingIsOk()
    ensures GraphOk(NOTHING)
  {
    forall w ensures !(Walk(EdgeSet(NOTHING.edges), w) && |w| > 1) {
      if Walk(EdgeSet(NOTHING.edges), w) && |w| > 1 {
        FirstEdge(EdgeSet(NOTHING.edges), w);
      }
    }
  }

  lemma FirstEdge(edges: set<Edge>, w: seq<Node>)
    requires Walk(edges, w) && |w| > 1
    ensures exists e :: e in edges
  {
    assert Edge(w[0], w[1]) in edges;
  }

  /** From empty tables, whatever runs: an edge joins lessons of one subject, and nothing leads from its end back to its start. */
  lemma EveryEdgeIsSound(steps: seq<Step>, e: Edge)
    requires e in Run(NOTHING, steps).edges
    ensures var t := Run(NOTHING, steps);
            SubjectOf(t, e.lesson) == SubjectOf(t, e.prerequisite) && !Reach(EdgeSet(t.edges), e.prerequisite, e.lesson)
  {
    NothingIsOk();
    EveryRun(NOTHING, steps);
    var all := EdgeSet(Run(NOTHING, steps).edges);
    assert all + {Edge(e.lesson, e.prerequisite)} == all;
    GuardIsExact(all, e.lesson, e.prerequisite);
  }

  /** From empty tables, whatever runs: the graph of each subject and that of all subjects are acyclic. */
  lemma EverySubjectIsAcyclic(steps: seq<Step>, subject: string)
    ensures Acyclic(SubjectGraph(Run(NOTHING, steps), subject)) && Acyclic(EdgeSet(Run(NOTHING, steps).edges))
  {
    NothingIsOk();
    EveryRun(NOTHING, steps);
    hide Run;
    WholeIsAcyclicExactly(Run(NOTHING, steps));
  }

  // ---- an import as a call ----

  datatype ImportOutcome = TopicMissing | Answered(answer: ImportApply.Outcome)

  function SubjectOfTopic(t: Tables, topic: string): string { if topic in t.subjects then t.subjects[topic] else "" }

  /** The table with the first `n` new DRAFT lessons under the topic. */
  function WithLessons(rows: map<Node, LessonRow>, topic: string, lessons: seq<Lesson>, ids: seq<Node>, token: int, n: nat)
    : map<Node, LessonRow>
    requires n <= |ids| && n <= |lessons|
  {
    if n == 0 then rows
    else
      WithLessons(rows, topic, lessons, ids, token, n - 1)[ids[n - 1] := LessonRow(topic, lessons[n - 1].contentKey, DRAFT, token)]
  }

  lemma {:induction false} LessonsAdded(rows: map<Node, LessonRow>, topic: string, lessons: seq<Lesson>, ids: seq<Node>,
                                        token: int, n: nat)
    requires n <= |ids| && n <= |lessons| && Distinct(ids)
    ensures var r := WithLessons(rows, topic, lessons, ids, token, n);
            && (forall id :: id in r <==> id in rows || id in ids[..n])
            && (forall id :: id in rows && id !in ids ==> r[id] == rows[id])
            && (forall k :: 0 <= k < n ==> r[ids[k]] == LessonRow(topic, lessons[k].contentKey, DRAFT, token))
  {
    if n > 0 {
      LessonsAdded(rows, topic, lessons, ids, token, n - 1);
      var before, last := WithLessons(rows, topic, lessons, ids, token, n - 1), LessonRow(topic, lessons[n - 1].contentKey, DRAFT, token);
      assert WithLessons(rows, topic, lessons, ids, token, n) == before[ids[n - 1] := last];
      assert ids[n - 1] in ids && ids[n - 1] !in ids[..n - 1];
      hide WithLessons, Distinct;
      OneMoreLesson(rows, before, topic, lessons, ids, token, n);
    }
  }

  lemma OneMoreLesson(rows: map<Node, LessonRow>, before: map<Node, LessonRow>, topic: string, lessons: seq<Lesson>,
                      ids: seq<Node>, token: int, n: nat)
    requires 0 < n <= |ids| && n <= |lessons| && ids[n - 1] !in ids[..n - 1]
    requires forall id :: id in before <==> id in rows || id in ids[..n - 1]
    requires forall id :: id in rows && id !in ids ==> before[id] == rows[id]
    requires forall k :: 0 <= k < n - 1 ==> before[ids[k]] == LessonRow(topic, lessons[k].contentKey, DRAFT, token)
    ensures var r := before[ids[n - 1] := LessonRow(topic, lessons[n - 1].contentKey, DRAFT, token)];
            && (forall id :: id in r <==> id in rows || id in ids[..n])
            && (forall id :: id in rows && id !in ids ==> r[id] == rows[id])
            && (forall k :: 0 <= k < n ==> r[ids[k]] == LessonRow(topic, lessons[k].contentKey, DRAFT, token))
  {
    assert ids[..n] == ids[..n - 1] + [ids[n - 1]];
    forall k | 0 <= k < n - 1 ensures ids[k] != ids[n - 1] {
      assert ids[k] in ids[..n - 1];
    }
  }

  /** The state after the rows of an accepted package are written. */
  function AfterImport(t: Tables, topic: string, p: Plan, ids: Ids, w: Written, token: int): Tables
    requires |ids.lessons| == |p.lessons|
  {
    Tables(t.subjects, WithLessons(t.lessons, topic, p.lessons, ids.lessons, token, |ids.lessons|), t.edges + w.prerequisites)
  }

  lemma AfterImportImports(t: Tables, topic: string, input: Input, ids: Ids, w: Written, token: int)
    requires GraphOk(t) && topic in t.subjects && input.subject == t.subjects[topic] && FoundLessons(t, input.lessons)
    requires EdgeSet(input.edges) == SubjectGraph(t, input.subject) && Accepted(input) && FreshIds(input, ids)
    requires forall id :: id in ids.lessons ==> id !in t.lessons && DatabaseId(id)
    requires exists r :: Resolves(input, r) && WritesPlan(input, r, ids, w)
    ensures |ids.lessons| == |input.plan.lessons|
    ensures var t' := AfterImport(t, topic, input.plan, ids, w, token);
            GraphOk(t') && exists r :: Imports(t, topic, input, r, ids, w, token, t')
  {
    hide Accepted, Resolves, WritesPlan, SubjectOf, GraphOk, SubjectGraph, EdgeSet, Distinct, FoundLessons, DatabaseId;
    FreshSizes(input, ids);
    hide FreshIds, Count, CreatedSkills;
    var r :| Resolves(input, r) && WritesPlan(input, r, ids, w);
    LessonsAdded(t.lessons, topic, input.plan.lessons, ids.lessons, token, |ids.lessons|);
    var t' := AfterImport(t, topic, input.plan, ids, w, token);
    assert ids.lessons[..|ids.lessons|] == ids.lessons;
    hide WithLessons;
    assert t'.lessons.Keys == t.lessons.Keys + (set id | id in ids.lessons);
    assert Imports(t, topic, input, r, ids, w, token, t');
    hide Imports, AfterImport;
    KeepImport(t, topic, input, r, ids, w, token, t');
  }

  lemma FreshSizes(input: Input, ids: Ids)
    requires FreshIds(input, ids)
    ensures |ids.lessons| == |input.plan.lessons| && Distinct(ids.lessons)
  {
  }

  lemma {:induction false} SameSkillsCreated(a: Input, b: Input, n: nat)
    requires a.skills == b.skills && a.plan == b.plan && n <= |a.plan.skills|
    ensures CreatedSkills(a, n) == CreatedSkills(b, n)
  {
    if n > 0 {
      SameSkillsCreated(a, b, n - 1);
    }
  }

  lemma ReadyToImport(t: Tables, subject: string, raw: RawDocument, found: seq<ExistingLesson>, skills: seq<ExistingSkill>,
                      own: seq<Edge>, ids: Ids)
    requires GraphOk(t) && FoundLessons(t, found) && EdgeSet(own) == SubjectGraph(t, subject)
    requires FreshIds(InputOf(raw, Rows(subject, found, skills, [])), ids)
    requires forall id :: id in ids.lessons ==> id !in t.lessons
    ensures DatabaseIds(InputOf(raw, Rows(subject, found, skills, own))) && Acyclic(EdgeSet(own))
    ensures FreshIds(InputOf(raw, Rows(subject, found, skills, own)), ids)
    ensures |ids.lessons| == |PlanOf(raw).lessons| && Distinct(ids.lessons)
  {
    SubjectIsAcyclic(t, subject);
    hide Acyclic, PlanOf;
    SameSkillsCreated(InputOf(raw, Rows(subject, found, skills, [])), InputOf(raw, Rows(subject, found, skills, own)),
                      |PlanOf(raw).skills|);
    hide CreatedSkills;
    forall e | e in own ensures e in t.edges {
      assert e in EdgeSet(own);
    }
  }

  // ---- the services ----

  class CurriculumTables {
    var subjects: map<string, string>
    var lessons: map<Node, LessonRow>
    var edges: seq<Edge>

    function State(): Tables
      reads this
    {
      Tables(subjects, lessons, edges)
    }

    constructor ()
      ensures State() == Tables(map[], map[], [])
    {
      subjects, lessons, edges := map[], map[], [];
    }

    /** The whole graph of the subject, read after its lock is taken. */
    method EdgesForSubject(subject: string) returns (own: seq<Edge>)
      ensures EdgeSet(own) == SubjectGraph(State(), subject)
    {
      own := [];
      for i := 0 to |edges|
        invariant forall e :: e in own <==> e in edges[..i] && SubjectOf(State(), e.lesson) == subject
      {
        if SubjectOf(State(), edges[i].lesson) == subject {
          own := own + [edges[i]];
        }
      }
      assert edges[..|edges|] == edges;
    }

    /** The conditional update of a lesson's token. */
    method TouchLesson(lesson: Node, expected: int, clock: int) returns (count: nat)
      requires lesson in lessons
      modifies this`lessons
      ensures old(lessons[lesson].status.DRAFT? && lessons[lesson].token == expected)
              ==> count == 1 && State() == WithToken(old(State()), lesson, expected, clock)
      ensures !old(lessons[lesson].status.DRAFT? && lessons[lesson].token == expected) ==> count == 0 && lessons == old(lessons)
    {
      count := 0;
      if lessons[lesson].status.DRAFT? && lessons[lesson].token == expected {
        lessons := lessons[lesson := lessons[lesson].(token := NextToken(expected, clock))];
        count := 1;
      }
    }

    method AddPrerequisite(source: Node, target: Node, expected: int, clock: int) returns (r: Outcome)
      modifies this
      ensures (State(), r) == Add(old(State()), source, target, expected, clock)
    {
      if source !in lessons {
        return LessonNotFound;
      }
      if target !in lessons || SubjectOf(State(), target) != SubjectOf(State(), source) {
        return LessonNotFound;
      }
      if !lessons[source].status.DRAFT? {
        return NotDraft;
      }
      if lessons[target].status.ARCHIVED? {
        return TargetArchived;
      }
      if source == target {
        return SelfLoop;
      }
      if lessons[source].token != expected {
        return EditConflict;
      }
      if Edge(source, target) in edges {
        return Unchanged;
      }
      var own := EdgesForSubject(SubjectOf(State(), source));
      var cycle := WouldCreatePrerequisiteCycle(own, source, target);
      if cycle {
        return CycleRefused;
      }
      var count := TouchLesson(source, expected, clock);
      if count == 0 {
        return EditConflict;
      }
      edges := edges + [Edge(source, target)];
      r := Done;
    }

    method RemovePrerequisite(source: Node, target: Node, expected: int, clock: int) returns (r: Outcome)
      modifies this
      ensures (State(), r) == Remove(old(State()), source, target, expected, clock)
    {
      if source !in lessons {
        return LessonNotFound;
      }
      if !lessons[source].status.DRAFT? {
        return NotDraft;
      }
      if lessons[source].token != expected {
        return EditConflict;
      }
      if Edge(source, target) !in edges {
        return Unchanged;
      }
      var count := TouchLesson(source, expected, clock);
      if count == 0 {
        return EditConflict;
      }
      edges := Without(edges, Edge(source, target));
      r := Done;
    }

    method MoveLesson(lesson: Node, topic: string, expected: int, clock: int) returns (r: Outcome)
      modifies this
      ensures (State(), r) == Move(old(State()), lesson, topic, expected, clock)
    {
      if lesson !in lessons {
        return LessonNotFound;
      }
      if !lessons[lesson].status.DRAFT? {
        return NotDraft;
      }
      if topic !in subjects || subjects[topic] != SubjectOf(State(), lesson) {
        return TopicNotFound;
      }
      if lessons[lesson].token != expected {
        return EditConflict;
      }
      lessons := lessons[lesson := lessons[lesson].(topic := topic, token := NextToken(expected, clock))];
      r := Done;
    }

    /**
     The import of a package into a topic: `found` are the lessons under its keys, `skills` those of the subject. `own` is
     the graph of the subject, read under its lock.
     */
    method ApplyImport(topic: string, raw: RawDocument, found: seq<ExistingLesson>, skills: seq<ExistingSkill>, ids: Ids,
                       token: int)
      returns (outcome: ImportOutcome, ghost own: seq<Edge>)
      requires GraphOk(State()) && FoundLessons(State(), found)
      requires FreshIds(InputOf(raw, Rows(SubjectOfTopic(State(), topic), found, skills, [])), ids)
      requires forall id :: id in ids.lessons ==> id !in lessons && DatabaseId(id)
      modifies this
      ensures GraphOk(State())
      ensures outcome.TopicMissing? <==> topic !in old(subjects)
      ensures EdgeSet(own) == SubjectGraph(old(State()), SubjectOfTopic(old(State()), topic))
      ensures var input := InputOf(raw, Rows(SubjectOfTopic(old(State()), topic), found, skills, own));
              && (outcome.Answered? ==>
                    (outcome.answer.Imported? <==> WithinLimits(raw) && GoodDocument(raw) && Importable(input)))
              && (if outcome.Answered? && outcome.answer.Imported? then
                    exists r :: Imports(old(State()), topic, input, r, ids, outcome.answer.written, token, State())
                  else State() == old(State()))
    {
      hide Acyclic, Importable, WithinLimits, GoodDocument, Resolves, WritesPlan, MatchesSummary, Accepted, FreshIds,
        KeepsSkills, KeepsLessons, PlanOf, GraphOk, DatabaseIds, FoundLessons, Imports, EdgeSet, SubjectGraph, SubjectOf,
        DatabaseId, WithLessons;
      var subject := SubjectOfTopic(State(), topic);
      var mine := EdgesForSubject(subject);
      own := mine;
      if topic !in subjects {
        return TopicMissing, own;
      }
      var rows := Rows(subject, found, skills, mine);
      ghost var before := State();
      ReadyToImport(before, subject, raw, found, skills, mine, ids);
      var answer := ImportPackage(raw, rows, ids);
      outcome := Answered(answer);
      if answer.Imported? {
        AfterImportImports(before, topic, InputOf(raw, rows), ids, answer.written, token);
        lessons := WithLessons(lessons, topic, PlanOf(raw).lessons, ids.lessons, token, |ids.lessons|);
        edges := edges + answer.written.prerequisites;
        assert State() == AfterImport(before, topic, PlanOf(raw), ids, answer.written, token);
      }
    }
  }
}
