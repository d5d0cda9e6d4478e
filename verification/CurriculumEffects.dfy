/**
 What the authoring calls on the prerequisite graph answer and write, on the rows alone
 (src/content-authoring/prerequisite.service.ts:39-87, hierarchy.service.ts:263-279).
 */
module CurriculumEffects {
  import opened PrerequisiteGraph
  import opened Curriculum

  /** Only the row of this lesson changes, into `row` but for a token beyond the one quoted and not before the clock. */
  predicate LessonBecomes(t: Tables, t': Tables, lesson: Node, row: LessonRow, expected: int, clock: int) {
    && t'.subjects == t.subjects && t'.lessons.Keys == t.lessons.Keys && lesson in t'.lessons
    && t'.lessons[lesson] == row.(token := t'.lessons[lesson].token)
    && t'.lessons[lesson].token > expected && t'.lessons[lesson].token >= clock
    && forall l :: l in t.lessons && l != lesson ==> t'.lessons[l] == t.lessons[l]
  }

  predicate InOneSubject(t: Tables, source: Node, target: Node) {
    && source in t.lessons && t.lessons[source].topic in t.subjects
    && target in t.lessons && t.lessons[target].topic in t.subjects
    && t.subjects[t.lessons[source].topic] == t.subjects[t.lessons[target].topic]
  }

  /** Every answer to adding a prerequisite; a cycle is one in the graph of all subjects. */
  lemma AddAnswers(t: Tables, source: Node, target: Node, expected: int, clock: int)
    requires GraphOk(t)
    ensures var (t', r) := Add(t, source, target, expected, clock);
            && (!r.Done? ==> t' == t)
            && if !InOneSubject(t, source, target) then r == LessonNotFound
               else
                 var row := t.lessons[source]; var there := Edge(source, target) in t.edges;
                 var free := row.status.DRAFT? && !t.lessons[target].status.ARCHIVED? && source != target && row.token == expected;
                 && (!row.status.DRAFT? ==> r == NotDraft)
                 && (row.status.DRAFT? && t.lessons[target].status.ARCHIVED? ==> r == TargetArchived)
                 && (row.status.DRAFT? && !t.lessons[target].status.ARCHIVED? && source == target ==> r == SelfLoop)
                 && (row.status.DRAFT? && !t.lessons[target].status.ARCHIVED? && source != target && row.token != expected
                     ==> r == EditConflict)
                 && (free && there ==> r == Unchanged)
                 && (free && !there && Cyclic(EdgeSet(t.edges) + {Edge(source, target)}) ==> r == CycleRefused)
                 && (free && !there && !Cyclic(EdgeSet(t.edges) + {Edge(source, target)}) ==>
                       && r == Done && LessonBecomes(t, t', source, row, expected, clock)
                       && |t'.edges| == |t.edges| + 1
                       && forall f :: f in t'.edges <==> f in t.edges || f == Edge(source, target))
  {
    hide Cyclic, Acyclic, Reach, SubjectGraph;
    if InOneSubject(t, source, target) {
      ReachInSubject(t, target, source);
      WholeGuard(EdgeSet(t.edges), source, target);
    }
  }

  /** Every answer to removing a prerequisite: done for exactly that edge, and no other. */
  lemma RemoveAnswers(t: Tables, source: Node, target: Node, expected: int, clock: int)
    ensures var (t', r) := Remove(t, source, target, expected, clock);
            && (!r.Done? ==> t' == t)
            && if source !in t.lessons then r == LessonNotFound
               else
                 var row := t.lessons[source];
                 && (!row.status.DRAFT? ==> r == NotDraft)
                 && (row.status.DRAFT? && row.token != expected ==> r == EditConflict)
                 && (row.status.DRAFT? && row.token == expected && Edge(source, target) !in t.edges ==> r == Unchanged)
                 && (row.status.DRAFT? && row.token == expected && Edge(source, target) in t.edges ==>
                       && r == Done && LessonBecomes(t, t', source, row, expected, clock)
                       && forall f :: f in t'.edges <==> f in t.edges && f != Edge(source, target))
  {
  }

  /** Every answer to moving a lesson: done within its own subject only, no edge changes. */
  lemma MoveAnswers(t: Tables, lesson: Node, topic: string, expected: int, clock: int)
    requires GraphOk(t)
    ensures var (t', r) := Move(t, lesson, topic, expected, clock);
            && (!r.Done? ==> t' == t)
            && if lesson !in t.lessons then r == LessonNotFound
               else
                 var row := t.lessons[lesson];
                 var own := topic in t.subjects && t.subjects[topic] == t.subjects[row.topic];
                 && (!row.status.DRAFT? ==> r == NotDraft)
                 && (row.status.DRAFT? && !own ==> r == TopicNotFound)
                 && (row.status.DRAFT? && own && row.token != expected ==> r == EditConflict)
                 && (row.status.DRAFT? && own && row.token == expected ==>
                       r == Done && LessonBecomes(t, t', lesson, row.(topic := topic), expected, clock) && t'.edges == t.edges)
  {
    hide Acyclic, SubjectGraph;
  }

  /** A removed prerequisite can be added back, and an added one removed: the edges are those before. */
  lemma AddAndRemove(t: Tables, source: Node, target: Node, expected: int, clock: int, again: int)
    requires GraphOk(t)
    ensures var (t', added) := Add(t, source, target, expected, clock);
            added.Done? ==>
              && source in t'.lessons
              && var (t'', removed) := Remove(t', source, target, t'.lessons[source].token, again);
              removed.Done? && EdgeSet(t''.edges) == EdgeSet(t.edges)
  {
    AddAnswers(t, source, target, expected, clock);
    var (t', added) := Add(t, source, target, expected, clock);
    if added.Done? {
      RemoveAnswers(t', source, target, t'.lessons[source].token, again);
      hide Add, Remove, GraphOk, Cyclic;
    }
  }
}
