/** A raw package from parsing to the written batch (src/content-import/import.service.ts:100-134). */
module ImportService {
  import opened PrerequisiteGraph
  import opened ImportPlan
  import opened ImportResolver
  import opened ImportValidator
  import opened ImportAcceptance
  import opened ImportWriter
  import opened ImportApply
  import opened ImportParser

  /** What the database answers about a package: the lessons under its keys, the skills and edges of the subject. */
  datatype Rows = Rows(subject: string, lessons: seq<ExistingLesson>, skills: seq<ExistingSkill>, edges: seq<Edge>)

  function InputOf(raw: RawDocument, rows: Rows): Input {
    Input(rows.subject, PlanOf(raw), rows.lessons, rows.skills, rows.edges)
  }

  /** A package is imported exactly when it is within the limits, good, and fits what the subject holds. */
  method ImportPackage(raw: RawDocument, rows: Rows, ids: Ids) returns (outcome: Outcome)
    requires DatabaseIds(InputOf(raw, rows)) && Acyclic(EdgeSet(rows.edges)) && FreshIds(InputOf(raw, rows), ids)
    ensures outcome.Imported? <==> WithinLimits(raw) && GoodDocument(raw) && Importable(InputOf(raw, rows))
    ensures !WithinLimits(raw) ==> outcome == ImportRefused(LimitExceeded)
    ensures outcome.Imported?
            ==> KeepsSkills(raw.skills, PlanOf(raw).skills) && KeepsLessons(raw.lessons, PlanOf(raw).lessons)
    ensures outcome.Imported? ==> MatchesSummary(outcome.written, outcome.summary) && Accepted(InputOf(raw, rows))
    ensures outcome.Imported?
            ==> exists r :: Resolves(InputOf(raw, rows), r) && WritesPlan(InputOf(raw, rows), r, ids, outcome.written)
    ensures outcome.Imported? ==> Acyclic(EdgeSet(rows.edges) + EdgeSet(outcome.written.prerequisites))
  {
    hide Resolves, WritesPlan, MatchesSummary, Importable, Issues, DatabaseIds, Acyclic, FreshIds, Tidy, EdgeSet, WithinLimits,
      GoodDocument, KeepsSkills, KeepsLessons, PlanOf, RefusedWith;
    var parsed := ParseImportDocument(raw);
    if parsed.ParseRefused? {
      return ImportRefused(parsed.code);
    }
    var input := Input(rows.subject, parsed.plan, rows.lessons, rows.skills, rows.edges);
    outcome := Apply(input, parsed.issues, ids);
  }
}
