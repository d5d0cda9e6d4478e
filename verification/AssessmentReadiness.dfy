/**
 The publish gate as it runs (src/assessment-authoring/assessment-readiness.service.ts:51-168), the learner runtime's
 resolution of the current version (src/assessment/assessment.service.ts:226-262).
 */
module AssessmentReadiness {
  import opened Basics
  import opened AssessmentModel

  datatype Blocker =
    | InvalidItemPayload(item: Id) | NonObjectiveItem(item: Id) | InactiveOrForeignSkill(item: Id, skill: Id)
    | DifficultyOutOfScale(item: Id) | InvalidConfig | NoItems | InsufficientItems(skill: Id) | MaxItemsInfeasible

  datatype Checks = Checks(
    hasItems: bool, allPayloadsValid: bool, allObjective: bool, optionsWellFormed: bool, allSkillsActive: bool,
    difficultyInScale: bool, configValid: bool, coveredSkillsMeet: bool, maxItemsCover: bool)

  datatype Report = Report(publishReady: bool, checks: Checks, covered: set<Id>, counts: map<Id, nat>, blockers: seq<Blocker>)

  /** The rows of a content, each once, in the order the database lists them. */
  ghost predicate Enumerates(keys: seq<LinkKey>, rows: map<LinkKey, RowContent>) {
    && (forall i, j :: 0 <= i < j < |keys| ==> keys[i] != keys[j])
    && (forall k :: k in keys <==> k in rows)
  }

  function CountIn(rows: map<LinkKey, RowContent>, keys: seq<LinkKey>, skill: Id): nat {
    if keys == [] then 0
    else
      var last := keys[|keys| - 1];
      CountIn(rows, keys[..|keys| - 1], skill) + if last in rows && rows[last].skill == skill then 1 else 0
  }

  lemma {:induction false} CountInIsSize(rows: map<LinkKey, RowContent>, keys: seq<LinkKey>, skill: Id)
    requires forall i, j :: 0 <= i < j < |keys| ==> keys[i] != keys[j]
    ensures CountIn(rows, keys, skill) == |set k | k in keys && k in rows && rows[k].skill == skill|
  {
    if keys != [] {
      var rest, last := keys[..|keys| - 1], keys[|keys| - 1];
      CountInIsSize(rows, rest, skill);
      var some := set k | k in rest && k in rows && rows[k].skill == skill;
      assert last !in some;
      assert forall k :: k in keys <==> k in rest || k == last;
      if last in rows && rows[last].skill == skill {
        assert (set k | k in keys && k in rows && rows[k].skill == skill) == some + {last};
      } else {
        assert (set k | k in keys && k in rows && rows[k].skill == skill) == some;
      }
    }
  }

  lemma CountInIsCountFor(rows: map<LinkKey, RowContent>, keys: seq<LinkKey>, skill: Id)
    requires Enumerates(keys, rows)
    ensures CountIn(rows, keys, skill) == CountFor(rows, skill)
  {
    CountInIsSize(rows, keys, skill);
    assert (set k | k in keys && k in rows && rows[k].skill == skill) == set k | k in rows && rows[k].skill == skill;
  }

  // ---- the loop over the rows ----

  predicate RowObjective(r: RowContent) { r.payload.Some? ==> !r.payload.value.format.OpenEnded? }

  predicate RowOptions(r: RowContent) { Objective(r.payload) && r.payload.value.options >= 2 && r.payload.value.correct > 0 }

  predicate RowInScale(c: Config, r: RowContent) { ConfigOk(c) ==> InScale(c, Effective(r)) }

  predicate AllIn(keys: seq<LinkKey>, c: Content) { forall k :: k in keys ==> k in c.rows }

  predicate AllPayloads(c: Content, keys: seq<LinkKey>)
    requires AllIn(keys, c)
  {
    forall k :: k in keys ==> c.rows[k].payload.Some?
  }

  predicate AllObjective(c: Content, keys: seq<LinkKey>)
    requires AllIn(keys, c)
  {
    forall k :: k in keys ==> RowObjective(c.rows[k])
  }

  predicate AllOptions(c: Content, keys: seq<LinkKey>)
    requires AllIn(keys, c)
  {
    forall k :: k in keys ==> RowOptions(c.rows[k])
  }

  predicate AllActive(c: Content, active: set<Id>, keys: seq<LinkKey>)
    requires AllIn(keys, c)
  {
    forall k :: k in keys ==> c.rows[k].skill in active
  }

  predicate AllInScale(c: Content, keys: seq<LinkKey>)
    requires AllIn(keys, c)
  {
    forall k :: k in keys ==> RowInScale(c.config, c.rows[k])
  }

  predicate CoveredBy(c: Content, keys: seq<LinkKey>, s: Id)
    requires AllIn(keys, c)
  {
    exists k :: k in keys && c.rows[k].skill == s
  }

  lemma OneMore(c: Content, active: set<Id>, keys: seq<LinkKey>, k: LinkKey)
    requires AllIn(keys, c) && k in c.rows
    ensures AllIn(keys + [k], c)
    ensures AllPayloads(c, keys + [k]) <==> AllPayloads(c, keys) && c.rows[k].payload.Some?
    ensures AllObjective(c, keys + [k]) <==> AllObjective(c, keys) && RowObjective(c.rows[k])
    ensures AllOptions(c, keys + [k]) <==> AllOptions(c, keys) && RowOptions(c.rows[k])
    ensures AllActive(c, active, keys + [k]) <==> AllActive(c, active, keys) && c.rows[k].skill in active
    ensures AllInScale(c, keys + [k]) <==> AllInScale(c, keys) && RowInScale(c.config, c.rows[k])
  {
    hide RowObjective, RowOptions, RowInScale;
    assert forall l :: l in keys + [k] <==> l in keys || l == k;
  }

  lemma OneMoreSkill(c: Content, keys: seq<LinkKey>, k: LinkKey, s: Id)
    requires AllIn(keys, c) && k in c.rows && AllIn(keys + [k], c)
    ensures CoveredBy(c, keys + [k], s) <==> CoveredBy(c, keys, s) || c.rows[k].skill == s
    ensures CountIn(c.rows, keys + [k], s) == CountIn(c.rows, keys, s) + if c.rows[k].skill == s then 1 else 0
  {
    assert forall l :: l in keys + [k] <==> l in keys || l == k;
    assert (keys + [k])[..|keys|] == keys;
  }

  /** What the flags, counts and blockers say after the rows `keys`. */
  ghost predicate Scanned(c: Content, active: set<Id>, keys: seq<LinkKey>, checks: Checks, blockers: seq<Blocker>)
    requires AllIn(keys, c)
  {
    && checks.allPayloadsValid == AllPayloads(c, keys) && checks.allObjective == AllObjective(c, keys)
    && checks.optionsWellFormed == AllOptions(c, keys) && checks.allSkillsActive == AllActive(c, active, keys)
    && checks.difficultyInScale == AllInScale(c, keys)
    && (|blockers| == 0 <==> checks.allPayloadsValid && checks.allObjective && checks.allSkillsActive && checks.difficultyInScale)
  }

  ghost predicate Counted(c: Content, keys: seq<LinkKey>, covered: set<Id>, counts: map<Id, nat>)
    requires AllIn(keys, c)
  {
    && (forall s :: s in covered <==> CoveredBy(c, keys, s))
    && (forall s: Id :: CountIn(c.rows, keys, s) == if s in counts then counts[s] else 0)
  }

  method ScanPayload(k: LinkKey, row: RowContent, checks: Checks) returns (checks': Checks, found: seq<Blocker>)
    ensures checks' == checks.(allPayloadsValid := checks.allPayloadsValid && row.payload.Some?,
                               allObjective := checks.allObjective && RowObjective(row),
                               optionsWellFormed := checks.optionsWellFormed && RowOptions(row))
    ensures |found| == 0 <==> row.payload.Some? && RowObjective(row)
  {
    checks', found := checks, [];
    if row.payload.None? {
      checks' := checks'.(allPayloadsValid := false, optionsWellFormed := false);
      found := [InvalidItemPayload(k.item)];
    } else {
      var p := row.payload.value;
      if p.format.OpenEnded? {
        checks' := checks'.(allObjective := false);
        found := [NonObjectiveItem(k.item)];
      }
      if p.format.OpenEnded? || p.options < 2 || p.correct == 0 {
        checks' := checks'.(optionsWellFormed := false);
      }
    }
  }

  method ScanPlacement(k: LinkKey, row: RowContent, config: Config, active: set<Id>, checks: Checks)
    returns (checks': Checks, found: seq<Blocker>)
    ensures checks' == checks.(allSkillsActive := checks.allSkillsActive && row.skill in active,
                               difficultyInScale := checks.difficultyInScale && RowInScale(config, row))
    ensures |found| == 0 <==> row.skill in active && RowInScale(config, row)
  {
    checks', found := checks, [];
    if row.skill !in active {
      checks' := checks'.(allSkillsActive := false);
      found := found + [InactiveOrForeignSkill(k.item, row.skill)];
    }
    if ConfigOk(config) && !InScale(config, Effective(row)) {
      checks' := checks'.(difficultyInScale := false);
      found := found + [DifficultyOutOfScale(k.item)];
    }
  }

  method ScanRow(c: Content, k: LinkKey, active: set<Id>, ghost keys: seq<LinkKey>, checks: Checks, blockers: seq<Blocker>)
    returns (checks': Checks, blockers': seq<Blocker>)
    requires k in c.rows && AllIn(keys, c) && AllIn(keys + [k], c) && Scanned(c, active, keys, checks, blockers)
    ensures Scanned(c, active, keys + [k], checks', blockers')
    ensures checks'.configValid == checks.configValid
  {
    hide AllPayloads, AllObjective, AllOptions, AllActive, AllInScale, AllIn, RowObjective, RowOptions, RowInScale;
    OneMore(c, active, keys, k);
    var row := c.rows[k];
    var first, second;
    checks', first := ScanPayload(k, row, checks);
    checks', second := ScanPlacement(k, row, c.config, active, checks');
    blockers' := blockers + first + second;
  }

  method CountRow(c: Content, k: LinkKey, ghost keys: seq<LinkKey>, covered: set<Id>, counts: map<Id, nat>)
    returns (covered': set<Id>, counts': map<Id, nat>)
    requires k in c.rows && AllIn(keys, c) && AllIn(keys + [k], c) && Counted(c, keys, covered, counts)
    ensures Counted(c, keys + [k], covered', counts')
  {
    var skill := c.rows[k].skill;
    covered' := covered + {skill};
    counts' := counts[skill := (if skill in counts then counts[skill] else 0) + 1];
    forall s: Id
      ensures s in covered' <==> CoveredBy(c, keys + [k], s)
      ensures CountIn(c.rows, keys + [k], s) == if s in counts' then counts'[s] else 0
    {
      OneMoreSkill(c, keys, k, s);
    }
  }

  method ScanRows(c: Content, keys: seq<LinkKey>, active: set<Id>)
    returns (checks: Checks, covered: set<Id>, counts: map<Id, nat>, blockers: seq<Blocker>)
    requires AllIn(keys, c)
    ensures Scanned(c, active, keys, checks, blockers) && Counted(c, keys, covered, counts)
    ensures checks.configValid == ConfigOk(c.config)
  {
    checks := Checks(|keys| > 0, true, true, true, true, true, ConfigOk(c.config), true, true);
    covered, counts, blockers := {}, map[], [];
    for i := 0 to |keys|
      invariant AllIn(keys[..i], c) && checks.configValid == ConfigOk(c.config)
      invariant Scanned(c, active, keys[..i], checks, blockers) && Counted(c, keys[..i], covered, counts)
    {
      hide Scanned, Counted, ConfigOk;
      assert keys[..i + 1] == keys[..i] + [keys[i]];
      checks, blockers := ScanRow(c, keys[i], active, keys[..i], checks, blockers);
      covered, counts := CountRow(c, keys[i], keys[..i], covered, counts);
    }
    assert keys[..|keys|] == keys;
  }

  // ---- the gate ----

  /** Each covered skill has enough items; one blocker for each that has not. */
  method CheckCoverage(covered: set<Id>, counts: map<Id, nat>, required: int) returns (ok: bool, blockers: seq<Blocker>)
    ensures ok <==> forall s :: s in covered ==> (if s in counts then counts[s] else 0) >= required
    ensures ok <==> |blockers| == 0
  {
    ok, blockers := true, [];
    var left := covered;
    while left != {}
      invariant left <= covered
      invariant ok <==> forall s :: s in covered - left ==> (if s in counts then counts[s] else 0) >= required
      invariant ok <==> |blockers| == 0
      decreases |left|
    {
      var s :| s in left;
      assert forall t :: t in covered - (left - {s}) <==> t in covered - left || t == s;
      if (if s in counts then counts[s] else 0) < required {
        ok, blockers := false, blockers + [InsufficientItems(s)];
      }
      left := left - {s};
    }
  }

  /**
   Ready exactly when the version meets the publish gate. Given what the payload parser guarantees, a version is refused
   exactly when some blocker names a reason.
   */
  method Evaluate(c: Content, keys: seq<LinkKey>, active: set<Id>) returns (report: Report)
    requires Enumerates(keys, c.rows)
    ensures report.publishReady <==> Ready(c, active)
    ensures (forall k :: k in c.rows && c.rows[k].payload.Some? ==> PayloadOk(c.rows[k].payload.value))
            ==> (report.publishReady <==> |report.blockers| == 0)
  {
    var checks, covered, counts, blockers := ScanRows(c, keys, active);
    if !checks.configValid {
      checks := checks.(difficultyInScale := false);
      blockers := blockers + [InvalidConfig];
    }
    checks := checks.(hasItems := |keys| > 0);
    if !checks.hasItems {
      blockers := blockers + [NoItems];
    }
    if checks.configValid {
      var meets, found := CheckCoverage(covered, counts, c.config.itemsPerSkill);
      blockers := blockers + found;
      var fits := |covered| * c.config.itemsPerSkill <= c.config.maxItems;
      if !fits {
        blockers := blockers + [MaxItemsInfeasible];
      }
      checks := checks.(coveredSkillsMeet := meets, maxItemsCover := fits);
    } else {
      checks := checks.(coveredSkillsMeet := false, maxItemsCover := false);
    }
    var ready := && checks.hasItems && checks.allPayloadsValid && checks.allObjective && checks.optionsWellFormed
                 && checks.allSkillsActive && checks.difficultyInScale && checks.configValid && checks.coveredSkillsMeet
                 && checks.maxItemsCover;
    report := Report(ready, checks, covered, counts, blockers);
    CoverageAgrees(c, keys, covered, counts);
    FlagsAgree(c, keys, active);
    hide Counted, ConfigOk, CountFor, Covered, AllPayloads, AllObjective, AllOptions, AllActive, AllInScale, AllIn, Ready;
  }

  lemma CoverageAgrees(c: Content, keys: seq<LinkKey>, covered: set<Id>, counts: map<Id, nat>)
    requires Enumerates(keys, c.rows) && AllIn(keys, c) && Counted(c, keys, covered, counts)
    ensures covered == Covered(c.rows)
    ensures forall s :: s in covered ==> (if s in counts then counts[s] else 0) == CountFor(c.rows, s)
    ensures |keys| > 0 <==> c.rows != map[]
  {
    forall s: Id ensures s in covered <==> s in Covered(c.rows) {
      assert CoveredBy(c, keys, s) <==> exists k :: k in c.rows && c.rows[k].skill == s;
    }
    forall s | s in covered ensures (if s in counts then counts[s] else 0) == CountFor(c.rows, s) {
      CountInIsCountFor(c.rows, keys, s);
    }
    if |keys| > 0 {
      assert keys[0] in c.rows;
    }
  }

  lemma FlagsAgree(c: Content, keys: seq<LinkKey>, active: set<Id>)
    requires Enumerates(keys, c.rows) && AllIn(keys, c)
    ensures Ready(c, active) <==>
            && ConfigOk(c.config) && c.rows != map[]
            && AllPayloads(c, keys) && AllObjective(c, keys) && AllOptions(c, keys) && AllActive(c, active, keys) && AllInScale(c, keys)
            && (forall s :: s in Covered(c.rows) ==> CountFor(c.rows, s) >= c.config.itemsPerSkill)
            && |Covered(c.rows)| * c.config.itemsPerSkill <= c.config.maxItems
    ensures (forall k :: k in c.rows && c.rows[k].payload.Some? ==> PayloadOk(c.rows[k].payload.value))
            ==> AllPayloads(c, keys) && AllObjective(c, keys) ==> AllOptions(c, keys)
  {
    hide InScale, Effective, Covered, CountFor;
  }

  /** The database's answer to the list query. */
  method ListRows(rows: map<LinkKey, RowContent>) returns (keys: seq<LinkKey>)
    ensures Enumerates(keys, rows)
  {
    keys := [];
    var left := rows.Keys;
    while left != {}
      invariant left <= rows.Keys
      invariant forall i, j :: 0 <= i < j < |keys| ==> keys[i] != keys[j]
      invariant forall k :: k in keys <==> k in rows && k !in left
      decreases |left|
    {
      var k :| k in left;
      keys := keys + [k];
      left := left - {k};
    }
  }

  // ---- the learner runtime ----

  datatype PoolItem = PoolItem(item: Id, skill: Id, difficulty: int)

  datatype Resolved = NotAvailable | ConfigurationInvalid | Resolved(definition: Id, version: Id, pool: seq<PoolItem>)

  ghost predicate OnlyPublished(db: Db, subject: Id, d: Id) {
    && d < |db.definitions| && db.definitions[d].published && db.definitions[d].subject == subject
    && forall e :: 0 <= e < |db.definitions| && db.definitions[e].published && db.definitions[e].subject == subject ==> e == d
  }

  /** A new attempt can be started in the subject. */
  ghost predicate Accepts(db: Db, subject: Id) {
    exists d :: OnlyPublished(db, subject, d) && CurrentReady(db, d)
  }

  ghost predicate CurrentReady(db: Db, d: Id)
    requires d < |db.definitions|
  {
    HasCurrent(db, d) && RuntimeReady(ContentOf(db, db.definitions[d].current.value))
  }

  /** The current pointer leads to a PUBLISHED version of the definition. */
  ghost predicate HasCurrent(db: Db, d: Id)
    requires d < |db.definitions|
  {
    var current := db.definitions[d].current;
    && current.Some? && current.value < |db.versions| && db.versions[current.value].definition == d
    && db.versions[current.value].status.Published?
  }

  ghost predicate Publishes(db: Db, subject: Id, d: Id) {
    d < |db.definitions| && db.definitions[d].published && db.definitions[d].subject == subject
  }

  /** Nothing to attempt: no published definition, or only one and it has no published version. */
  ghost predicate Unavailable(db: Db, subject: Id) {
    || (forall d: Id :: !Publishes(db, subject, d))
    || (exists d: Id :: OnlyPublished(db, subject, d) && !HasCurrent(db, d))
  }

  /** Something to attempt that is not in order: two published definitions, or a current version unfit to run. */
  ghost predicate Misconfigured(db: Db, subject: Id) {
    || (exists d: Id, e: Id :: Publishes(db, subject, d) && Publishes(db, subject, e) && d != e)
    || (exists d: Id :: OnlyPublished(db, subject, d) && HasCurrent(db, d) && !CurrentReady(db, d))
  }

  /** The pool lists every row of the version once, with its skill and effective difficulty. */
  ghost predicate PoolOf(c: Content, pool: seq<PoolItem>) {
    exists keys: seq<LinkKey> :: Enumerates(keys, c.rows) && |pool| == |keys| && forall i :: 0 <= i < |keys| ==>
      pool[i] == PoolItem(keys[i].item, c.rows[keys[i]].skill, Effective(c.rows[keys[i]]))
  }

  method PublishedDefinitions(db: Db, subject: Id) returns (found: seq<Id>)
    ensures forall d: Id :: d in found <==> d < |db.definitions| && db.definitions[d].published && db.definitions[d].subject == subject
    ensures forall i, j :: 0 <= i < j < |found| ==> found[i] != found[j]
  {
    found := [];
    for d := 0 to |db.definitions|
      invariant forall e: Id :: e in found <==> e < d && db.definitions[e].published && db.definitions[e].subject == subject
      invariant forall i, j :: 0 <= i < j < |found| ==> found[i] != found[j]
    {
      if db.definitions[d].published && db.definitions[d].subject == subject {
        found := found + [d];
      }
    }
  }

  predicate RowPlayable(c: Config, r: RowContent) { Objective(r.payload) && Effective(r) >= 1 && InScale(c, Effective(r)) }

  /** Validates the whole pool up front. */
  method BuildPool(c: Content, keys: seq<LinkKey>) returns (pool: Option<seq<PoolItem>>)
    requires Enumerates(keys, c.rows)
    ensures pool.Some? <==> forall k :: k in c.rows ==> RowPlayable(c.config, c.rows[k])
    ensures pool.Some? ==> |pool.value| == |keys| && forall i :: 0 <= i < |keys| ==>
              pool.value[i] == PoolItem(keys[i].item, c.rows[keys[i]].skill, Effective(c.rows[keys[i]]))
  {
    hide RowPlayable, Effective;
    var items: seq<PoolItem> := [];
    assert forall i :: 0 <= i < |keys| ==> keys[i] in keys;
    for i := 0 to |keys|
      invariant forall j :: 0 <= j < i ==> RowPlayable(c.config, c.rows[keys[j]])
      invariant |items| == i && forall j :: 0 <= j < i ==>
                  items[j] == PoolItem(keys[j].item, c.rows[keys[j]].skill, Effective(c.rows[keys[j]]))
    {
      var row := c.rows[keys[i]];
      if !RowPlayable(c.config, row) {
        return None;
      }
      items := items + [PoolItem(keys[i].item, row.skill, Effective(row))];
    }
    pool := Some(items);
  }

  function PoolSkills(pool: seq<PoolItem>): set<Id> { set i | 0 <= i < |pool| :: pool[i].skill }

  lemma PoolCovers(c: Content, keys: seq<LinkKey>, pool: seq<PoolItem>)
    requires Enumerates(keys, c.rows) && |pool| == |keys|
    requires forall i :: 0 <= i < |keys| ==> keys[i] in c.rows && pool[i].skill == c.rows[keys[i]].skill
    ensures PoolSkills(pool) == Covered(c.rows)
    ensures |keys| == 0 <==> c.rows == map[]
  {
    forall s ensures s in PoolSkills(pool) <==> s in Covered(c.rows) {
      if s in Covered(c.rows) {
        var k :| k in c.rows && c.rows[k].skill == s;
        var i :| 0 <= i < |keys| && keys[i] == k;
        assert pool[i].skill == s;
      }
    }
    if |keys| > 0 {
      assert keys[0] in c.rows;
    }
  }

  /**
   An attempt resolves exactly when the subject has one published definition whose current version is fit to run; which of
   the two refusals is given otherwise.
   */
  method ResolveCurrentDefinition(db: Db, subject: Id) returns (r: Resolved)
    ensures r.Resolved? <==> Accepts(db, subject)
    ensures r.NotAvailable? <==> Unavailable(db, subject)
    ensures r.ConfigurationInvalid? <==> Misconfigured(db, subject)
    ensures r.Resolved? ==> OnlyPublished(db, subject, r.definition) && db.definitions[r.definition].current == Some(r.version)
    ensures r.Resolved? ==> r.version < |db.versions| && PoolOf(ContentOf(db, r.version), r.pool)
  {
    var defs := PublishedDefinitions(db, subject);
    if |defs| == 0 {
      NoDefinition(db, subject);
      return NotAvailable;
    }
    assert defs[0] in defs;
    if |defs| > 1 {
      assert defs[1] in defs;
      TwoDefinitions(db, subject, defs[0], defs[1]);
      return ConfigurationInvalid;
    }
    var d := defs[0];
    assert OnlyPublished(db, subject, d);
    hide OnlyPublished;
    OnlyOne(db, subject, d);
    hide Accepts, Unavailable, Misconfigured;
    var current := db.definitions[d].current;
    if current.None? || current.value >= |db.versions| || db.versions[current.value].definition != d
       || !db.versions[current.value].status.Published? {
      return NotAvailable;
    }
    var c := ContentOf(db, current.value);
    hide ContentOf;
    if !ConfigOk(c.config) {
      return ConfigurationInvalid;
    }
    var keys := ListRows(c.rows);
    var pool := BuildPool(c, keys);
    if |keys| == 0 || pool.None? {
      if |keys| == 0 {
        assert c.rows == map[];
      }
      return ConfigurationInvalid;
    }
    PoolCovers(c, keys, pool.value);
    if |PoolSkills(pool.value)| * c.config.itemsPerSkill > c.config.maxItems {
      return ConfigurationInvalid;
    }
    r := Resolved(d, current.value, pool.value);
  }

  lemma NoDefinition(db: Db, subject: Id)
    requires forall d: Id :: !Publishes(db, subject, d)
    ensures Unavailable(db, subject) && !Accepts(db, subject) && !Misconfigured(db, subject)
  {
    forall d: Id ensures !OnlyPublished(db, subject, d) {
      assert !Publishes(db, subject, d);
    }
  }

  lemma TwoDefinitions(db: Db, subject: Id, d: Id, e: Id)
    requires Publishes(db, subject, d) && Publishes(db, subject, e) && d != e
    ensures Misconfigured(db, subject) && !Accepts(db, subject) && !Unavailable(db, subject)
  {
    forall f: Id ensures !OnlyPublished(db, subject, f) {
      assert f != d || f != e;
    }
  }

  lemma OnlyOne(db: Db, subject: Id, d: Id)
    requires OnlyPublished(db, subject, d)
    ensures Accepts(db, subject) <==> CurrentReady(db, d)
    ensures Unavailable(db, subject) <==> !HasCurrent(db, d)
    ensures Misconfigured(db, subject) <==> HasCurrent(db, d) && !CurrentReady(db, d)
  {
    assert Publishes(db, subject, d);
    hide CurrentReady, HasCurrent;
  }
}
