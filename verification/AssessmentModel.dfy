/**
 Assessment definitions, their versions and items, and the authoring transactions as functions of the tables
 (src/assessment-authoring/assessment-authoring.service.ts:125-309, assessment-authoring.repository.ts). A row's id is
 its position for definitions and versions, and given by the database for items, which can be deleted. A call that
 throws changes nothing. A stored payload is represented by what its parser makes of it.
 */
module AssessmentModel {
  import opened Basics
  import opened OptimisticTokens

  type Id = nat

  datatype Status = Draft | Review | Published | Archived

  datatype Config = Config(
    startDifficulty: int, stepUp: int, stepDown: int, itemsPerSkill: int, maxItems: int, minDifficulty: int, maxDifficulty: int)

  datatype Format = SingleChoice | MultipleChoice | TrueFalse | OpenEnded

  datatype Payload = Payload(format: Format, prompt: string, options: nat, correct: nat)

  datatype Definition = Definition(subject: Id, published: bool, current: Option<Id>)

  datatype Version = Version(definition: Id, versionNo: int, config: Config, status: Status, token: int)

  datatype Item = Item(payload: Option<Payload>, skill: Id, difficulty: int, status: Status, token: int)

  datatype LinkKey = LinkKey(version: Id, item: Id)

  datatype Slot = Slot(ordering: int, override: Option<int>)

  datatype Skill = Skill(subject: Id, active: bool)

  datatype Db = Db(
    definitions: seq<Definition>, versions: seq<Version>, items: map<Id, Item>, links: map<LinkKey, Slot>, skills: map<Id, Skill>)

  const DEFAULT_CONFIG: Config := Config(3, 1, 1, 2, 10, 1, 6)

  /** What the configuration parser accepts. */
  predicate ConfigOk(c: Config) {
    && c.startDifficulty >= 1 && c.stepUp >= 0 && c.stepDown >= 0 && c.itemsPerSkill >= 1 && c.maxItems >= 1
    && 1 <= c.minDifficulty < c.maxDifficulty && c.minDifficulty <= c.startDifficulty <= c.maxDifficulty
  }

  /** What the payload parser guarantees of its results. */
  predicate PayloadOk(p: Payload) { p.format.OpenEnded? || (p.options >= 2 && p.correct >= 1) }

  // ---- the content of a version ----

  datatype RowContent = RowContent(slot: Slot, payload: Option<Payload>, skill: Id, difficulty: int)

  datatype Content = Content(config: Config, rows: map<LinkKey, RowContent>)

  function RowOf(slot: Slot, item: Item): RowContent { RowContent(slot, item.payload, item.skill, item.difficulty) }

  function Rows(items: map<Id, Item>, links: map<LinkKey, Slot>, v: Id): map<LinkKey, RowContent> {
    map k | k in links && k.version == v && k.item in items :: RowOf(links[k], items[k.item])
  }

  function ContentOf(db: Db, v: Id): Content
    requires v < |db.versions|
  {
    Content(db.versions[v].config, Rows(db.items, db.links, v))
  }

  function Effective(r: RowContent): int { if r.slot.override.Some? then r.slot.override.value else r.difficulty }

  predicate Objective(p: Option<Payload>) { p.Some? && !p.value.format.OpenEnded? }

  predicate InScale(c: Config, difficulty: int) { c.minDifficulty <= difficulty <= c.maxDifficulty }

  function Covered(rows: map<LinkKey, RowContent>): set<Id> { set k | k in rows :: rows[k].skill }

  function CountFor(rows: map<LinkKey, RowContent>, skill: Id): nat { |set k | k in rows && rows[k].skill == skill| }

  /** The publish gate: what readiness asks of a version, given the active skills of the subject. */
  predicate Ready(c: Content, active: set<Id>) {
    && ConfigOk(c.config) && c.rows != map[]
    && (forall k :: k in c.rows ==>
          Objective(c.rows[k].payload) && PayloadOk(c.rows[k].payload.value)
          && c.rows[k].skill in active && InScale(c.config, Effective(c.rows[k])))
    && (forall s :: s in Covered(c.rows) ==> CountFor(c.rows, s) >= c.config.itemsPerSkill)
    && |Covered(c.rows)| * c.config.itemsPerSkill <= c.config.maxItems
  }

  /** What the learner runtime asks of the current version of a published definition. */
  predicate RuntimeReady(c: Content) {
    && ConfigOk(c.config) && c.rows != map[]
    && (forall k :: k in c.rows ==>
          Objective(c.rows[k].payload) && Effective(c.rows[k]) >= 1 && InScale(c.config, Effective(c.rows[k])))
    && |Covered(c.rows)| * c.config.itemsPerSkill <= c.config.maxItems
  }

  function ActiveSkills(db: Db, subject: Id): set<Id> {
    set s | s in db.skills && db.skills[s].subject == subject && db.skills[s].active
  }

  // ---- queries ----

  predicate Editable(s: Status) { s.Draft? || s.Review? }

  predicate HasEditable(versions: seq<Version>, d: Id) {
    exists v :: 0 <= v < |versions| && versions[v].definition == d && Editable(versions[v].status)
  }

  function MaxVersionNo(versions: seq<Version>, d: Id): int {
    if versions == [] then 0
    else
      var last, rest := versions[|versions| - 1], MaxVersionNo(versions[..|versions| - 1], d);
      if last.definition == d && last.versionNo > rest then last.versionNo else rest
  }

  function Owners(db: Db, item: Id): set<Id> { set k | k in db.links && k.item == item :: k.version }

  function LinksOf(links: map<LinkKey, Slot>, v: Id): set<LinkKey> { set k | k in links && k.version == v }

  /** The items of a version in list order: each once, by ascending ordering. */
  ghost predicate Lists(links: map<LinkKey, Slot>, v: Id, ids: seq<Id>) {
    && (forall i, j :: 0 <= i < j < |ids| ==> ids[i] != ids[j])
    && (forall id: Id :: id in ids <==> LinkKey(v, id) in links)
    && (forall i, j :: 0 <= i < j < |ids| ==> links[LinkKey(v, ids[i])].ordering <= links[LinkKey(v, ids[j])].ordering)
  }

  // ---- writes ----

  function Transition(v: Version, to: Status, expected: int, clock: int): Version {
    v.(status := to, token := NextToken(expected, clock))
  }

  /** Flips the status of the items of one version. */
  function Flip(items: map<Id, Item>, links: map<LinkKey, Slot>, v: Id, from: Status, to: Status): map<Id, Item> {
    map i | i in items ::
      if LinkKey(v, i) in links && items[i].status == from then items[i].(status := to) else items[i]
  }

  datatype Edits = Edits(itemsPerSkill: Option<int>, maxItems: Option<int>, startDifficulty: Option<int>)

  function Or(o: Option<int>, default: int): int { if o.Some? then o.value else default }

  function Merged(c: Config, e: Edits): Config {
    c.(itemsPerSkill := Or(e.itemsPerSkill, c.itemsPerSkill), maxItems := Or(e.maxItems, c.maxItems),
       startDifficulty := Or(e.startDifficulty, c.startDifficulty))
  }

  /** Copies of the listed items under new ids, at orderings 0, 1, ... */
  function CloneItems(db: Db, token: int, sources: seq<Id>, copies: seq<Id>, n: nat): map<Id, Item>
    requires n <= |sources| && n <= |copies| && forall i :: 0 <= i < n ==> sources[i] in db.items
  {
    if n == 0 then db.items
    else CloneItems(db, token, sources, copies, n - 1)[copies[n - 1] := db.items[sources[n - 1]].(status := Draft, token := token)]
  }

  function CloneLinks(db: Db, from: Id, to: Id, sources: seq<Id>, copies: seq<Id>, n: nat): map<LinkKey, Slot>
    requires n <= |sources| && n <= |copies| && forall i :: 0 <= i < n ==> LinkKey(from, sources[i]) in db.links
  {
    if n == 0 then db.links
    else
      var override := db.links[LinkKey(from, sources[n - 1])].override;
      CloneLinks(db, from, to, sources, copies, n - 1)[LinkKey(to, copies[n - 1]) := Slot(n - 1, override)]
  }

  /** Orderings 0, 1, ... in the requested order. */
  function OrderLinks(links: map<LinkKey, Slot>, v: Id, ordered: seq<Id>, n: nat): map<LinkKey, Slot>
    requires n <= |ordered| && forall i :: 0 <= i < n ==> LinkKey(v, ordered[i]) in links
    ensures OrderLinks(links, v, ordered, n).Keys == links.Keys
  {
    if n == 0 then links
    else
      var before, k := OrderLinks(links, v, ordered, n - 1), LinkKey(v, ordered[n - 1]);
      before[k := before[k].(ordering := n - 1)]
  }

  predicate ExactOrder(links: map<LinkKey, Slot>, v: Id, ordered: seq<Id>) {
    && (forall i, j :: 0 <= i < j < |ordered| ==> ordered[i] != ordered[j])
    && (forall i :: 0 <= i < |ordered| ==> LinkKey(v, ordered[i]) in links)
    && (forall k :: k in links && k.version == v ==> k.item in ordered)
  }

  // ---- the transactions ----

  datatype Outcome =
    | Done | NotFound | EditableExists | NothingToClone | ConfigInvalid | VersionNotDraft | VersionNotInReview | EditConflict
    | SkillInvalid | ItemInvalid | ItemImmutable | OrderInvalid | NotReady | PointerIncoherent

  datatype Op =
    | NewDefinition(subject: Id)
    | CreateBlank(definition: Id, token: int)
    | CloneCurrent(definition: Id, token: int, sources: seq<Id>, copies: seq<Id>)
    | UpdateConfig(version: Id, edits: Edits, expected: int, clock: int)
    | CreateItem(version: Id, item: Id, payload: Option<Payload>, skill: Id, difficulty: int, token: int, expected: int, clock: int)
    | UpdateItem(item: Id, payload: Option<Payload>, skill: Id, difficulty: int, expected: int, clock: int)
    | DeleteItem(item: Id, expected: int, clock: int)
    | ReorderItems(version: Id, ordered: seq<Id>, expected: int, clock: int)
    | SubmitReview(version: Id, expected: int, clock: int)
    | ReturnDraft(version: Id, expected: int, clock: int)
    | Publish(version: Id, expected: int, clock: int)
    | SetSkill(skill: Id, row: Skill)

  predicate SkillActive(db: Db, skill: Id, subject: Id) {
    skill in db.skills && db.skills[skill].subject == subject && db.skills[skill].active
  }

  /** The author's payload always carries options, so an open-ended one does not parse. */
  predicate Buildable(p: Option<Payload>) { Objective(p) && PayloadOk(p.value) }

  function NewVersion(db: Db, d: Id, config: Config, token: int): Version {
    Version(d, MaxVersionNo(db.versions, d) + 1, config, Draft, token)
  }

  ghost function PerformClone(db: Db, d: Id, token: int, sources: seq<Id>, copies: seq<Id>): (Db, Outcome)
    requires d < |db.definitions| && !HasEditable(db.versions, d)
  {
    var current := db.definitions[d].current;
    if current.None? then (db, NothingToClone)
    else if current.value >= |db.versions| then (db, PointerIncoherent)
    else if !ConfigOk(db.versions[current.value].config) then (db, ConfigInvalid)
    else if !Lists(db.links, current.value, sources) || !FreshFor(db, sources, copies) then (db, NotFound)
    else
      var v := |db.versions|;
      (db.(versions := db.versions + [NewVersion(db, d, db.versions[current.value].config, token)],
           items := CloneItems(db, token, sources, copies, |sources|),
           links := CloneLinks(db, current.value, v, sources, copies, |sources|)),
       Done)
  }

  /** The rows a clone reads exist, and the ids it is given are new and distinct. */
  ghost predicate FreshFor(db: Db, sources: seq<Id>, copies: seq<Id>) {
    && |copies| == |sources| && (forall i :: 0 <= i < |sources| ==> sources[i] in db.items)
    && (forall i :: 0 <= i < |copies| ==> copies[i] !in db.items && forall k :: k in db.links ==> k.item != copies[i])
    && (forall i, j :: 0 <= i < j < |copies| ==> copies[i] != copies[j])
  }

  function PerformConfig(db: Db, v: Id, edits: Edits, expected: int, clock: int): (Db, Outcome) {
    if v >= |db.versions| then (db, NotFound)
    else
      var ver := db.versions[v];
      if !ver.status.Draft? then (db, VersionNotDraft)
      else if !ConfigOk(ver.config) || !ConfigOk(Merged(ver.config, edits)) then (db, ConfigInvalid)
      else if ver.token != expected then (db, EditConflict)
      else (db.(versions := db.versions[v := ver.(config := Merged(ver.config, edits), token := NextToken(expected, clock))]), Done)
  }

  function PerformCreateItem(db: Db, v: Id, item: Id, payload: Option<Payload>, skill: Id, difficulty: int, token: int,
                             expected: int, clock: int): (Db, Outcome) {
    if v >= |db.versions| || db.versions[v].definition >= |db.definitions| then (db, NotFound)
    else
      var ver := db.versions[v];
      if !ver.status.Draft? then (db, VersionNotDraft)
      else if !ConfigOk(ver.config) then (db, ConfigInvalid)
      else if !SkillActive(db, skill, db.definitions[ver.definition].subject) then (db, SkillInvalid)
      else if !InScale(ver.config, difficulty) || !Buildable(payload) then (db, ItemInvalid)
      else if ver.token != expected then (db, EditConflict)
      else if item in db.items || Owners(db, item) != {} then (db, NotFound)
      else
        (db.(versions := db.versions[v := ver.(token := NextToken(expected, clock))],
             items := db.items[item := Item(payload, skill, difficulty, Draft, token)],
             links := db.links[LinkKey(v, item) := Slot(|LinksOf(db.links, v)|, None)]),
         Done)
  }

  /** An item can be edited when it belongs to exactly one version and that one is DRAFT. */
  function EditableOwner(db: Db, item: Id): Option<Id> {
    if exists v :: 0 <= v < |db.versions| && Owners(db, item) == {v} && db.versions[v].status.Draft?
                   && db.versions[v].definition < |db.definitions|
    then
      var v :| 0 <= v < |db.versions| && Owners(db, item) == {v} && db.versions[v].status.Draft?
               && db.versions[v].definition < |db.definitions|;
      Some(v)
    else None
  }

  function Bumped(v: Version, clock: int): Version { v.(token := NextToken(v.token, clock)) }

  function PerformUpdateItem(db: Db, item: Id, payload: Option<Payload>, skill: Id, difficulty: int, expected: int, clock: int)
    : (Db, Outcome)
  {
    if item !in db.items then (db, NotFound)
    else
      var owner := EditableOwner(db, item);
      if owner.None? then (db, ItemImmutable)
      else
        var v := owner.value;
        var ver := db.versions[v];
        if !ConfigOk(ver.config) then (db, ConfigInvalid)
        else if !SkillActive(db, skill, db.definitions[ver.definition].subject) then (db, SkillInvalid)
        else if !InScale(ver.config, difficulty) || !Buildable(payload) then (db, ItemInvalid)
        else if db.items[item].token != expected then (db, EditConflict)
        else
          var row := db.items[item].(payload := payload, skill := skill, difficulty := difficulty, token := NextToken(expected, clock));
          (db.(versions := db.versions[v := Bumped(ver, clock)], items := db.items[item := row]), Done)
  }

  function WithoutItem(links: map<LinkKey, Slot>, item: Id): map<LinkKey, Slot> {
    map k | k in links && k.item != item :: links[k]
  }

  function PerformDeleteItem(db: Db, item: Id, expected: int, clock: int): (Db, Outcome) {
    if item !in db.items then (db, NotFound)
    else
      var owner := EditableOwner(db, item);
      if owner.None? then (db, ItemImmutable)
      else if db.items[item].token != expected then (db, EditConflict)
      else
        var v := owner.value;
        (db.(versions := db.versions[v := Bumped(db.versions[v], clock)],
             items := db.items - {item}, links := WithoutItem(db.links, item)),
         Done)
  }

  function PerformReorder(db: Db, v: Id, ordered: seq<Id>, expected: int, clock: int): (Db, Outcome) {
    if v >= |db.versions| then (db, NotFound)
    else
      var ver := db.versions[v];
      if !ver.status.Draft? then (db, VersionNotDraft)
      else if !ExactOrder(db.links, v, ordered) then (db, OrderInvalid)
      else if ver.token != expected then (db, EditConflict)
      else
        (db.(versions := db.versions[v := ver.(token := NextToken(expected, clock))],
             links := OrderLinks(db.links, v, ordered, |ordered|)),
         Done)
  }

  function VersionReady(db: Db, v: Id): bool
    requires v < |db.versions|
  {
    db.versions[v].definition < |db.definitions|
    && Ready(ContentOf(db, v), ActiveSkills(db, db.definitions[db.versions[v].definition].subject))
  }

  /** A guarded lifecycle step of a version and of its items. */
  function Step(db: Db, v: Id, from: Status, to: Status, expected: int, clock: int): Db
    requires v < |db.versions|
  {
    db.(versions := db.versions[v := Transition(db.versions[v], to, expected, clock)],
        items := Flip(db.items, db.links, v, from, to))
  }

  function PerformSubmit(db: Db, v: Id, expected: int, clock: int): (Db, Outcome) {
    if v >= |db.versions| then (db, NotFound)
    else if !db.versions[v].status.Draft? then (db, VersionNotDraft)
    else if !VersionReady(db, v) then (db, NotReady)
    else if db.versions[v].token != expected then (db, EditConflict)
    else (Step(db, v, Draft, Review, expected, clock), Done)
  }

  function PerformReturn(db: Db, v: Id, expected: int, clock: int): (Db, Outcome) {
    if v >= |db.versions| then (db, NotFound)
    else if !db.versions[v].status.Review? then (db, VersionNotInReview)
    else if db.versions[v].token != expected then (db, EditConflict)
    else (Step(db, v, Review, Draft, expected, clock), Done)
  }

  /** The previous current version is archived; its items stay as they are. */
  function ArchivePrevious(db: Db, previous: Option<Id>, v: Id, clock: int): seq<Version> {
    if previous.None? || previous.value == v || previous.value >= |db.versions| || !db.versions[previous.value].status.Published?
    then db.versions
    else db.versions[previous.value := Transition(db.versions[previous.value], Archived, db.versions[previous.value].token, clock)]
  }

  function PerformPublish(db: Db, v: Id, expected: int, clock: int): (Db, Outcome) {
    if v >= |db.versions| || db.versions[v].definition >= |db.definitions| then (db, NotFound)
    else
      var d := db.versions[v].definition;
      var previous := db.definitions[d].current;
      if !db.versions[v].status.Review? then (db, VersionNotInReview)
      else if db.versions[v].token != expected then (db, EditConflict)
      else if !VersionReady(db, v) then (db, NotReady)
      else if previous.Some? && previous.value != v && (previous.value >= |db.versions| || db.versions[previous.value].definition != d)
      then (db, PointerIncoherent)
      else
        var archived := db.(versions := ArchivePrevious(db, previous, v, clock));
        var stepped := Step(archived, v, Review, Published, expected, clock);
        (stepped.(definitions := db.definitions[d := db.definitions[d].(published := true, current := Some(v))]), Done)
  }

  ghost function Perform(db: Db, op: Op): (Db, Outcome) {
    match op
    case NewDefinition(subject) =>
      if exists d :: 0 <= d < |db.definitions| && db.definitions[d].subject == subject then (db, Done)
      else (db.(definitions := db.definitions + [Definition(subject, false, None)]), Done)
    case CreateBlank(d, token) =>
      if d >= |db.definitions| then (db, NotFound)
      else if HasEditable(db.versions, d) then (db, EditableExists)
      else (db.(versions := db.versions + [NewVersion(db, d, DEFAULT_CONFIG, token)]), Done)
    case CloneCurrent(d, token, sources, copies) =>
      if d >= |db.definitions| then (db, NotFound)
      else if HasEditable(db.versions, d) then (db, EditableExists)
      else PerformClone(db, d, token, sources, copies)
    case UpdateConfig(v, edits, expected, clock) => PerformConfig(db, v, edits, expected, clock)
    case CreateItem(v, item, payload, skill, difficulty, token, expected, clock) =>
      PerformCreateItem(db, v, item, payload, skill, difficulty, token, expected, clock)
    case UpdateItem(item, payload, skill, difficulty, expected, clock) =>
      PerformUpdateItem(db, item, payload, skill, difficulty, expected, clock)
    case DeleteItem(item, expected, clock) => PerformDeleteItem(db, item, expected, clock)
    case ReorderItems(v, ordered, expected, clock) => PerformReorder(db, v, ordered, expected, clock)
    case SubmitReview(v, expected, clock) => PerformSubmit(db, v, expected, clock)
    case ReturnDraft(v, expected, clock) => PerformReturn(db, v, expected, clock)
    case Publish(v, expected, clock) => PerformPublish(db, v, expected, clock)
    case SetSkill(skill, row) => (db.(skills := db.skills[skill := row]), Done)
  }
}
