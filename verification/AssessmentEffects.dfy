/**
 What the assessment authoring transactions answer and write, on the rows alone, in every state a run leads to
 (src/assessment-authoring/assessment-authoring.service.ts:125-309).
 */
module AssessmentEffects {
  import opened Basics
  import opened OptimisticTokens
  import opened AssessmentModel
  import opened AssessmentInvariants
  import opened AssessmentRuns

  // ---- the vocabulary of the statements ----

  /** Only this version's row changes, into `row` but for a token beyond the one quoted and not before the clock. */
  predicate VersionBecomes(db: Db, db': Db, v: Id, row: Version, expected: int, clock: int) {
    && v < |db.versions| == |db'.versions|
    && db'.versions[v] == row.(token := db'.versions[v].token)
    && db'.versions[v].token > expected && db'.versions[v].token >= clock
    && forall w :: 0 <= w < |db.versions| && w != v ==> db'.versions[w] == db.versions[w]
  }

  predicate VersionAdded(db: Db, db': Db, row: Version) {
    && |db'.versions| == |db.versions| + 1 && db'.versions[|db.versions|] == row
    && forall w :: 0 <= w < |db.versions| ==> db'.versions[w] == db.versions[w]
  }

  /** What an author's configuration must satisfy. */
  predicate Sane(c: Config) {
    && c.startDifficulty >= 1 && c.stepUp >= 0 && c.stepDown >= 0 && c.itemsPerSkill >= 1 && c.maxItems >= 1
    && 1 <= c.minDifficulty && c.minDifficulty < c.maxDifficulty
    && c.minDifficulty <= c.startDifficulty && c.startDifficulty <= c.maxDifficulty
  }

  /** An item an author may write: an objective question with two options and a right one, on an active skill, in scale. */
  predicate Writable(db: Db, ver: Version, payload: Option<Payload>, skill: Id, difficulty: int) {
    && payload.Some? && !payload.value.format.OpenEnded? && payload.value.options >= 2 && payload.value.correct >= 1
    && ver.config.minDifficulty <= difficulty && difficulty <= ver.config.maxDifficulty
    && OfSubject(db, ver, skill)
  }

  predicate OfSubject(db: Db, ver: Version, skill: Id) {
    && ver.definition < |db.definitions|
    && skill in db.skills && db.skills[skill].active && db.skills[skill].subject == db.definitions[ver.definition].subject
  }

  // ---- new definitions and versions ----

  /** A subject gets one definition, unpublished and without a version; asking again changes nothing. */
  lemma DefinitionAnswers(db: Db, subject: Id)
    ensures var (db', r) := Perform(db, NewDefinition(subject));
            && r == Done
            && if exists d :: 0 <= d < |db.definitions| && db.definitions[d].subject == subject then db' == db
               else db' == db.(definitions := db.definitions + [Definition(subject, false, None)])
  {
  }

  ghost predicate IsOpen(db: Db, d: Id) {
    exists v :: 0 <= v < |db.versions| && db.versions[v].definition == d
                && (db.versions[v].status.Draft? || db.versions[v].status.Review?)
  }

  lemma NextNumber(db: Db, d: Id)
    requires Reachable(db)
    ensures MaxVersionNo(db.versions, d) == VersionsOf(db.versions, d)
  {
    ReachableInv(db);
    MaxIsCount(db.versions, d);
  }

  lemma CurrentIsThere(db: Db, d: Id)
    requires Reachable(db) && d < |db.definitions| && db.definitions[d].current.Some?
    ensures db.definitions[d].current.value < |db.versions|
  {
    ReachableInv(db);
  }

  /** A blank version: the next number, the default configuration, no item. */
  lemma BlankAnswers(db: Db, d: Id, token: int)
    requires Reachable(db)
    ensures var (db', r) := Perform(db, CreateBlank(d, token));
            && (!r.Done? ==> db' == db)
            && (d >= |db.definitions| ==> r == NotFound)
            && (d < |db.definitions| && IsOpen(db, d) ==> r == EditableExists)
            && (d < |db.definitions| && !IsOpen(db, d) ==>
                  && r == Done && db' == db.(versions := db'.versions)
                  && VersionAdded(db, db', Version(d, VersionsOf(db.versions, d) + 1, Config(3, 1, 1, 2, 10, 1, 6), Draft, token)))
  {
    hide Reachable, MaxVersionNo, VersionsOf, PerformClone, PerformConfig, PerformCreateItem, PerformUpdateItem, PerformDeleteItem,
      PerformReorder, PerformSubmit, PerformReturn, PerformPublish;
    NextNumber(db, d);
  }

  /** Copy `j` of listed item `j`, DRAFT under a new id; every other item stays. */
  ghost predicate ItemsCopied(db: Db, items: map<Id, Item>, token: int, sources: seq<Id>, copies: seq<Id>) {
    && |copies| == |sources|
    && (forall j :: 0 <= j < |copies| ==>
          && sources[j] in db.items && copies[j] in items && copies[j] !in db.items
          && items[copies[j]] == db.items[sources[j]].(status := Draft, token := token))
    && (forall i :: i in db.items ==> i in items && items[i] == db.items[i])
    && (forall i :: i in items && i !in db.items ==> i in copies)
  }

  /** Copy `j` is in the new version at ordering `j` with the override of its source; every other link stays. */
  ghost predicate LinksCopied(db: Db, links: map<LinkKey, Slot>, from: Id, sources: seq<Id>, copies: seq<Id>) {
    && |copies| == |sources|
    && (forall j :: 0 <= j < |copies| ==>
          && LinkKey(from, sources[j]) in db.links && LinkKey(|db.versions|, copies[j]) in links
          && links[LinkKey(|db.versions|, copies[j])] == Slot(j, db.links[LinkKey(from, sources[j])].override))
    && (forall k :: k in db.links ==> k in links && links[k] == db.links[k])
    && (forall k :: k in links && k !in db.links ==> k.version == |db.versions| && k.item in copies)
  }

  /** A clone of the current version, given the list of its items and new ids for the copies. */
  lemma CloneAnswers(db: Db, d: Id, token: int, sources: seq<Id>, copies: seq<Id>)
    requires Reachable(db)
    requires d < |db.definitions| && db.definitions[d].current.Some? ==>
               Lists(db.links, db.definitions[d].current.value, sources) && FreshFor(db, sources, copies)
    ensures var (db', r) := Perform(db, CloneCurrent(d, token, sources, copies));
            && (!r.Done? ==> db' == db)
            && (d >= |db.definitions| ==> r == NotFound)
            && (d < |db.definitions| && IsOpen(db, d) ==> r == EditableExists)
            && (d < |db.definitions| && !IsOpen(db, d) && db.definitions[d].current.None? ==> r == NothingToClone)
            && (d < |db.definitions| && !IsOpen(db, d) && db.definitions[d].current.Some? ==>
                  var from := db.definitions[d].current.value;
                  && from < |db.versions|
                  && (!Sane(db.versions[from].config) ==> r == ConfigInvalid)
                  && (Sane(db.versions[from].config) ==>
                        && r == Done && db' == db.(versions := db'.versions, items := db'.items, links := db'.links)
                        && VersionAdded(db, db',
                                        Version(d, VersionsOf(db.versions, d) + 1, db.versions[from].config, Draft, token))
                        && ItemsCopied(db, db'.items, token, sources, copies)
                        && LinksCopied(db, db'.links, from, sources, copies)))
  {
    hide Reachable, MaxVersionNo, VersionsOf, Lists, FreshFor, CloneItems, CloneLinks, ItemsCopied, LinksCopied, PerformConfig, PerformCreateItem,
      PerformUpdateItem, PerformDeleteItem, PerformReorder, PerformSubmit, PerformReturn, PerformPublish;
    NextNumber(db, d);
    if d < |db.definitions| && !IsOpen(db, d) && db.definitions[d].current.Some? {
      CurrentIsThere(db, d);
      var from := db.definitions[d].current.value;
      if Sane(db.versions[from].config) {
        CopiesAreMade(db, from, token, sources, copies);
      }
    }
  }

  lemma CopiesAreMade(db: Db, from: Id, token: int, sources: seq<Id>, copies: seq<Id>)
    requires FreshFor(db, sources, copies) && Lists(db.links, from, sources)
    ensures |copies| == |sources| && forall i :: 0 <= i < |sources| ==> sources[i] in db.items
    ensures forall i :: 0 <= i < |sources| ==> LinkKey(from, sources[i]) in db.links
    ensures ItemsCopied(db, CloneItems(db, token, sources, copies, |sources|), token, sources, copies)
    ensures LinksCopied(db, CloneLinks(db, from, |db.versions|, sources, copies, |sources|), from, sources, copies)
  {
    assert forall i :: 0 <= i < |sources| ==> sources[i] in sources;
    hide CloneItems, CloneLinks, ItemsCopied, LinksCopied;
    CopiedItems(db, token, sources, copies);
    CopiedLinks(db, from, sources, copies);
  }

  lemma CopiedItems(db: Db, token: int, sources: seq<Id>, copies: seq<Id>)
    requires FreshFor(db, sources, copies)
    ensures ItemsCopied(db, CloneItems(db, token, sources, copies, |sources|), token, sources, copies)
  {
    ClonedItems(db, token, sources, copies, |sources|);
    hide CloneItems;
  }

  lemma CopiedLinks(db: Db, from: Id, sources: seq<Id>, copies: seq<Id>)
    requires FreshFor(db, sources, copies) && forall i :: 0 <= i < |sources| ==> LinkKey(from, sources[i]) in db.links
    ensures LinksCopied(db, CloneLinks(db, from, |db.versions|, sources, copies, |sources|), from, sources, copies)
  {
    ClonedLinks(db, from, |db.versions|, sources, copies, |sources|);
    hide CloneLinks;
  }

  // ---- editing a version ----

  function Given(o: Option<int>, default: int): int { if o.Some? then o.value else default }

  /** The configuration of a DRAFT version: the three settings given are replaced, when the result is a sane one. */
  lemma ConfigAnswers(db: Db, v: Id, edits: Edits, expected: int, clock: int)
    ensures var (db', r) := PerformConfig(db, v, edits, expected, clock);
            && (!r.Done? ==> db' == db)
            && if v >= |db.versions| then r == NotFound
               else
                 var ver := db.versions[v]; var c := ver.config;
                 var next := Config(Given(edits.startDifficulty, c.startDifficulty), c.stepUp, c.stepDown,
                                    Given(edits.itemsPerSkill, c.itemsPerSkill), Given(edits.maxItems, c.maxItems),
                                    c.minDifficulty, c.maxDifficulty);
                 && (!ver.status.Draft? ==> r == VersionNotDraft)
                 && (ver.status.Draft? && !(Sane(c) && Sane(next)) ==> r == ConfigInvalid)
                 && (ver.status.Draft? && Sane(c) && Sane(next) && ver.token != expected ==> r == EditConflict)
                 && (ver.status.Draft? && Sane(c) && Sane(next) && ver.token == expected ==>
                       && r == Done && db' == db.(versions := db'.versions)
                       && VersionBecomes(db, db', v, ver.(config := next), expected, clock))
  {
  }

  function ItemsIn(db: Db, v: Id): set<LinkKey> { set k | k in db.links && k.version == v }

  /** The item is added to the table as given and to the version at ordering `at`; every other row stays. */
  predicate ItemAdded(db: Db, db': Db, v: Id, item: Id, row: Item, at: int) {
    && db'.items.Keys == db.items.Keys + {item} && db'.items[item] == row
    && (forall i :: i in db.items && i != item ==> db'.items[i] == db.items[i])
    && db'.links.Keys == db.links.Keys + {LinkKey(v, item)} && db'.links[LinkKey(v, item)] == Slot(at, None)
    && forall k :: k in db.links && k != LinkKey(v, item) ==> db'.links[k] == db.links[k]
  }

  /** A new item goes last in a DRAFT version, under the version's token. */
  lemma CreateItemAnswers(db: Db, v: Id, item: Id, payload: Option<Payload>, skill: Id, difficulty: int, token: int, expected: int,
                          clock: int)
    requires Reachable(db) && item !in db.items
    ensures var (db', r) := PerformCreateItem(db, v, item, payload, skill, difficulty, token, expected, clock);
            && (!r.Done? ==> db' == db)
            && if v >= |db.versions| then r == NotFound
               else
                 var ver := db.versions[v];
                 var fits := Writable(db, ver, payload, skill, difficulty);
                 && (!ver.status.Draft? ==> r == VersionNotDraft)
                 && (ver.status.Draft? && !Sane(ver.config) ==> r == ConfigInvalid)
                 && (ver.status.Draft? && Sane(ver.config) && !OfSubject(db, ver, skill) ==> r == SkillInvalid)
                 && (ver.status.Draft? && Sane(ver.config) && OfSubject(db, ver, skill) && !fits ==> r == ItemInvalid)
                 && (ver.status.Draft? && Sane(ver.config) && fits && ver.token != expected ==> r == EditConflict)
                 && (ver.status.Draft? && Sane(ver.config) && fits && ver.token == expected ==>
                       && r == Done && db' == db.(versions := db'.versions, items := db'.items, links := db'.links)
                       && VersionBecomes(db, db', v, ver, expected, clock)
                       && ItemAdded(db, db', v, item, Item(payload, skill, difficulty, Draft, token), |ItemsIn(db, v)|))
  {
    hide Reachable, Owners, ItemsIn, LinksOf;
    NobodyOwns(db, item);
    if v < |db.versions| {
      DefinitionIsThere(db, v);
      assert LinksOf(db.links, v) == ItemsIn(db, v) by {
        LinksAre(db, v);
      }
    }
  }

  lemma LinksAre(db: Db, v: Id)
    ensures LinksOf(db.links, v) == ItemsIn(db, v)
  {
  }

  lemma DefinitionIsThere(db: Db, v: Id)
    requires Reachable(db) && v < |db.versions|
    ensures db.versions[v].definition < |db.definitions|
  {
    ReachableInv(db);
  }

  lemma NobodyOwns(db: Db, item: Id)
    requires Reachable(db) && item !in db.items
    ensures Owners(db, item) == {}
  {
    ReachableInv(db);
  }

  /** The version an item is in decides whether it can be edited: it is its only owner. */
  lemma OwnerDecides(db: Db, item: Id, v: Id)
    requires Reachable(db) && LinkKey(v, item) in db.links
    ensures item in db.items && v < |db.versions| && db.versions[v].definition < |db.definitions|
    ensures forall k :: k in db.links && k.item == item ==> k == LinkKey(v, item)
    ensures EditableOwner(db, item) == if db.versions[v].status.Draft? then Some(v) else None
  {
    ReachableInv(db);
    var k := LinkKey(v, item);
    assert k.item in db.items && k.version < |db.versions|;
    assert Owners(db, item) == {v} by {
      assert v in Owners(db, item);
    }
    hide Inv, Owners;
    DefinitionIsThere(db, v);
    assert forall w :: Owners(db, item) == {w} ==> w == v by {
      assert forall w: Id :: {w} == {v} ==> w in {v};
    }
  }

  /** An edit of an item of a DRAFT version: its content is replaced, its token and its version's move on. */
  lemma UpdateItemAnswers(db: Db, item: Id, v: Id, payload: Option<Payload>, skill: Id, difficulty: int, expected: int, clock: int)
    requires Reachable(db) && LinkKey(v, item) in db.links
    ensures item in db.items && v < |db.versions|
    ensures var (db', r) := PerformUpdateItem(db, item, payload, skill, difficulty, expected, clock);
            var ver := db.versions[v];
            var fits := Writable(db, ver, payload, skill, difficulty);
            && (!r.Done? ==> db' == db)
            && (!ver.status.Draft? ==> r == ItemImmutable)
            && (ver.status.Draft? && !Sane(ver.config) ==> r == ConfigInvalid)
            && (ver.status.Draft? && Sane(ver.config) && !OfSubject(db, ver, skill) ==> r == SkillInvalid)
            && (ver.status.Draft? && Sane(ver.config) && OfSubject(db, ver, skill) && !fits ==> r == ItemInvalid)
            && (ver.status.Draft? && Sane(ver.config) && fits && db.items[item].token != expected ==> r == EditConflict)
            && (ver.status.Draft? && Sane(ver.config) && fits && db.items[item].token == expected ==>
                  && r == Done && db' == db.(versions := db'.versions, items := db'.items)
                  && VersionBecomes(db, db', v, ver, ver.token, clock)
                  && db'.items.Keys == db.items.Keys
                  && db'.items[item] == Item(payload, skill, difficulty, db.items[item].status, db'.items[item].token)
                  && db'.items[item].token > expected && db'.items[item].token >= clock
                  && forall i :: i in db.items && i != item ==> db'.items[i] == db.items[i])
  {
    OwnerDecides(db, item, v);
    hide Reachable, EditableOwner;
  }

  /** A deletion from a DRAFT version: the item and its one link go, every other row stays. */
  lemma DeleteItemAnswers(db: Db, item: Id, v: Id, expected: int, clock: int)
    requires Reachable(db) && LinkKey(v, item) in db.links
    ensures item in db.items && v < |db.versions|
    ensures var (db', r) := PerformDeleteItem(db, item, expected, clock);
            var ver := db.versions[v];
            && (!r.Done? ==> db' == db)
            && (!ver.status.Draft? ==> r == ItemImmutable)
            && (ver.status.Draft? && db.items[item].token != expected ==> r == EditConflict)
            && (ver.status.Draft? && db.items[item].token == expected ==>
                  && r == Done && db' == db.(versions := db'.versions, items := db'.items, links := db'.links)
                  && VersionBecomes(db, db', v, ver, ver.token, clock)
                  && db'.items.Keys == db.items.Keys - {item} && db'.links.Keys == db.links.Keys - {LinkKey(v, item)}
                  && (forall i :: i in db'.items ==> db'.items[i] == db.items[i])
                  && forall k :: k in db'.links ==> db'.links[k] == db.links[k])
  {
    OwnerDecides(db, item, v);
    hide Reachable, EditableOwner;
  }

  lemma UnknownItem(db: Db, item: Id, payload: Option<Payload>, skill: Id, difficulty: int, expected: int, clock: int)
    requires item !in db.items
    ensures PerformUpdateItem(db, item, payload, skill, difficulty, expected, clock) == (db, NotFound)
    ensures PerformDeleteItem(db, item, expected, clock) == (db, NotFound)
  {
  }

  // ---- order ----

  /** The request names every item of the version, each once, and no other. */
  predicate NamesEachOnce(db: Db, v: Id, ordered: seq<Id>) {
    && (forall i, j :: 0 <= i < |ordered| && 0 <= j < |ordered| && ordered[i] == ordered[j] ==> i == j)
    && (forall i: Id :: i in ordered ==> LinkKey(v, i) in db.links)
    && (forall k :: k in db.links && k.version == v ==> k.item in ordered)
  }

  lemma {:induction false} OrderedAt(links: map<LinkKey, Slot>, v: Id, ordered: seq<Id>, n: nat)
    requires n <= |ordered| && forall i :: 0 <= i < n ==> LinkKey(v, ordered[i]) in links
    requires forall i, j :: 0 <= i < j < |ordered| ==> ordered[i] != ordered[j]
    ensures var now := OrderLinks(links, v, ordered, n);
            && (forall i :: 0 <= i < n ==> LinkKey(v, ordered[i]) in now
                                           && now[LinkKey(v, ordered[i])] == links[LinkKey(v, ordered[i])].(ordering := i))
            && (forall k :: k in links && (k.version != v || k.item !in ordered[..n]) ==> k in now && now[k] == links[k])
  {
    if n > 0 {
      OrderedAt(links, v, ordered, n - 1);
      var before, k := OrderLinks(links, v, ordered, n - 1), LinkKey(v, ordered[n - 1]);
      assert OrderLinks(links, v, ordered, n) == before[k := before[k].(ordering := n - 1)];
      hide OrderLinks;
      OneMoreOrdered(links, before, v, ordered, n);
    }
  }

  lemma OneMoreOrdered(links: map<LinkKey, Slot>, before: map<LinkKey, Slot>, v: Id, ordered: seq<Id>, n: nat)
    requires 0 < n <= |ordered| && forall i :: 0 <= i < n ==> LinkKey(v, ordered[i]) in links
    requires forall i, j :: 0 <= i < j < |ordered| ==> ordered[i] != ordered[j]
    requires forall i :: 0 <= i < n - 1 ==> LinkKey(v, ordered[i]) in before
                                            && before[LinkKey(v, ordered[i])] == links[LinkKey(v, ordered[i])].(ordering := i)
    requires forall k :: k in links && (k.version != v || k.item !in ordered[..n - 1]) ==> k in before && before[k] == links[k]
    ensures LinkKey(v, ordered[n - 1]) in before
    ensures var k := LinkKey(v, ordered[n - 1]); var now := before[k := before[k].(ordering := n - 1)];
            && (forall i :: 0 <= i < n ==> LinkKey(v, ordered[i]) in now
                                           && now[LinkKey(v, ordered[i])] == links[LinkKey(v, ordered[i])].(ordering := i))
            && (forall k :: k in links && (k.version != v || k.item !in ordered[..n]) ==> k in now && now[k] == links[k])
  {
    assert ordered[..n] == ordered[..n - 1] + [ordered[n - 1]];
    assert ordered[n - 1] !in ordered[..n - 1];
  }

  /** A reorder of a DRAFT version ends in exactly the requested order: item `i` of the request is at ordering `i`. */
  lemma ReorderAnswers(db: Db, v: Id, ordered: seq<Id>, expected: int, clock: int)
    ensures var (db', r) := PerformReorder(db, v, ordered, expected, clock);
            && (!r.Done? ==> db' == db)
            && if v >= |db.versions| then r == NotFound
               else
                 var ver := db.versions[v];
                 && (!ver.status.Draft? ==> r == VersionNotDraft)
                 && (ver.status.Draft? && !NamesEachOnce(db, v, ordered) ==> r == OrderInvalid)
                 && (ver.status.Draft? && NamesEachOnce(db, v, ordered) && ver.token != expected ==> r == EditConflict)
                 && (ver.status.Draft? && NamesEachOnce(db, v, ordered) && ver.token == expected ==>
                       && r == Done && db' == db.(versions := db'.versions, links := db'.links)
                       && VersionBecomes(db, db', v, ver, expected, clock)
                       && db'.links.Keys == db.links.Keys
                       && (forall i :: 0 <= i < |ordered| ==>
                             && LinkKey(v, ordered[i]) in db.links
                             && db'.links[LinkKey(v, ordered[i])] == Slot(i, db.links[LinkKey(v, ordered[i])].override))
                       && (forall k :: k in db.links && k.version != v ==> db'.links[k] == db.links[k])
                       && Lists(db'.links, v, ordered))
  {
    assert ExactOrder(db.links, v, ordered) <==> NamesEachOnce(db, v, ordered) by {
      assert forall i :: 0 <= i < |ordered| ==> ordered[i] in ordered;
    }
    if ExactOrder(db.links, v, ordered) {
      OrderedAt(db.links, v, ordered, |ordered|);
      hide NamesEachOnce;
      assert forall k :: k in db.links && k.version == v ==> k == LinkKey(v, k.item);
    }
    hide OrderLinks;
  }

  // ---- the lifecycle ----

  function ItemsOn(db: Db, v: Id, skill: Id): set<LinkKey> {
    set k | k in db.links && k.version == v && k.item in db.items && db.items[k.item].skill == skill
  }

  function SkillsOf(db: Db, v: Id): set<Id> {
    set k | k in db.links && k.version == v && k.item in db.items :: db.items[k.item].skill
  }

  function DifficultyIn(db: Db, k: LinkKey): int
    requires k in db.links && k.item in db.items
  {
    if db.links[k].override.Some? then db.links[k].override.value else db.items[k.item].difficulty
  }

  /** Fit to be published: its items are fit for learners, and there are enough of them for each skill but not too many skills. */
  ghost predicate GatePassed(db: Db, v: Id)
    requires v < |db.versions|
  {
    var ver := db.versions[v];
    && Sane(ver.config)
    && (exists k :: k in db.links && k.version == v && k.item in db.items)
    && (forall k :: k in db.links && k.version == v && k.item in db.items ==>
          && Writable(db, ver, db.items[k.item].payload, db.items[k.item].skill, DifficultyIn(db, k))
          && |ItemsOn(db, v, db.items[k.item].skill)| >= ver.config.itemsPerSkill)
    && |SkillsOf(db, v)| * ver.config.itemsPerSkill <= ver.config.maxItems
  }

  lemma RowsAre(db: Db, v: Id)
    requires v < |db.versions|
    ensures var rows := Rows(db.items, db.links, v);
            && (forall k :: k in rows <==> k in db.links && k.version == v && k.item in db.items)
            && (forall k :: k in rows ==> rows[k] == RowOf(db.links[k], db.items[k.item]))
            && Covered(rows) == SkillsOf(db, v) && forall s: Id :: CountFor(rows, s) == |ItemsOn(db, v, s)|
  {
    var rows := Rows(db.items, db.links, v);
    forall s: Id ensures CountFor(rows, s) == |ItemsOn(db, v, s)| {
      assert (set k | k in rows && rows[k].skill == s) == ItemsOn(db, v, s);
    }
    assert Covered(rows) == SkillsOf(db, v) by {
      forall s | s in SkillsOf(db, v) ensures s in Covered(rows) {
        var k :| k in db.links && k.version == v && k.item in db.items && db.items[k.item].skill == s;
        assert k in rows && rows[k].skill == s;
      }
    }
  }

  /** What the gate asks of one row is what an author may write. */
  lemma RowIsWritable(db: Db, v: Id, k: LinkKey)
    requires v < |db.versions| && db.versions[v].definition < |db.definitions|
    requires k in db.links && k.version == v && k.item in db.items
    ensures var ver := db.versions[v]; var row := RowOf(db.links[k], db.items[k.item]);
            Writable(db, ver, db.items[k.item].payload, db.items[k.item].skill, DifficultyIn(db, k)) <==>
              && Objective(row.payload) && PayloadOk(row.payload.value)
              && row.skill in ActiveSkills(db, db.definitions[ver.definition].subject) && InScale(ver.config, Effective(row))
  {
  }

  /** What the gate asks of every row. */
  ghost predicate RowsPass(db: Db, v: Id, active: set<Id>)
    requires v < |db.versions|
  {
    forall k :: k in db.links && k.version == v && k.item in db.items ==>
      var row := RowOf(db.links[k], db.items[k.item]);
      && Objective(row.payload) && PayloadOk(row.payload.value) && row.skill in active
      && InScale(db.versions[v].config, Effective(row))
  }

  lemma RowsAreWritable(db: Db, v: Id)
    requires v < |db.versions| && db.versions[v].definition < |db.definitions|
    ensures RowsPass(db, v, ActiveSkills(db, db.definitions[db.versions[v].definition].subject)) <==>
            forall k :: k in db.links && k.version == v && k.item in db.items ==>
              Writable(db, db.versions[v], db.items[k.item].payload, db.items[k.item].skill, DifficultyIn(db, k))
  {
    forall k | k in db.links && k.version == v && k.item in db.items
      ensures var ver := db.versions[v]; var row := RowOf(db.links[k], db.items[k.item]);
              Writable(db, ver, db.items[k.item].payload, db.items[k.item].skill, DifficultyIn(db, k)) <==>
                && Objective(row.payload) && PayloadOk(row.payload.value)
                && row.skill in ActiveSkills(db, db.definitions[ver.definition].subject) && InScale(ver.config, Effective(row))
    {
      RowIsWritable(db, v, k);
    }
    hide ActiveSkills, Writable, Objective, PayloadOk, InScale, Effective, DifficultyIn;
  }

  lemma ReadyOnRows(db: Db, v: Id, active: set<Id>)
    requires v < |db.versions|
    ensures var c := ContentOf(db, v); var config := db.versions[v].config;
            Ready(c, active) <==>
              && ConfigOk(config) && (exists k :: k in db.links && k.version == v && k.item in db.items)
              && RowsPass(db, v, active)
              && (forall s :: s in SkillsOf(db, v) ==> |ItemsOn(db, v, s)| >= config.itemsPerSkill)
              && |SkillsOf(db, v)| * config.itemsPerSkill <= config.maxItems
  {
    RowsAre(db, v);
    hide Rows, Covered, CountFor, ItemsOn, SkillsOf, ConfigOk, Objective, PayloadOk, InScale, Effective;
    var rows := Rows(db.items, db.links, v);
    if rows != map[] {
      var k :| k in rows;
    }
    assert (forall k :: k in rows ==>
              Objective(rows[k].payload) && PayloadOk(rows[k].payload.value)
              && rows[k].skill in active && InScale(db.versions[v].config, Effective(rows[k]))) <==> RowsPass(db, v, active);
  }

  lemma EverySkillIsOnAnItem(db: Db, v: Id, least: int)
    ensures (forall s :: s in SkillsOf(db, v) ==> |ItemsOn(db, v, s)| >= least) <==>
            forall k :: k in db.links && k.version == v && k.item in db.items ==> |ItemsOn(db, v, db.items[k.item].skill)| >= least
  {
    hide ItemsOn;
    if forall s :: s in SkillsOf(db, v) ==> |ItemsOn(db, v, s)| >= least {
      forall k | k in db.links && k.version == v && k.item in db.items
        ensures |ItemsOn(db, v, db.items[k.item].skill)| >= least
      {
        assert db.items[k.item].skill in SkillsOf(db, v);
      }
    }
  }

  /** The publish gate, on the rows. */
  lemma GateIsPassed(db: Db, v: Id)
    requires v < |db.versions| && db.versions[v].definition < |db.definitions|
    ensures VersionReady(db, v) <==> GatePassed(db, v)
  {
    var active := ActiveSkills(db, db.definitions[db.versions[v].definition].subject);
    ReadyOnRows(db, v, active);
    RowsAreWritable(db, v);
    EverySkillIsOnAnItem(db, v, db.versions[v].config.itemsPerSkill);
    assert ConfigOk(db.versions[v].config) == Sane(db.versions[v].config);
    hide Ready, ContentOf, RowsPass, ItemsOn, SkillsOf, ActiveSkills, ConfigOk, Sane, Writable, DifficultyIn;
  }

  /** What the learner runtime asks of the current version of a published definition. */
  ghost predicate Playable(db: Db, v: Id)
    requires v < |db.versions|
  {
    var config := db.versions[v].config;
    && Sane(config)
    && (exists k :: k in db.links && k.version == v && k.item in db.items)
    && (forall k :: k in db.links && k.version == v && k.item in db.items ==>
          && db.items[k.item].payload.Some? && !db.items[k.item].payload.value.format.OpenEnded?
          && 1 <= DifficultyIn(db, k) && config.minDifficulty <= DifficultyIn(db, k) && DifficultyIn(db, k) <= config.maxDifficulty)
    && |SkillsOf(db, v)| * config.itemsPerSkill <= config.maxItems
  }

  /** The runtime's conditions, on the rows. */
  lemma RuntimeAsksPlayable(db: Db, v: Id)
    requires v < |db.versions|
    ensures RuntimeReady(ContentOf(db, v)) <==> Playable(db, v)
  {
    RowsAre(db, v);
    assert ConfigOk(db.versions[v].config) == Sane(db.versions[v].config);
    hide Rows, Covered, SkillsOf, ConfigOk, Sane;
    var rows := Rows(db.items, db.links, v);
    assert forall k :: k in rows ==> Effective(rows[k]) == DifficultyIn(db, k);
    if RuntimeReady(ContentOf(db, v)) {
      var k :| k in rows;
    }
  }

  /** The items of this version turn from one status into another; every other item and every content stays. */
  predicate ItemsTurn(db: Db, db': Db, v: Id, from: Status, to: Status) {
    && db'.items.Keys == db.items.Keys
    && forall i :: i in db.items ==>
         db'.items[i] == if LinkKey(v, i) in db.links && db.items[i].status == from then db.items[i].(status := to) else db.items[i]
  }

  /** Submission of a DRAFT version fit for publication: the version and its items turn REVIEW. */
  lemma SubmitAnswers(db: Db, v: Id, expected: int, clock: int)
    requires Reachable(db)
    ensures var (db', r) := PerformSubmit(db, v, expected, clock);
            && (!r.Done? ==> db' == db)
            && if v >= |db.versions| then r == NotFound
               else
                 var ver := db.versions[v];
                 && (!ver.status.Draft? ==> r == VersionNotDraft)
                 && (ver.status.Draft? && !GatePassed(db, v) ==> r == NotReady)
                 && (ver.status.Draft? && GatePassed(db, v) && ver.token != expected ==> r == EditConflict)
                 && (ver.status.Draft? && GatePassed(db, v) && ver.token == expected ==>
                       && r == Done && db' == db.(versions := db'.versions, items := db'.items)
                       && VersionBecomes(db, db', v, ver.(status := Review), expected, clock)
                       && ItemsTurn(db, db', v, Draft, Review))
  {
    hide Reachable, VersionReady, GatePassed;
    if v < |db.versions| {
      DefinitionIsThere(db, v);
      GateIsPassed(db, v);
    }
  }

  /** The return of a version from review: the version and its items turn DRAFT. */
  lemma ReturnAnswers(db: Db, v: Id, expected: int, clock: int)
    ensures var (db', r) := PerformReturn(db, v, expected, clock);
            && (!r.Done? ==> db' == db)
            && if v >= |db.versions| then r == NotFound
               else
                 var ver := db.versions[v];
                 && (!ver.status.Review? ==> r == VersionNotInReview)
                 && (ver.status.Review? && ver.token != expected ==> r == EditConflict)
                 && (ver.status.Review? && ver.token == expected ==>
                       && r == Done && db' == db.(versions := db'.versions, items := db'.items)
                       && VersionBecomes(db, db', v, ver.(status := Draft), expected, clock)
                       && ItemsTurn(db, db', v, Review, Draft))
  {
  }

  /** Version `v` turns PUBLISHED and the version current before ARCHIVED, each under a later token; no other version changes. */
  predicate IsReplaced(db: Db, db': Db, v: Id, current: Option<Id>, expected: int, clock: int) {
    && v < |db.versions| == |db'.versions|
    && db'.versions[v] == db.versions[v].(status := Published, token := db'.versions[v].token)
    && db'.versions[v].token > expected && db'.versions[v].token >= clock
    && forall w :: 0 <= w < |db.versions| && w != v ==>
         if current == Some(w) then
           && db'.versions[w] == db.versions[w].(status := Archived, token := db'.versions[w].token)
           && db'.versions[w].token > db.versions[w].token && db'.versions[w].token >= clock
         else db'.versions[w] == db.versions[w]
  }

  lemma PublishReplacesCurrent(db: Db, v: Id, current: Option<Id>, expected: int, clock: int)
    requires v < |db.versions| && db.versions[v].status.Review?
    requires current.Some? ==> current.value < |db.versions| && db.versions[current.value].status.Published?
    ensures var archived := ArchivePrevious(db, current, v, clock);
            && |archived| == |db.versions|
            && IsReplaced(db, Step(db.(versions := archived), v, Review, Published, expected, clock), v, current, expected, clock)
  {
    hide Flip, NextToken;
  }

  /**
   The version is PUBLISHED with its items and the current one of its definition, which is published; the version it
   replaces is ARCHIVED, with its items as they were. No other version, item, link or definition changes, and no content.
   */
  predicate IsPublished(db: Db, db': Db, v: Id, expected: int, clock: int)
    requires v < |db.versions|
  {
    var d := db.versions[v].definition;
    && db' == db.(definitions := db'.definitions, versions := db'.versions, items := db'.items)
    && d < |db.definitions| == |db'.definitions|
    && db'.definitions[d] == Definition(db.definitions[d].subject, true, Some(v))
    && (forall e :: 0 <= e < |db.definitions| && e != d ==> db'.definitions[e] == db.definitions[e])
    && IsReplaced(db, db', v, db.definitions[d].current, expected, clock) && ItemsTurn(db, db', v, Review, Published)
  }

  lemma PublishWrites(db: Db, v: Id, expected: int, clock: int)
    requires Reachable(db) && PerformPublish(db, v, expected, clock).1.Done?
    ensures v < |db.versions| && IsPublished(db, PerformPublish(db, v, expected, clock).0, v, expected, clock)
  {
    hide Reachable, VersionReady, NextToken;
    CurrentIsSound(db, v);
    var d := db.versions[v].definition;
    PublishReplacesCurrent(db, v, db.definitions[d].current, expected, clock);
    hide ArchivePrevious;
  }

  /** Publication of a version in REVIEW that is fit for it. */
  lemma PublishAnswers(db: Db, v: Id, expected: int, clock: int)
    requires Reachable(db)
    ensures var (db', r) := PerformPublish(db, v, expected, clock);
            && (!r.Done? ==> db' == db)
            && if v >= |db.versions| then r == NotFound
               else
                 var ver := db.versions[v];
                 && (!ver.status.Review? ==> r == VersionNotInReview)
                 && (ver.status.Review? && ver.token != expected ==> r == EditConflict)
                 && (ver.status.Review? && ver.token == expected && !GatePassed(db, v) ==> r == NotReady)
                 && (ver.status.Review? && ver.token == expected && GatePassed(db, v) ==>
                       r == Done && IsPublished(db, db', v, expected, clock))
  {
    hide Reachable, VersionReady, GatePassed, NextToken, ArchivePrevious, IsPublished, Step;
    if v < |db.versions| {
      DefinitionIsThere(db, v);
      GateIsPassed(db, v);
      CurrentIsSound(db, v);
      if PerformPublish(db, v, expected, clock).1.Done? {
        PublishWrites(db, v, expected, clock);
      }
    }
  }

  /** In any state, a publication is refused over an incoherent current version exactly when that is elsewhere or missing. */
  lemma IncoherentIsRefused(db: Db, v: Id, expected: int, clock: int)
    requires v < |db.versions| && db.versions[v].definition < |db.definitions|
    requires db.versions[v].status.Review? && db.versions[v].token == expected && GatePassed(db, v)
    ensures var current := db.definitions[db.versions[v].definition].current;
            PerformPublish(db, v, expected, clock).1 == PointerIncoherent <==>
              && current.Some? && current.value != v
              && (current.value >= |db.versions| || db.versions[current.value].definition != db.versions[v].definition)
  {
    GateIsPassed(db, v);
    hide VersionReady, GatePassed;
  }

  lemma CurrentIsSound(db: Db, v: Id)
    requires Reachable(db) && v < |db.versions|
    ensures var d := db.versions[v].definition;
            && d < |db.definitions|
            && (db.definitions[d].current.Some? ==>
                  var p := db.definitions[d].current.value;
                  p < |db.versions| && db.versions[p].definition == d && db.versions[p].status.Published?)
  {
    ReachableInv(db);
    hide ItemsOk, FrozenReady, Numbered, OneEditable, OneDefinitionPerSubject, Reachable;
  }
}
