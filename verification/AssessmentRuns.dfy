/** Every run of the authoring transactions keeps the invariant, and freezes what was published. */
module AssessmentRuns {
  import opened Basics
  import opened OptimisticTokens
  import opened AssessmentModel
  import opened AssessmentInvariants

  /** What a transaction must show: the invariant, and that published content is untouched. */
  ghost predicate Keeps(db: Db, db': Db) { Inv(db') && KeepsFrozen(db, db') }

  lemma NothingChanges(db: Db)
    requires Inv(db)
    ensures Keeps(db, db)
  {
  }

  /** A change confined to one editable version. */
  lemma Confined(db: Db, db': Db, v: Id)
    requires Inv(db) && v < |db.versions| && Editable(db.versions[v].status)
    requires |db'.versions| == |db.versions| && !Frozen(db'.versions[v].status)
    requires forall w :: 0 <= w < |db.versions| && w != v ==>
               db'.versions[w] == db.versions[w] && Rows(db'.items, db'.links, w) == Rows(db.items, db.links, w)
    ensures KeepsFrozen(db, db') && FrozenReady(db')
  {
    hide Rows, RuntimeReady, VersionsOk, ItemsOk;
    assert forall w :: 0 <= w < |db.versions| && w != v ==> ContentOf(db', w) == ContentOf(db, w);
    hide ContentOf;
    assert KeepsFrozen(db, db');
    FrozenStaysReady(db, db');
  }

  // ---- versions ----

  lemma KeepNewDefinition(db: Db, subject: Id)
    requires Inv(db)
    ensures Keeps(db, Perform(db, NewDefinition(subject)).0)
  {
    hide Rows, RuntimeReady, ItemsOk, Numbered;
  }

  lemma KeepSkill(db: Db, skill: Id, row: Skill)
    requires Inv(db)
    ensures Keeps(db, Perform(db, SetSkill(skill, row)).0)
  {
    hide Rows, RuntimeReady, ItemsOk, VersionsOk;
    var db' := Perform(db, SetSkill(skill, row)).0;
    assert forall v :: 0 <= v < |db.versions| ==> ContentOf(db', v) == ContentOf(db, v);
  }

  /** A new DRAFT version changes no content, old rows being under other keys. */
  lemma AfterNewVersion(db: Db, db': Db, ver: Version)
    requires Inv(db) && db'.versions == db.versions + [ver] && ver.status.Draft?
    requires forall w :: 0 <= w < |db.versions| ==> Rows(db'.items, db'.links, w) == Rows(db.items, db.links, w)
    ensures KeepsFrozen(db, db') && FrozenReady(db')
  {
    hide Rows, RuntimeReady, VersionsOk, ItemsOk;
    assert forall w :: 0 <= w < |db.versions| ==> ContentOf(db', w) == ContentOf(db, w);
    hide ContentOf;
    forall v | 0 <= v < |db'.versions| && Frozen(db'.versions[v].status) ensures RuntimeReady(ContentOf(db', v)) {
      assert Frozen(db.versions[v].status);
    }
  }

  lemma KeepBlank(db: Db, d: Id, token: int)
    requires Inv(db)
    ensures Keeps(db, Perform(db, CreateBlank(d, token)).0)
  {
    NothingChanges(db);
    if d < |db.definitions| && !HasEditable(db.versions, d) {
      var ver := NewVersion(db, d, DEFAULT_CONFIG, token);
      var db' := Perform(db, CreateBlank(d, token)).0;
      VersionsAfterNew(db.definitions, db.versions, ver);
      ItemsAfterNewVersion(db.versions, db.items, db.links, ver);
      hide VersionsOk, ItemsOk, FrozenReady, KeepsFrozen, Rows;
      AfterNewVersion(db, db', ver);
    }
  }

  lemma KeepConfig(db: Db, v: Id, edits: Edits, expected: int, clock: int)
    requires Inv(db)
    ensures Keeps(db, PerformConfig(db, v, edits, expected, clock).0)
  {
    NothingChanges(db);
    var r := PerformConfig(db, v, edits, expected, clock);
    if r.1.Done? {
      VersionsAfterEdit(db.definitions, db.versions, v, r.0.versions[v]);
      ItemsAfterSameStatus(db.versions, db.items, db.links, v, r.0.versions[v]);
      hide VersionsOk, ItemsOk, FrozenReady, KeepsFrozen, Rows;
      Confined(db, r.0, v);
    }
  }

  // ---- items ----

  lemma RowsAfterCreate(db: Db, v: Id, i: Id, item: Item, slot: Slot, w: Id)
    requires ItemsOk(db.versions, db.items, db.links) && i !in db.items && w != v
    ensures Rows(db.items[i := item], db.links[LinkKey(v, i) := slot], w) == Rows(db.items, db.links, w)
  {
    SameRows(db.items, db.links, db.items[i := item], db.links[LinkKey(v, i) := slot], w);
  }

  /** A successful item creation adds one item and its link to one DRAFT version. */
  lemma CreateShape(db: Db, v: Id, i: Id, payload: Option<Payload>, skill: Id, difficulty: int, token: int, expected: int, clock: int)
    requires PerformCreateItem(db, v, i, payload, skill, difficulty, token, expected, clock).1.Done?
    ensures var r := PerformCreateItem(db, v, i, payload, skill, difficulty, token, expected, clock).0;
            && v < |db.versions| && db.versions[v].status.Draft? && i !in db.items
            && i in r.items && r.items[i].status.Draft? && LinkKey(v, i) in r.links
            && r.definitions == db.definitions
            && r.versions == db.versions[v := db.versions[v].(token := NextToken(expected, clock))]
            && r.items == db.items[i := r.items[i]] && r.links == db.links[LinkKey(v, i) := r.links[LinkKey(v, i)]]
  {
    hide LinksOf, Owners, SkillActive, Buildable, ConfigOk, InScale, NextToken;
  }

  lemma RefusedCreate(db: Db, v: Id, i: Id, payload: Option<Payload>, skill: Id, difficulty: int, token: int, expected: int, clock: int)
    requires !PerformCreateItem(db, v, i, payload, skill, difficulty, token, expected, clock).1.Done?
    ensures PerformCreateItem(db, v, i, payload, skill, difficulty, token, expected, clock).0 == db
  {
    hide LinksOf, Owners, SkillActive, Buildable, ConfigOk, InScale, NextToken;
  }

  lemma AfterCreate(db: Db, db': Db, v: Id, i: Id, item: Item, slot: Slot, ver: Version)
    requires Inv(db) && v < |db.versions| && db.versions[v].status.Draft? && i !in db.items && item.status.Draft?
    requires ver.definition == db.versions[v].definition && ver.versionNo == db.versions[v].versionNo && ver.status.Draft?
    requires db'.definitions == db.definitions && db'.versions == db.versions[v := ver]
    requires db'.items == db.items[i := item] && db'.links == db.links[LinkKey(v, i) := slot]
    ensures Keeps(db, db')
  {
    hide VersionsOk, ItemsOk, FrozenReady, KeepsFrozen, Rows;
    VersionsAfterEdit(db.definitions, db.versions, v, ver);
    ItemsAfterSameStatus(db.versions, db.items, db.links, v, ver);
    ItemsAfterCreate(db'.versions, db.items, db.links, v, i, item, slot);
    forall w | 0 <= w < |db.versions| && w != v ensures Rows(db'.items, db'.links, w) == Rows(db.items, db.links, w) {
      RowsAfterCreate(db, v, i, item, slot, w);
    }
    Confined(db, db', v);
  }

  lemma KeepCreateItem(db: Db, v: Id, i: Id, payload: Option<Payload>, skill: Id, difficulty: int, token: int, expected: int, clock: int)
    requires Inv(db)
    ensures Keeps(db, PerformCreateItem(db, v, i, payload, skill, difficulty, token, expected, clock).0)
  {
    NothingChanges(db);
    hide PerformCreateItem, Keeps, Inv;
    var r := PerformCreateItem(db, v, i, payload, skill, difficulty, token, expected, clock);
    if r.1.Done? {
      CreateShape(db, v, i, payload, skill, difficulty, token, expected, clock);
      AfterCreate(db, r.0, v, i, r.0.items[i], r.0.links[LinkKey(v, i)], r.0.versions[v]);
    } else {
      RefusedCreate(db, v, i, payload, skill, difficulty, token, expected, clock);
    }
  }

  /** The links of an item whose only owner is `v` are under `v`. */
  lemma OwnedBy(db: Db, i: Id, v: Id)
    requires Owners(db, i) == {v}
    ensures forall k :: k in db.links && k.item == i ==> k.version == v
    ensures LinkKey(v, i) in db.links
  {
    forall k | k in db.links && k.item == i ensures k.version == v {
      assert k.version in Owners(db, i);
    }
    assert v in Owners(db, i);
  }

  /** A successful item update changes one item of one DRAFT version. */
  lemma UpdateShape(db: Db, i: Id, payload: Option<Payload>, skill: Id, difficulty: int, expected: int, clock: int)
    requires PerformUpdateItem(db, i, payload, skill, difficulty, expected, clock).1.Done?
    ensures var r := PerformUpdateItem(db, i, payload, skill, difficulty, expected, clock).0;
            && EditableOwner(db, i).Some? && i in db.items
            && var v := EditableOwner(db, i).value;
            && v < |db.versions| && Owners(db, i) == {v} && db.versions[v].status.Draft?
            && r.definitions == db.definitions && r.links == db.links && r.versions == db.versions[v := Bumped(db.versions[v], clock)]
            && i in r.items && r.items == db.items[i := r.items[i]] && r.items[i].status == db.items[i].status
  {
    hide SkillActive, Buildable, ConfigOk, InScale, Owners;
  }

  lemma RefusedUpdate(db: Db, i: Id, payload: Option<Payload>, skill: Id, difficulty: int, expected: int, clock: int)
    requires !PerformUpdateItem(db, i, payload, skill, difficulty, expected, clock).1.Done?
    ensures PerformUpdateItem(db, i, payload, skill, difficulty, expected, clock).0 == db
  {
    hide SkillActive, Buildable, ConfigOk, InScale, Owners;
  }

  lemma RowsAfterUpdate(db: Db, v: Id, i: Id, item: Item, w: Id)
    requires ItemsOk(db.versions, db.items, db.links) && i in db.items && Owners(db, i) == {v} && w != v
    ensures Rows(db.items[i := item], db.links, w) == Rows(db.items, db.links, w)
  {
    OwnedBy(db, i, v);
    SameRows(db.items, db.links, db.items[i := item], db.links, w);
  }

  lemma AfterUpdate(db: Db, db': Db, v: Id, i: Id, item: Item, clock: int)
    requires Inv(db) && v < |db.versions| && db.versions[v].status.Draft? && Owners(db, i) == {v} && i in db.items
    requires item.status == db.items[i].status && db'.definitions == db.definitions && db'.links == db.links
    requires db'.versions == db.versions[v := Bumped(db.versions[v], clock)] && db'.items == db.items[i := item]
    ensures Keeps(db, db')
  {
    hide VersionsOk, ItemsOk, FrozenReady, KeepsFrozen, Rows, Owners;
    var ver := Bumped(db.versions[v], clock);
    VersionsAfterEdit(db.definitions, db.versions, v, ver);
    ItemsAfterSameStatus(db.versions, db.items, db.links, v, ver);
    ItemsAfterRow(db'.versions, db.items, db.links, i, item);
    forall w | 0 <= w < |db.versions| && w != v ensures Rows(db'.items, db'.links, w) == Rows(db.items, db.links, w) {
      RowsAfterUpdate(db, v, i, item, w);
    }
    Confined(db, db', v);
  }

  lemma KeepUpdateItem(db: Db, i: Id, payload: Option<Payload>, skill: Id, difficulty: int, expected: int, clock: int)
    requires Inv(db)
    ensures Keeps(db, PerformUpdateItem(db, i, payload, skill, difficulty, expected, clock).0)
  {
    NothingChanges(db);
    hide PerformUpdateItem, Keeps, Inv, Owners, EditableOwner;
    var r := PerformUpdateItem(db, i, payload, skill, difficulty, expected, clock);
    if r.1.Done? {
      UpdateShape(db, i, payload, skill, difficulty, expected, clock);
      AfterUpdate(db, r.0, EditableOwner(db, i).value, i, r.0.items[i], clock);
    } else {
      RefusedUpdate(db, i, payload, skill, difficulty, expected, clock);
    }
  }

  lemma ItemsAfterRow(versions: seq<Version>, items: map<Id, Item>, links: map<LinkKey, Slot>, i: Id, item: Item)
    requires ItemsOk(versions, items, links) && i in items && item.status == items[i].status
    ensures ItemsOk(versions, items[i := item], links)
  {
  }

  lemma DeleteShape(db: Db, i: Id, expected: int, clock: int)
    requires PerformDeleteItem(db, i, expected, clock).1.Done?
    ensures var r := PerformDeleteItem(db, i, expected, clock).0;
            && EditableOwner(db, i).Some?
            && var v := EditableOwner(db, i).value;
            && v < |db.versions| && Owners(db, i) == {v} && db.versions[v].status.Draft?
            && r.definitions == db.definitions && r.links == WithoutItem(db.links, i) && r.items == db.items - {i}
            && r.versions == db.versions[v := Bumped(db.versions[v], clock)]
  {
    hide Owners, WithoutItem;
  }

  lemma RefusedDelete(db: Db, i: Id, expected: int, clock: int)
    requires !PerformDeleteItem(db, i, expected, clock).1.Done?
    ensures PerformDeleteItem(db, i, expected, clock).0 == db
  {
    hide Owners, WithoutItem;
  }

  lemma RowsAfterDelete(db: Db, v: Id, i: Id, w: Id)
    requires ItemsOk(db.versions, db.items, db.links) && Owners(db, i) == {v} && w != v
    ensures Rows(db.items - {i}, WithoutItem(db.links, i), w) == Rows(db.items, db.links, w)
  {
    OwnedBy(db, i, v);
    SameRows(db.items, db.links, db.items - {i}, WithoutItem(db.links, i), w);
  }

  lemma AfterDelete(db: Db, db': Db, v: Id, i: Id, clock: int)
    requires Inv(db) && v < |db.versions| && db.versions[v].status.Draft? && Owners(db, i) == {v}
    requires db'.definitions == db.definitions && db'.versions == db.versions[v := Bumped(db.versions[v], clock)]
    requires db'.items == db.items - {i} && db'.links == WithoutItem(db.links, i)
    ensures Keeps(db, db')
  {
    hide VersionsOk, ItemsOk, FrozenReady, KeepsFrozen, Rows, Owners, WithoutItem;
    var ver := Bumped(db.versions[v], clock);
    VersionsAfterEdit(db.definitions, db.versions, v, ver);
    ItemsAfterSameStatus(db.versions, db.items, db.links, v, ver);
    ItemsAfterDelete(db'.versions, db.items, db.links, i);
    forall w | 0 <= w < |db.versions| && w != v ensures Rows(db'.items, db'.links, w) == Rows(db.items, db.links, w) {
      RowsAfterDelete(db, v, i, w);
    }
    Confined(db, db', v);
  }

  lemma KeepDeleteItem(db: Db, i: Id, expected: int, clock: int)
    requires Inv(db)
    ensures Keeps(db, PerformDeleteItem(db, i, expected, clock).0)
  {
    NothingChanges(db);
    hide PerformDeleteItem, Keeps, Inv, Owners, EditableOwner, WithoutItem;
    var r := PerformDeleteItem(db, i, expected, clock);
    if r.1.Done? {
      DeleteShape(db, i, expected, clock);
      AfterDelete(db, r.0, EditableOwner(db, i).value, i, clock);
    } else {
      RefusedDelete(db, i, expected, clock);
    }
  }

  lemma {:induction false} OrderLinksOther(links: map<LinkKey, Slot>, v: Id, ordered: seq<Id>, n: nat)
    requires n <= |ordered| && forall i :: 0 <= i < n ==> LinkKey(v, ordered[i]) in links
    ensures forall k :: k in links && k.version != v ==> OrderLinks(links, v, ordered, n)[k] == links[k]
  {
    if n > 0 {
      OrderLinksOther(links, v, ordered, n - 1);
    }
  }

  lemma KeepReorder(db: Db, v: Id, ordered: seq<Id>, expected: int, clock: int)
    requires Inv(db)
    ensures Keeps(db, PerformReorder(db, v, ordered, expected, clock).0)
  {
    NothingChanges(db);
    var r := PerformReorder(db, v, ordered, expected, clock);
    if r.1.Done? {
      OrderLinksOther(db.links, v, ordered, |ordered|);
      assert r.0.links.Keys == db.links.Keys;
      hide ExactOrder, OrderLinks;
      VersionsAfterEdit(db.definitions, db.versions, v, r.0.versions[v]);
      ItemsAfterSameStatus(db.versions, db.items, db.links, v, r.0.versions[v]);
      ItemsAfterOrder(r.0.versions, db.items, db.links, r.0.links);
      forall w | 0 <= w < |db.versions| && w != v ensures Rows(r.0.items, r.0.links, w) == Rows(db.items, db.links, w) {
        assert forall k :: k in r.0.links <==> k in db.links;
        SameRows(db.items, db.links, r.0.items, r.0.links, w);
      }
      hide VersionsOk, ItemsOk, FrozenReady, KeepsFrozen, Rows;
      Confined(db, r.0, v);
    }
  }

  // ---- lifecycle ----

  lemma RowsAfterFlip(items: map<Id, Item>, links: map<LinkKey, Slot>, v: Id, from: Status, to: Status, w: Id)
    ensures Rows(Flip(items, links, v, from, to), links, w) == Rows(items, links, w)
  {
    SameRows(items, links, Flip(items, links, v, from, to), links, w);
  }

  lemma KeepStep(db: Db, v: Id, from: Status, to: Status, expected: int, clock: int)
    requires Inv(db) && v < |db.versions| && db.versions[v].status == from && Editable(from) && Editable(to)
    ensures Keeps(db, Step(db, v, from, to, expected, clock))
  {
    var db' := Step(db, v, from, to, expected, clock);
    VersionsAfterEdit(db.definitions, db.versions, v, db'.versions[v]);
    ItemsAfterStep(db.versions, db.items, db.links, v, db'.versions[v], from, to);
    forall w | 0 <= w < |db.versions| && w != v ensures Rows(db'.items, db'.links, w) == Rows(db.items, db.links, w) {
      RowsAfterFlip(db.items, db.links, v, from, to, w);
    }
    hide VersionsOk, ItemsOk, FrozenReady, KeepsFrozen, Rows, Flip;
    Confined(db, db', v);
  }

  lemma KeepSubmit(db: Db, v: Id, expected: int, clock: int)
    requires Inv(db)
    ensures Keeps(db, PerformSubmit(db, v, expected, clock).0)
  {
    NothingChanges(db);
    hide Inv, KeepsFrozen, VersionReady, Step;
    if PerformSubmit(db, v, expected, clock).1.Done? {
      KeepStep(db, v, Draft, Review, expected, clock);
    }
  }

  lemma KeepReturn(db: Db, v: Id, expected: int, clock: int)
    requires Inv(db)
    ensures Keeps(db, PerformReturn(db, v, expected, clock).0)
  {
    NothingChanges(db);
    hide Inv, KeepsFrozen, Step;
    if PerformReturn(db, v, expected, clock).1.Done? {
      KeepStep(db, v, Review, Draft, expected, clock);
    }
  }

  lemma ItemsAfterPublish(db: Db, after: seq<Version>, v: Id)
    requires ItemsOk(db.versions, db.items, db.links) && v < |db.versions| && db.versions[v].status.Review?
    requires Replaces(db.versions, after, v)
    ensures ItemsOk(after, Flip(db.items, db.links, v, Review, Published), db.links)
  {
    var items' := Flip(db.items, db.links, v, Review, Published);
    forall k | k in db.links ensures k.item in items' && items'[k.item].status == ItemStatus(after[k.version].status) {
      LinkAfterPublish(db, after, v, k);
    }
    hide Flip, Replaces;
    assert items'.Keys == db.items.Keys by {
      FlipKeys(db.items, db.links, v, Review, Published);
    }
  }

  lemma FlipKeys(items: map<Id, Item>, links: map<LinkKey, Slot>, v: Id, from: Status, to: Status)
    ensures Flip(items, links, v, from, to).Keys == items.Keys
  {
  }

  lemma LinkAfterPublish(db: Db, after: seq<Version>, v: Id, k: LinkKey)
    requires ItemsOk(db.versions, db.items, db.links) && v < |db.versions| && db.versions[v].status.Review?
    requires Replaces(db.versions, after, v) && k in db.links
    ensures k.version < |after|
    ensures var items' := Flip(db.items, db.links, v, Review, Published);
            k.item in items' && items'[k.item].status == ItemStatus(after[k.version].status)
  {
    if LinkKey(v, k.item) in db.links {
      assert k == LinkKey(v, k.item);
    }
  }

  lemma PublishIsAfterPublish(db: Db, v: Id, expected: int, clock: int)
    requires PerformPublish(db, v, expected, clock).1.Done?
    ensures var r := PerformPublish(db, v, expected, clock).0; var d := db.versions[v].definition;
            && r.versions == AfterPublish(db, v, expected, clock) && r.links == db.links
            && r.items == Flip(db.items, db.links, v, Review, Published)
            && r.definitions == db.definitions[d := db.definitions[d].(published := true, current := Some(v))]
            && db.versions[v].status.Review?
            && RuntimeReady(ContentOf(db, v))
  {
    GateImpliesRuntime(ContentOf(db, v), ActiveSkills(db, db.definitions[db.versions[v].definition].subject));
    hide Ready, RuntimeReady, ContentOf, ActiveSkills;
  }

  lemma KeepPublish(db: Db, v: Id, expected: int, clock: int)
    requires Inv(db)
    ensures Keeps(db, PerformPublish(db, v, expected, clock).0)
  {
    NothingChanges(db);
    hide PerformPublish;
    var r := PerformPublish(db, v, expected, clock);
    if r.1.Done? {
      PublishIsAfterPublish(db, v, expected, clock);
      PublishReplaces(db, v, expected, clock);
      VersionsAfterPublish(db, v, expected, clock);
      ItemsAfterPublish(db, r.0.versions, v);
      PublishFreezes(db, r.0, v);
      hide VersionsOk, ItemsOk, FrozenReady, KeepsFrozen, AfterPublish, Flip, RuntimeReady, ContentOf, Replaces;
    } else {
      RefusedPublish(db, v, expected, clock);
    }
  }

  lemma RefusedPublish(db: Db, v: Id, expected: int, clock: int)
    requires !PerformPublish(db, v, expected, clock).1.Done?
    ensures PerformPublish(db, v, expected, clock).0 == db
  {
  }

  lemma PublishFreezes(db: Db, db': Db, v: Id)
    requires FrozenReady(db) && v < |db.versions| && db.versions[v].status.Review? && RuntimeReady(ContentOf(db, v))
    requires Replaces(db.versions, db'.versions, v)
    requires db'.links == db.links && db'.items == Flip(db.items, db.links, v, Review, Published)
    ensures KeepsFrozen(db, db') && FrozenReady(db')
  {
    forall w | 0 <= w < |db.versions| ensures ContentOf(db', w) == ContentOf(db, w) {
      RowsAfterFlip(db.items, db.links, v, Review, Published, w);
    }
    hide ContentOf, RuntimeReady, Flip;
    forall w | 0 <= w < |db'.versions| && Frozen(db'.versions[w].status) ensures RuntimeReady(ContentOf(db', w)) {
      assert w == v || Frozen(db.versions[w].status);
    }
  }

  // ---- clone ----

  lemma {:induction false} ClonedItems(db: Db, token: int, sources: seq<Id>, copies: seq<Id>, n: nat)
    requires FreshFor(db, sources, copies) && n <= |sources|
    ensures var items := CloneItems(db, token, sources, copies, n);
            && (forall i :: i in db.items ==> i in items && items[i] == db.items[i])
            && (forall i :: i in items && i !in db.items ==> exists j :: 0 <= j < n && copies[j] == i)
            && (forall j :: 0 <= j < n ==> copies[j] in items
                                           && items[copies[j]] == db.items[sources[j]].(status := Draft, token := token))
  {
    if n > 0 {
      ClonedItems(db, token, sources, copies, n - 1);
      var before, items := CloneItems(db, token, sources, copies, n - 1), CloneItems(db, token, sources, copies, n);
      var i := copies[n - 1];
      assert i !in db.items && forall j :: 0 <= j < n - 1 ==> copies[j] != i;
      assert items == before[i := db.items[sources[n - 1]].(status := Draft, token := token)];
      hide FreshFor, CloneItems;
    }
  }

  lemma {:induction false} ClonedLinks(db: Db, from: Id, to: Id, sources: seq<Id>, copies: seq<Id>, n: nat)
    requires FreshFor(db, sources, copies) && n <= |sources| && forall i :: 0 <= i < n ==> LinkKey(from, sources[i]) in db.links
    ensures var links := CloneLinks(db, from, to, sources, copies, n);
            && (forall k :: k in db.links ==> k in links && links[k] == db.links[k])
            && (forall k :: k in links && k !in db.links ==> exists j :: 0 <= j < n && k == LinkKey(to, copies[j]))
            && (forall j :: 0 <= j < n ==> LinkKey(to, copies[j]) in links
                                           && links[LinkKey(to, copies[j])] == Slot(j, db.links[LinkKey(from, sources[j])].override))
  {
    if n > 0 {
      ClonedLinks(db, from, to, sources, copies, n - 1);
      var before, links := CloneLinks(db, from, to, sources, copies, n - 1), CloneLinks(db, from, to, sources, copies, n);
      var k := LinkKey(to, copies[n - 1]);
      assert k !in db.links && forall j :: 0 <= j < n - 1 ==> LinkKey(to, copies[j]) != k;
      assert links == before[k := Slot(n - 1, db.links[LinkKey(from, sources[n - 1])].override)];
      hide FreshFor, CloneLinks;
      OneMoreLink(db.links, before, from, to, sources, copies, n);
    }
  }

  lemma OneMoreLink(was: map<LinkKey, Slot>, before: map<LinkKey, Slot>, from: Id, to: Id, sources: seq<Id>, copies: seq<Id>, n: nat)
    requires 0 < n <= |sources| && n <= |copies| && forall i :: 0 <= i < n ==> LinkKey(from, sources[i]) in was
    requires LinkKey(to, copies[n - 1]) !in was && forall j :: 0 <= j < n - 1 ==> LinkKey(to, copies[j]) != LinkKey(to, copies[n - 1])
    requires forall k :: k in was ==> k in before && before[k] == was[k]
    requires forall k :: k in before && k !in was ==> exists j :: 0 <= j < n - 1 && k == LinkKey(to, copies[j])
    requires forall j :: 0 <= j < n - 1 ==> LinkKey(to, copies[j]) in before
                                            && before[LinkKey(to, copies[j])] == Slot(j, was[LinkKey(from, sources[j])].override)
    ensures var links := before[LinkKey(to, copies[n - 1]) := Slot(n - 1, was[LinkKey(from, sources[n - 1])].override)];
            && (forall k :: k in was ==> k in links && links[k] == was[k])
            && (forall k :: k in links && k !in was ==> exists j :: 0 <= j < n && k == LinkKey(to, copies[j]))
            && (forall j :: 0 <= j < n ==> LinkKey(to, copies[j]) in links
                                           && links[LinkKey(to, copies[j])] == Slot(j, was[LinkKey(from, sources[j])].override))
  {
  }

  /** The clone of version `from` in `db'`: the listed rows under new ids, renumbered, with the same content. */
  ghost predicate Cloned(db: Db, db': Db, from: Id, to: Id, sources: seq<Id>, copies: seq<Id>) {
    && FreshFor(db, sources, copies) && (forall i :: 0 <= i < |sources| ==> LinkKey(from, sources[i]) in db.links)
    && (forall i :: i in db.items ==> i in db'.items && db'.items[i] == db.items[i])
    && (forall i :: i in db'.items && i !in db.items ==> exists j :: 0 <= j < |copies| && copies[j] == i)
    && (forall j :: 0 <= j < |copies| ==> copies[j] in db'.items && db'.items[copies[j]].status.Draft?
                                          && SameContent(db'.items[copies[j]], db.items[sources[j]]))
    && (forall k :: k in db.links ==> k in db'.links && db'.links[k] == db.links[k])
    && (forall k :: k in db'.links && k !in db.links ==> exists j :: 0 <= j < |copies| && k == LinkKey(to, copies[j]))
    && (forall j :: 0 <= j < |copies| ==> LinkKey(to, copies[j]) in db'.links
                                          && db'.links[LinkKey(to, copies[j])] == Slot(j, db.links[LinkKey(from, sources[j])].override))
  }

  lemma CloneShape(db: Db, d: Id, token: int, sources: seq<Id>, copies: seq<Id>)
    requires d < |db.definitions| && !HasEditable(db.versions, d) && PerformClone(db, d, token, sources, copies).1.Done?
    ensures var r := PerformClone(db, d, token, sources, copies).0; var current := db.definitions[d].current;
            && current.Some? && current.value < |db.versions| && Lists(db.links, current.value, sources)
            && FreshFor(db, sources, copies)
            && (forall i :: 0 <= i < |sources| ==> LinkKey(current.value, sources[i]) in db.links)
            && r.versions == db.versions + [NewVersion(db, d, db.versions[current.value].config, token)]
            && r.definitions == db.definitions
            && r.items == CloneItems(db, token, sources, copies, |sources|)
            && r.links == CloneLinks(db, current.value, |db.versions|, sources, copies, |sources|)
  {
    hide CloneItems, CloneLinks, NewVersion, ConfigOk, HasEditable, FreshFor;
    assert forall i :: 0 <= i < |sources| ==> sources[i] in sources;
  }

  lemma CloneIsCloned(db: Db, db': Db, token: int, from: Id, sources: seq<Id>, copies: seq<Id>)
    requires FreshFor(db, sources, copies) && forall i :: 0 <= i < |sources| ==> LinkKey(from, sources[i]) in db.links
    requires db'.items == CloneItems(db, token, sources, copies, |sources|)
    requires db'.links == CloneLinks(db, from, |db.versions|, sources, copies, |sources|)
    ensures Cloned(db, db', from, |db.versions|, sources, copies)
  {
    ClonedItems(db, token, sources, copies, |sources|);
    ClonedLinks(db, from, |db.versions|, sources, copies, |sources|);
    assert |copies| == |sources|;
    hide CloneItems, CloneLinks, FreshFor;
  }

  lemma ItemsLinkedAfterClone(db: Db, db': Db, from: Id, sources: seq<Id>, copies: seq<Id>, i: Id)
    requires ItemsOk(db.versions, db.items, db.links) && Cloned(db, db', from, |db.versions|, sources, copies) && i in db'.items
    ensures exists v :: LinkKey(v, i) in db'.links
  {
    if i in db.items {
      var v :| LinkKey(v, i) in db.links;
      assert LinkKey(v, i) in db'.links;
    } else {
      var j :| 0 <= j < |copies| && copies[j] == i;
      assert LinkKey(|db.versions|, copies[j]) in db'.links;
    }
  }

  lemma LinksAfterClone(db: Db, db': Db, from: Id, ver: Version, sources: seq<Id>, copies: seq<Id>, k: LinkKey)
    requires ItemsOk(db.versions, db.items, db.links) && ver.status.Draft?
    requires db'.versions == db.versions + [ver] && Cloned(db, db', from, |db.versions|, sources, copies) && k in db'.links
    ensures k.version < |db'.versions| && k.item in db'.items
    ensures db'.items[k.item].status == ItemStatus(db'.versions[k.version].status)
    ensures k !in db.links ==> k.item !in db.items && k.version == |db.versions|
  {
    if k !in db.links {
      var j :| 0 <= j < |copies| && k == LinkKey(|db.versions|, copies[j]);
    }
  }

  lemma ItemsAfterClone(db: Db, db': Db, from: Id, ver: Version, sources: seq<Id>, copies: seq<Id>)
    requires ItemsOk(db.versions, db.items, db.links) && ver.status.Draft?
    requires db'.versions == db.versions + [ver] && Cloned(db, db', from, |db.versions|, sources, copies)
    ensures ItemsOk(db'.versions, db'.items, db'.links)
  {
    hide Cloned;
    forall i | i in db'.items ensures exists v :: LinkKey(v, i) in db'.links {
      ItemsLinkedAfterClone(db, db', from, sources, copies, i);
    }
    forall k | k in db'.links
      ensures k.version < |db'.versions| && k.item in db'.items
              && db'.items[k.item].status == ItemStatus(db'.versions[k.version].status)
    {
      LinksAfterClone(db, db', from, ver, sources, copies, k);
    }
    forall k, l | k in db'.links && l in db'.links && k.item == l.item ensures k == l {
      LinksAfterClone(db, db', from, ver, sources, copies, k);
      LinksAfterClone(db, db', from, ver, sources, copies, l);
    }
  }

  lemma RowsAfterClone(db: Db, db': Db, from: Id, sources: seq<Id>, copies: seq<Id>, w: Id)
    requires Cloned(db, db', from, |db.versions|, sources, copies) && w < |db.versions|
    requires ItemsOk(db.versions, db.items, db.links)
    ensures Rows(db'.items, db'.links, w) == Rows(db.items, db.links, w)
  {
    SameRows(db.items, db.links, db'.items, db'.links, w);
  }

  lemma AfterClone(db: Db, db': Db, from: Id, ver: Version, sources: seq<Id>, copies: seq<Id>)
    requires Inv(db) && Cloned(db, db', from, |db.versions|, sources, copies)
    requires ver.definition < |db.definitions| && !HasEditable(db.versions, ver.definition) && ver.status.Draft?
    requires ver.versionNo == MaxVersionNo(db.versions, ver.definition) + 1
    requires db'.definitions == db.definitions && db'.versions == db.versions + [ver]
    ensures Keeps(db, db')
  {
    hide Cloned, VersionsOk, ItemsOk, FrozenReady, KeepsFrozen, Rows, HasEditable, MaxVersionNo;
    VersionsAfterNew(db.definitions, db.versions, ver);
    ItemsAfterClone(db, db', from, ver, sources, copies);
    forall w | 0 <= w < |db.versions| ensures Rows(db'.items, db'.links, w) == Rows(db.items, db.links, w) {
      RowsAfterClone(db, db', from, sources, copies, w);
    }
    AfterNewVersion(db, db', ver);
  }

  lemma KeepClone(db: Db, d: Id, token: int, sources: seq<Id>, copies: seq<Id>)
    requires Inv(db)
    ensures Keeps(db, Perform(db, CloneCurrent(d, token, sources, copies)).0)
  {
    NothingChanges(db);
    hide PerformClone, Keeps, Inv, Cloned, HasEditable, MaxVersionNo, CloneItems, CloneLinks, FreshFor, Lists;
    if d < |db.definitions| && !HasEditable(db.versions, d) {
      var r := PerformClone(db, d, token, sources, copies);
      if r.1.Done? {
        CloneShape(db, d, token, sources, copies);
        var from := db.definitions[d].current.value;
        CloneIsCloned(db, r.0, token, from, sources, copies);
        AfterClone(db, r.0, from, NewVersion(db, d, db.versions[from].config, token), sources, copies);
      } else {
        RefusedClone(db, d, token, sources, copies);
      }
    }
  }

  lemma RefusedClone(db: Db, d: Id, token: int, sources: seq<Id>, copies: seq<Id>)
    requires d < |db.definitions| && !HasEditable(db.versions, d) && !PerformClone(db, d, token, sources, copies).1.Done?
    ensures PerformClone(db, d, token, sources, copies).0 == db
  {
  }

  // ---- runs ----

  lemma Keep(db: Db, op: Op)
    requires Inv(db)
    ensures Keeps(db, Perform(db, op).0)
  {
    hide Inv, KeepsFrozen, HasEditable, PerformClone, PerformConfig, PerformCreateItem, PerformUpdateItem, PerformDeleteItem,
      PerformReorder, PerformSubmit, PerformReturn, PerformPublish;
    match op
    case NewDefinition(subject) => KeepNewDefinition(db, subject);
    case CreateBlank(d, token) => KeepBlank(db, d, token);
    case CloneCurrent(d, token, sources, copies) => KeepClone(db, d, token, sources, copies);
    case UpdateConfig(v, edits, expected, clock) => KeepConfig(db, v, edits, expected, clock);
    case CreateItem(v, item, payload, skill, difficulty, token, expected, clock) =>
      KeepCreateItem(db, v, item, payload, skill, difficulty, token, expected, clock);
    case UpdateItem(item, payload, skill, difficulty, expected, clock) =>
      KeepUpdateItem(db, item, payload, skill, difficulty, expected, clock);
    case DeleteItem(item, expected, clock) => KeepDeleteItem(db, item, expected, clock);
    case ReorderItems(v, ordered, expected, clock) => KeepReorder(db, v, ordered, expected, clock);
    case SubmitReview(v, expected, clock) => KeepSubmit(db, v, expected, clock);
    case ReturnDraft(v, expected, clock) => KeepReturn(db, v, expected, clock);
    case Publish(v, expected, clock) => KeepPublish(db, v, expected, clock);
    case SetSkill(skill, row) => KeepSkill(db, skill, row);
  }

  ghost function Run(db: Db, ops: seq<Op>): Db
    decreases |ops|
  {
    if ops == [] then db else Perform(Run(db, ops[..|ops| - 1]), ops[|ops| - 1]).0
  }

  /** Every run keeps the invariant, and no version published on the way or before ever changes its content. */
  lemma {:induction false} EveryRun(db: Db, ops: seq<Op>)
    requires Inv(db)
    ensures Keeps(db, Run(db, ops))
    decreases |ops|
  {
    NothingChanges(db);
    if ops != [] {
      var before := Run(db, ops[..|ops| - 1]);
      EveryRun(db, ops[..|ops| - 1]);
      hide Inv, Perform;
      Keep(before, ops[|ops| - 1]);
      KeepsFrozenTrans(db, before, Run(db, ops));
    }
  }

  const EMPTY: Db := Db([], [], map[], map[], map[])

  lemma EmptyInv()
    ensures Inv(EMPTY)
  {
  }

  /** The states some run from empty tables leads to. */
  ghost predicate Reachable(db: Db) {
    exists ops :: Run(EMPTY, ops) == db
  }

  lemma ReachableInv(db: Db)
    requires Reachable(db)
    ensures Inv(db)
  {
    hide Inv;
    var ops :| Run(EMPTY, ops) == db;
    EmptyInv();
    EveryRun(EMPTY, ops);
  }

  lemma {:induction false} RunAppend(db: Db, ops: seq<Op>, more: seq<Op>)
    ensures Run(db, ops + more) == Run(Run(db, ops), more)
    decreases |more|
  {
    hide Perform;
    if more == [] {
      assert ops + more == ops;
    } else {
      var all, last := ops + more, |more| - 1;
      assert all[..|all| - 1] == ops + more[..last];
      RunAppend(db, ops, more[..last]);
    }
  }

  lemma RunReachable(db: Db, more: seq<Op>)
    requires Reachable(db)
    ensures Reachable(Run(db, more))
  {
    hide Run;
    var ops :| Run(EMPTY, ops) == db;
    RunAppend(EMPTY, ops, more);
  }
}
