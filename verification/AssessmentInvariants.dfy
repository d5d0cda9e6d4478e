/** What every authoring transaction keeps of the assessment tables. */
module AssessmentInvariants {
  import opened Basics
  import opened AssessmentModel

  // ---- versions ----

  function VersionsOf(versions: seq<Version>, d: Id): nat {
    if versions == [] then 0
    else VersionsOf(versions[..|versions| - 1], d) + if versions[|versions| - 1].definition == d then 1 else 0
  }

  /** The versions of each definition are numbered 1, 2, ... in creation order. */
  ghost predicate Numbered(versions: seq<Version>) {
    forall v :: 0 <= v < |versions| ==> versions[v].versionNo == VersionsOf(versions[..v], versions[v].definition) + 1
  }

  ghost predicate OneDefinitionPerSubject(definitions: seq<Definition>) {
    forall d, e :: 0 <= d < |definitions| && 0 <= e < |definitions| && definitions[d].subject == definitions[e].subject ==> d == e
  }

  ghost predicate OneEditable(versions: seq<Version>) {
    forall v, w :: 0 <= v < |versions| && 0 <= w < |versions| && versions[v].definition == versions[w].definition
                   && Editable(versions[v].status) && Editable(versions[w].status)
                   ==> v == w
  }

  /** A version is PUBLISHED exactly when it is the current version of its definition. */
  ghost predicate CurrentIsPublished(definitions: seq<Definition>, versions: seq<Version>) {
    && (forall v :: 0 <= v < |versions| ==>
          versions[v].definition < |definitions|
          && (versions[v].status.Published? <==> definitions[versions[v].definition].current == Some(v)))
    && (forall d :: 0 <= d < |definitions| ==>
          && definitions[d].published == definitions[d].current.Some?
          && (definitions[d].current.Some? ==>
                definitions[d].current.value < |versions| && versions[definitions[d].current.value].definition == d))
  }

  ghost predicate VersionsOk(definitions: seq<Definition>, versions: seq<Version>) {
    && OneDefinitionPerSubject(definitions) && OneEditable(versions) && CurrentIsPublished(definitions, versions)
    && Numbered(versions)
  }

  lemma {:induction false} MaxIsCount(versions: seq<Version>, d: Id)
    requires Numbered(versions)
    ensures MaxVersionNo(versions, d) == VersionsOf(versions, d)
  {
    if versions != [] {
      var rest := versions[..|versions| - 1];
      assert forall v :: 0 <= v <= |rest| ==> rest[..v] == versions[..v];
      MaxIsCount(rest, d);
    }
  }

  lemma {:induction false} CountByDefinition(a: seq<Version>, b: seq<Version>, d: Id)
    requires |a| == |b| && forall v :: 0 <= v < |a| ==> a[v].definition == b[v].definition
    ensures VersionsOf(a, d) == VersionsOf(b, d)
  {
    if a != [] {
      CountByDefinition(a[..|a| - 1], b[..|b| - 1], d);
    }
  }

  /** Numbering only looks at definitions and numbers. */
  lemma NumberedLike(a: seq<Version>, b: seq<Version>)
    requires Numbered(a) && |a| == |b|
    requires forall v :: 0 <= v < |a| ==> a[v].definition == b[v].definition && a[v].versionNo == b[v].versionNo
    ensures Numbered(b)
  {
    forall v | 0 <= v < |b| ensures b[v].versionNo == VersionsOf(b[..v], b[v].definition) + 1 {
      CountByDefinition(a[..v], b[..v], a[v].definition);
    }
  }

  lemma NumberedAfterNew(versions: seq<Version>, ver: Version)
    requires Numbered(versions) && ver.versionNo == MaxVersionNo(versions, ver.definition) + 1
    ensures Numbered(versions + [ver])
  {
    var versions' := versions + [ver];
    MaxIsCount(versions, ver.definition);
    assert versions'[..|versions|] == versions;
    assert forall v :: 0 <= v <= |versions| ==> versions'[..v] == versions[..v];
  }

  lemma VersionsAfterNew(definitions: seq<Definition>, versions: seq<Version>, ver: Version)
    requires VersionsOk(definitions, versions) && ver.definition < |definitions| && !HasEditable(versions, ver.definition)
    requires ver.versionNo == MaxVersionNo(versions, ver.definition) + 1 && ver.status.Draft?
    ensures VersionsOk(definitions, versions + [ver])
  {
    NumberedAfterNew(versions, ver);
    hide Numbered, MaxVersionNo;
    assert OneEditable(versions + [ver]);
    hide OneEditable, HasEditable;
    assert CurrentIsPublished(definitions, versions + [ver]);
  }

  /** An editable version stays editable, whatever else changes in it. */
  lemma VersionsAfterEdit(definitions: seq<Definition>, versions: seq<Version>, v: Id, ver: Version)
    requires VersionsOk(definitions, versions) && v < |versions|
    requires Editable(versions[v].status) && Editable(ver.status)
    requires ver.definition == versions[v].definition && ver.versionNo == versions[v].versionNo
    ensures VersionsOk(definitions, versions[v := ver])
  {
    NumberedLike(versions, versions[v := ver]);
  }

  /** The tables' versions after a publication: the previous current one archived, `v` published. */
  function AfterPublish(db: Db, v: Id, expected: int, clock: int): seq<Version>
    requires v < |db.versions| && db.versions[v].definition < |db.definitions|
  {
    var archived := ArchivePrevious(db, db.definitions[db.versions[v].definition].current, v, clock);
    archived[v := Transition(archived[v], Published, expected, clock)]
  }

  /** `v` is published, the published version of its definition is archived, the others keep their status. */
  ghost predicate Replaces(versions: seq<Version>, after: seq<Version>, v: Id)
    requires v < |versions|
  {
    && |after| == |versions| && after[v].status.Published?
    && (forall w :: 0 <= w < |after| ==> after[w].definition == versions[w].definition
                                         && after[w].versionNo == versions[w].versionNo && after[w].config == versions[w].config)
    && (forall w :: 0 <= w < |after| && w != v ==>
          after[w].status == if versions[w].definition == versions[v].definition && versions[w].status.Published? then Archived
                             else versions[w].status)
  }

  lemma PublishReplaces(db: Db, v: Id, expected: int, clock: int)
    requires CurrentIsPublished(db.definitions, db.versions) && v < |db.versions| && db.versions[v].status.Review?
    ensures Replaces(db.versions, AfterPublish(db, v, expected, clock), v)
  {
  }

  lemma OneEditableAfterPublish(versions: seq<Version>, after: seq<Version>, v: Id)
    requires v < |versions| && OneEditable(versions) && Replaces(versions, after, v)
    ensures OneEditable(after)
  {
    assert forall w :: 0 <= w < |after| && Editable(after[w].status) ==> Editable(versions[w].status);
  }

  lemma CurrentAfterPublish(definitions: seq<Definition>, versions: seq<Version>, after: seq<Version>, v: Id)
    requires v < |versions| && CurrentIsPublished(definitions, versions) && Replaces(versions, after, v)
    ensures var d := versions[v].definition;
            CurrentIsPublished(definitions[d := definitions[d].(published := true, current := Some(v))], after)
  {
  }

  lemma VersionsAfterPublish(db: Db, v: Id, expected: int, clock: int)
    requires VersionsOk(db.definitions, db.versions) && v < |db.versions| && db.versions[v].status.Review?
    ensures var d := db.versions[v].definition;
            VersionsOk(db.definitions[d := db.definitions[d].(published := true, current := Some(v))],
                       AfterPublish(db, v, expected, clock))
  {
    var after := AfterPublish(db, v, expected, clock);
    PublishReplaces(db, v, expected, clock);
    OneEditableAfterPublish(db.versions, after, v);
    CurrentAfterPublish(db.definitions, db.versions, after, v);
    NumberedLike(db.versions, after);
    hide AfterPublish, OneEditable, CurrentIsPublished, Numbered, Replaces;
  }

  // ---- items ----

  function ItemStatus(s: Status): Status { if s.Archived? then Published else s }

  /** Each item belongs to exactly one version and has the status of that version; items of an archived one stay PUBLISHED. */
  ghost predicate ItemsOk(versions: seq<Version>, items: map<Id, Item>, links: map<LinkKey, Slot>) {
    && (forall k :: k in links ==>
          k.version < |versions| && k.item in items && items[k.item].status == ItemStatus(versions[k.version].status))
    && (forall i :: i in items ==> exists v :: LinkKey(v, i) in links)
    && (forall k, l :: k in links && l in links && k.item == l.item ==> k == l)
  }

  lemma ItemsAfterSameStatus(versions: seq<Version>, items: map<Id, Item>, links: map<LinkKey, Slot>, v: Id, ver: Version)
    requires ItemsOk(versions, items, links) && v < |versions| && ver.status == versions[v].status
    ensures ItemsOk(versions[v := ver], items, links)
  {
  }

  lemma ItemsAfterNewVersion(versions: seq<Version>, items: map<Id, Item>, links: map<LinkKey, Slot>, ver: Version)
    requires ItemsOk(versions, items, links)
    ensures ItemsOk(versions + [ver], items, links)
  {
  }

  lemma ItemsAfterCreate(versions: seq<Version>, items: map<Id, Item>, links: map<LinkKey, Slot>, v: Id, i: Id, item: Item, slot: Slot)
    requires ItemsOk(versions, items, links) && v < |versions| && i !in items && item.status == ItemStatus(versions[v].status)
    ensures ItemsOk(versions, items[i := item], links[LinkKey(v, i) := slot])
  {
    var items', links' := items[i := item], links[LinkKey(v, i) := slot];
    forall j | j in items' ensures exists w :: LinkKey(w, j) in links' {
      if j == i {
        assert LinkKey(v, i) in links';
      } else {
        var w :| LinkKey(w, j) in links;
        assert LinkKey(w, j) in links';
      }
    }
  }

  lemma ItemsAfterDelete(versions: seq<Version>, items: map<Id, Item>, links: map<LinkKey, Slot>, i: Id)
    requires ItemsOk(versions, items, links)
    ensures ItemsOk(versions, items - {i}, WithoutItem(links, i))
  {
    forall j | j in items - {i} ensures exists w :: LinkKey(w, j) in WithoutItem(links, i) {
      var w :| LinkKey(w, j) in links;
      assert LinkKey(w, j) in WithoutItem(links, i);
    }
  }

  lemma ItemsAfterOrder(versions: seq<Version>, items: map<Id, Item>, links: map<LinkKey, Slot>, links': map<LinkKey, Slot>)
    requires ItemsOk(versions, items, links) && links'.Keys == links.Keys
    ensures ItemsOk(versions, items, links')
  {
    assert forall k :: k in links' <==> k in links;
    forall i | i in items ensures exists v :: LinkKey(v, i) in links' {
      var v :| LinkKey(v, i) in links;
      assert LinkKey(v, i) in links';
    }
  }

  lemma ItemsAfterStep(versions: seq<Version>, items: map<Id, Item>, links: map<LinkKey, Slot>, v: Id, ver: Version, from: Status, to: Status)
    requires ItemsOk(versions, items, links) && v < |versions|
    requires ItemStatus(versions[v].status) == from && ver.status == to && ItemStatus(to) == to
    ensures ItemsOk(versions[v := ver], Flip(items, links, v, from, to), links)
  {
    var items' := Flip(items, links, v, from, to);
    forall k | k in links
      ensures k.item in items' && items'[k.item].status == ItemStatus(versions[v := ver][k.version].status)
    {
      if LinkKey(v, k.item) in links {
        assert k == LinkKey(v, k.item);
      }
    }
  }

  // ---- frozen content ----

  predicate Frozen(s: Status) { s.Published? || s.Archived? }

  predicate SameContent(a: Item, b: Item) { a.payload == b.payload && a.skill == b.skill && a.difficulty == b.difficulty }

  /** The rows of a version depend only on its own links and the content of its items. */
  lemma SameRows(items: map<Id, Item>, links: map<LinkKey, Slot>, items': map<Id, Item>, links': map<LinkKey, Slot>, v: Id)
    requires forall k :: k in links && k.version == v ==> k in links' && links'[k] == links[k]
    requires forall k :: k in links' && k.version == v ==> k in links
    requires forall k :: k in links && k.version == v && k.item in items
                         ==> k.item in items' && SameContent(items[k.item], items'[k.item])
    requires forall k :: k in links && k.version == v && k.item in items' ==> k.item in items
    ensures Rows(items', links', v) == Rows(items, links, v)
  {
    var a, b := Rows(items, links, v), Rows(items', links', v);
    assert a.Keys == b.Keys;
    assert forall k :: k in a ==> a[k] == b[k];
  }

  ghost predicate StillFrozen(db: Db, db': Db, v: Id)
    requires v < |db.versions|
  {
    && v < |db'.versions|
    && db'.versions[v].definition == db.versions[v].definition && db'.versions[v].versionNo == db.versions[v].versionNo
    && Frozen(db'.versions[v].status) && (db.versions[v].status.Archived? ==> db'.versions[v].status.Archived?)
    && ContentOf(db', v) == ContentOf(db, v)
  }

  /** No published or archived version changes its content. */
  ghost predicate KeepsFrozen(db: Db, db': Db) {
    |db.versions| <= |db'.versions|
    && forall v :: 0 <= v < |db.versions| && Frozen(db.versions[v].status) ==> StillFrozen(db, db', v)
  }

  lemma KeepsFrozenTrans(a: Db, b: Db, c: Db)
    requires KeepsFrozen(a, b) && KeepsFrozen(b, c)
    ensures KeepsFrozen(a, c)
  {
    hide ContentOf;
    forall v | 0 <= v < |a.versions| && Frozen(a.versions[v].status) ensures StillFrozen(a, c, v) {
      assert StillFrozen(a, b, v);
      assert StillFrozen(b, c, v);
    }
  }

  /** Every version that was ever published meets the runtime's conditions. */
  ghost predicate FrozenReady(db: Db) {
    forall v :: 0 <= v < |db.versions| && Frozen(db.versions[v].status) ==> RuntimeReady(ContentOf(db, v))
  }

  lemma FrozenStaysReady(db: Db, db': Db)
    requires FrozenReady(db) && KeepsFrozen(db, db') && |db'.versions| == |db.versions|
    requires forall v :: 0 <= v < |db.versions| && Frozen(db'.versions[v].status) ==> Frozen(db.versions[v].status)
    ensures FrozenReady(db')
  {
    hide ContentOf, RuntimeReady;
    forall v | 0 <= v < |db'.versions| && Frozen(db'.versions[v].status) ensures RuntimeReady(ContentOf(db', v)) {
      assert StillFrozen(db, db', v);
    }
  }

  /** The publish gate implies what the runtime asks: a difficulty in scale is at least 1. */
  lemma GateImpliesRuntime(c: Content, active: set<Id>)
    requires Ready(c, active)
    ensures RuntimeReady(c)
  {
  }

  // ---- the whole invariant ----

  ghost predicate Inv(db: Db) {
    VersionsOk(db.definitions, db.versions) && ItemsOk(db.versions, db.items, db.links) && FrozenReady(db)
  }
}
