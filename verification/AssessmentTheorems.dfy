/**
 What every run of the assessment lifecycle guarantees, from empty tables, with any calls, tokens and clocks.
 */
module AssessmentTheorems {
  import opened Basics
  import opened AssessmentModel
  import opened AssessmentInvariants
  import opened AssessmentRuns
  import opened AssessmentReadiness

  // ---- versions ----

  /** A definition has at most one editable version, and PUBLISHED is exactly its current one. */
  lemma VersionSafety(db: Db, v: Id, w: Id)
    requires Reachable(db) && v < |db.versions| && w < |db.versions|
    requires db.versions[v].definition == db.versions[w].definition
    ensures Editable(db.versions[v].status) && Editable(db.versions[w].status) ==> v == w
    ensures db.versions[v].status.Published? && db.versions[w].status.Published? ==> v == w
    ensures var d := db.versions[v].definition;
            d < |db.definitions| && (db.versions[v].status.Published? <==> db.definitions[d].current == Some(v))
  {
    ReachableInv(db);
    hide Numbered, ItemsOk, FrozenReady, Reachable;
  }

  /** Every item is in exactly one version, and its status is that of its version. */
  lemma ItemsFollowVersions(db: Db, i: Id)
    requires Reachable(db) && i in db.items
    ensures exists v: Id :: LinkKey(v, i) in db.links
    ensures forall v: Id, w: Id :: LinkKey(v, i) in db.links && LinkKey(w, i) in db.links ==> v == w
    ensures forall v: Id :: LinkKey(v, i) in db.links ==>
              v < |db.versions| && db.items[i].status == ItemStatus(db.versions[v].status)
  {
    ReachableInv(db);
    hide VersionsOk, FrozenReady, Reachable;
    forall v: Id, w: Id | LinkKey(v, i) in db.links && LinkKey(w, i) in db.links ensures v == w {
      var k, l := LinkKey(v, i), LinkKey(w, i);
      assert k == l;
    }
    forall v: Id | LinkKey(v, i) in db.links
      ensures v < |db.versions| && db.items[i].status == ItemStatus(db.versions[v].status)
    {
      var k := LinkKey(v, i);
      assert k.version < |db.versions|;
    }
  }

  function DefinitionsOf(versions: seq<Version>): seq<Id> {
    seq(|versions|, i requires 0 <= i < |versions| => versions[i].definition)
  }

  function VersionNosOf(versions: seq<Version>): seq<int> {
    seq(|versions|, i requires 0 <= i < |versions| => versions[i].versionNo)
  }

  lemma {:induction false} VersionsOfIsOccurrences(versions: seq<Version>, d: Id)
    ensures VersionsOf(versions, d) == Occurrences(DefinitionsOf(versions), d)
  {
    if versions != [] {
      var rest := versions[..|versions| - 1];
      VersionsOfIsOccurrences(rest, d);
      assert DefinitionsOf(versions)[..|rest|] == DefinitionsOf(rest);
    }
  }

  lemma VersionsAreNumbered(versions: seq<Version>)
    requires Numbered(versions)
    ensures Numbers(DefinitionsOf(versions), VersionNosOf(versions))
  {
    forall v | 0 <= v < |versions|
      ensures versions[v].versionNo == Occurrences(DefinitionsOf(versions)[..v], versions[v].definition) + 1
    {
      VersionsOfIsOccurrences(versions[..v], versions[v].definition);
      assert DefinitionsOf(versions)[..v] == DefinitionsOf(versions[..v]);
    }
  }

  lemma NumberedVersions(versions: seq<Version>, d: Id)
    requires Numbered(versions)
    ensures forall n :: 1 <= n <= VersionsOf(versions, d) ==> Used(DefinitionsOf(versions), VersionNosOf(versions), d, n)
    ensures forall v :: 0 <= v < |versions| && versions[v].definition == d ==>
              1 <= versions[v].versionNo <= VersionsOf(versions, d)
    ensures forall v, w :: 0 <= v < w < |versions| && versions[v].definition == d && versions[w].definition == d ==>
              versions[v].versionNo < versions[w].versionNo
  {
    hide Numbered, VersionsOf, Occurrences, Used, Numbers;
    VersionsAreNumbered(versions);
    VersionsOfIsOccurrences(versions, d);
    NumberedInOrder(DefinitionsOf(versions), VersionNosOf(versions), d);
    assert forall v :: 0 <= v < |versions| ==>
      DefinitionsOf(versions)[v] == versions[v].definition && VersionNosOf(versions)[v] == versions[v].versionNo;
  }

  /** The versions of a definition carry the numbers 1 to their count, each once, in the order they were created. */
  lemma VersionNumbers(db: Db, d: Id)
    requires Reachable(db)
    ensures forall n :: 1 <= n <= VersionsOf(db.versions, d)
              ==> Used(DefinitionsOf(db.versions), VersionNosOf(db.versions), d, n)
    ensures forall v :: 0 <= v < |db.versions| && db.versions[v].definition == d ==>
              1 <= db.versions[v].versionNo <= VersionsOf(db.versions, d)
    ensures forall v, w :: 0 <= v < w < |db.versions| && db.versions[v].definition == d && db.versions[w].definition == d ==>
              db.versions[v].versionNo < db.versions[w].versionNo
  {
    ReachableInv(db);
    assert Numbered(db.versions);
    hide *;
    NumberedVersions(db.versions, d);
  }

  // ---- the gate and the runtime agree ----

  lemma CurrentIsReady(db: Db, d: Id)
    requires Inv(db) && d < |db.definitions| && db.definitions[d].published
    ensures Accepts(db, db.definitions[d].subject)
  {
    hide RuntimeReady, ItemsOk, Numbered, ContentOf;
    assert OnlyPublished(db, db.definitions[d].subject, d);
    assert CurrentReady(db, d);
  }

  /** In every state of every run a published definition can be attempted. */
  lemma PublishedIsAccepted(db: Db, d: Id)
    requires Reachable(db) && d < |db.definitions| && db.definitions[d].published
    ensures Accepts(db, db.definitions[d].subject)
  {
    hide Inv, Accepts, Reachable;
    ReachableInv(db);
    CurrentIsReady(db, d);
  }

  /** A definition once published stays published, and its learners are never refused, along every run. */
  lemma {:induction false} StaysAccepted(db: Db, ops: seq<Op>, d: Id)
    requires Reachable(db) && d < |db.definitions| && db.definitions[d].published
    ensures d < |Run(db, ops).definitions| && Run(db, ops).definitions[d].published
    ensures Run(db, ops).definitions[d].subject == db.definitions[d].subject
    ensures Accepts(Run(db, ops), db.definitions[d].subject)
    decreases |ops|
  {
    RunReachable(db, ops);
    hide Reachable, Accepts;
    if ops != [] {
      StaysAccepted(db, ops[..|ops| - 1], d);
      DefinitionStays(Run(db, ops[..|ops| - 1]), ops[|ops| - 1], d);
    }
    PublishedIsAccepted(Run(db, ops), d);
  }

  lemma DefinitionStays(db: Db, op: Op, d: Id)
    requires d < |db.definitions| && db.definitions[d].published
    ensures var db' := Perform(db, op).0;
            d < |db'.definitions| && db'.definitions[d].published && db'.definitions[d].subject == db.definitions[d].subject
  {
    hide Owners, EditableOwner, SkillActive, Buildable, ConfigOk, ExactOrder, VersionReady, LinksOf, CloneItems, CloneLinks,
      OrderLinks, Lists, FreshFor, HasEditable, ArchivePrevious;
  }

  /**
   A version published or archived in some state stays so and unchanged in every later one: same content, still fit for
   the runtime.
   */
  lemma PublishedForever(db: Db, ops: seq<Op>, v: Id)
    requires Reachable(db) && v < |db.versions| && Frozen(db.versions[v].status)
    ensures var late := Run(db, ops);
            && v < |late.versions| && Frozen(late.versions[v].status)
            && ContentOf(late, v) == ContentOf(db, v) && RuntimeReady(ContentOf(late, v))
  {
    ReachableInv(db);
    EveryRun(db, ops);
    hide RuntimeReady, ItemsOk, VersionsOk, ContentOf, Reachable, Run;
    assert StillFrozen(db, Run(db, ops), v);
  }
}
