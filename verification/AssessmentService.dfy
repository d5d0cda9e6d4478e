/**
 The authoring transactions as they run: guarded updates of rows, loops over items. Each method leaves the tables as the
 specification function does (src/assessment-authoring/assessment-authoring.service.ts, assessment-authoring.repository.ts).
 */
module AssessmentService {
  import opened Basics
  import opened OptimisticTokens
  import opened AssessmentModel
  import opened AssessmentReadiness

  /** The flip done everywhere but on the items of `left`. */
  ghost function FlipOutside(items: map<Id, Item>, links: map<LinkKey, Slot>, v: Id, from: Status, to: Status, left: set<Id>)
    : map<Id, Item>
  {
    map i | i in items :: if i !in left && LinkKey(v, i) in links && items[i].status == from then items[i].(status := to) else items[i]
  }

  lemma FlipEnds(items: map<Id, Item>, links: map<LinkKey, Slot>, v: Id, from: Status, to: Status)
    ensures FlipOutside(items, links, v, from, to, items.Keys) == items
    ensures FlipOutside(items, links, v, from, to, {}) == Flip(items, links, v, from, to)
  {
  }

  lemma FlipStep(items: map<Id, Item>, links: map<LinkKey, Slot>, v: Id, from: Status, to: Status, left: set<Id>, i: Id)
    requires i in left && i in items
    ensures var now := FlipOutside(items, links, v, from, to, left);
            && i in now && now[i] == items[i]
            && FlipOutside(items, links, v, from, to, left - {i})
               == if LinkKey(v, i) in links && now[i].status == from then now[i := now[i].(status := to)] else now
  {
  }

  class AssessmentTables {
    var definitions: seq<Definition>
    var versions: seq<Version>
    var items: map<Id, Item>
    var links: map<LinkKey, Slot>
    var skills: map<Id, Skill>

    function State(): Db
      reads this
    {
      Db(definitions, versions, items, links, skills)
    }

    constructor ()
      ensures State() == Db([], [], map[], map[], map[])
    {
      definitions, versions, items, links, skills := [], [], map[], map[], map[];
    }

    // ---- the repository's guarded updates ----

    /** Guarded on status DRAFT and the token; counts the rows it changed. */
    method TouchDraftVersion(v: Id, expected: int, clock: int) returns (count: nat)
      requires v < |versions|
      modifies this`versions
      ensures count == if old(versions[v].status.Draft? && versions[v].token == expected) then 1 else 0
      ensures versions == if count == 1 then old(versions)[v := old(versions[v]).(token := NextToken(expected, clock))] else old(versions)
    {
      count := 0;
      if versions[v].status.Draft? && versions[v].token == expected {
        versions, count := versions[v := versions[v].(token := NextToken(expected, clock))], 1;
      }
    }

    method UpdateDraftVersionConfig(v: Id, expected: int, clock: int, config: Config) returns (count: nat)
      requires v < |versions|
      modifies this`versions
      ensures count == if old(versions[v].status.Draft? && versions[v].token == expected) then 1 else 0
      ensures versions == if count == 1
                          then old(versions)[v := old(versions[v]).(config := config, token := NextToken(expected, clock))]
                          else old(versions)
    {
      count := 0;
      if versions[v].status.Draft? && versions[v].token == expected {
        versions, count := versions[v := versions[v].(config := config, token := NextToken(expected, clock))], 1;
      }
    }

    method TransitionVersion(v: Id, from: Status, to: Status, expected: int, clock: int) returns (count: nat)
      requires v < |versions|
      modifies this`versions
      ensures count == if old(versions[v].status == from && versions[v].token == expected) then 1 else 0
      ensures versions == if count == 1 then old(versions)[v := Transition(old(versions[v]), to, expected, clock)] else old(versions)
    {
      count := 0;
      if versions[v].status == from && versions[v].token == expected {
        versions, count := versions[v := Transition(versions[v], to, expected, clock)], 1;
      }
    }

    method ArchiveVersion(v: Id, clock: int) returns (count: nat)
      requires v < |versions|
      modifies this`versions
      ensures count == if old(versions[v].status.Published?) then 1 else 0
      ensures versions == if count == 1
                          then old(versions)[v := Transition(old(versions[v]), Archived, old(versions[v]).token, clock)]
                          else old(versions)
    {
      count := 0;
      if versions[v].status.Published? {
        versions, count := versions[v := Transition(versions[v], Archived, versions[v].token, clock)], 1;
      }
    }

    /** Only items of the version, and only those in status `from`. */
    method SetVersionItemsStatus(v: Id, from: Status, to: Status)
      modifies this`items
      ensures items == Flip(old(items), links, v, from, to)
    {
      hide Flip, FlipOutside;
      var left := items.Keys;
      ghost var before := items;
      FlipEnds(before, links, v, from, to);
      while left != {}
        invariant left <= before.Keys && items == FlipOutside(before, links, v, from, to, left)
        decreases |left|
      {
        var i :| i in left;
        FlipStep(before, links, v, from, to, left, i);
        if LinkKey(v, i) in links && items[i].status == from {
          items := items[i := items[i].(status := to)];
        }
        left := left - {i};
      }
    }

    method BumpVersion(v: Id, clock: int)
      requires v < |versions|
      modifies this`versions
      ensures versions == old(versions)[v := Bumped(old(versions[v]), clock)]
    {
      versions := versions[v := Bumped(versions[v], clock)];
    }

    // ---- creating versions ----

    method MaxNo(d: Id) returns (max: int)
      ensures max == MaxVersionNo(versions, d)
    {
      max := 0;
      for v := 0 to |versions|
        invariant max == MaxVersionNo(versions[..v], d)
      {
        assert versions[..v + 1][..v] == versions[..v];
        if versions[v].definition == d && versions[v].versionNo > max {
          max := versions[v].versionNo;
        }
      }
      assert versions[..|versions|] == versions;
    }

    method CreateBlankVersion(d: Id, token: int) returns (r: Outcome)
      modifies this
      ensures (State(), r) == Perform(old(State()), CreateBlank(d, token))
    {
      if d >= |definitions| {
        return NotFound;
      }
      if HasEditable(versions, d) {
        return EditableExists;
      }
      var max := MaxNo(d);
      versions := versions + [Version(d, max + 1, DEFAULT_CONFIG, Draft, token)];
      r := Done;
    }

    /** The copy loop of a clone: one new item and one new link per listed row, at orderings 0, 1, ... */
    method CopyRows(from: Id, to: Id, token: int, sources: seq<Id>, copies: seq<Id>)
      requires FreshFor(State(), sources, copies) && forall i :: 0 <= i < |sources| ==> LinkKey(from, sources[i]) in links
      modifies this`items, this`links
      ensures items == CloneItems(old(State()), token, sources, copies, |sources|)
      ensures links == CloneLinks(old(State()), from, to, sources, copies, |sources|)
    {
      ghost var before := State();
      for i := 0 to |sources|
        invariant items == CloneItems(before, token, sources, copies, i)
        invariant links == CloneLinks(before, from, to, sources, copies, i)
        invariant forall k :: i <= k < |sources| ==> sources[k] in items && items[sources[k]] == before.items[sources[k]]
        invariant forall k :: i <= k < |sources| ==>
                    LinkKey(from, sources[k]) in links && links[LinkKey(from, sources[k])] == before.links[LinkKey(from, sources[k])]
      {
        var source, slot := items[sources[i]], links[LinkKey(from, sources[i])];
        items := items[copies[i] := source.(status := Draft, token := token)];
        links := links[LinkKey(to, copies[i]) := Slot(i, slot.override)];
      }
    }

    /** `sources` is the list of the current version's items, `copies` the ids the database gives to the new ones. */
    method CloneCurrentVersion(d: Id, token: int, sources: seq<Id>, copies: seq<Id>) returns (r: Outcome)
      requires d < |definitions| && definitions[d].current.Some? ==>
                 Lists(links, definitions[d].current.value, sources) && FreshFor(State(), sources, copies)
      modifies this
      ensures (State(), r) == Perform(old(State()), CloneCurrent(d, token, sources, copies))
    {
      if d >= |definitions| {
        return NotFound;
      }
      if HasEditable(versions, d) {
        return EditableExists;
      }
      if definitions[d].current.None? {
        return NothingToClone;
      }
      var from := definitions[d].current.value;
      if from >= |versions| {
        return PointerIncoherent;
      }
      if !ConfigOk(versions[from].config) {
        return ConfigInvalid;
      }
      assert forall i :: 0 <= i < |sources| ==> sources[i] in sources;
      var max := MaxNo(d);
      var v := |versions|;
      var config := versions[from].config;
      hide CloneItems, CloneLinks, FreshFor, Lists, HasEditable, ConfigOk, MaxVersionNo;
      CopyRows(from, v, token, sources, copies);
      versions := versions + [Version(d, max + 1, config, Draft, token)];
      r := Done;
    }

    // ---- editing ----

    method UpdateVersionConfig(v: Id, edits: Edits, expected: int, clock: int) returns (r: Outcome)
      modifies this
      ensures (State(), r) == PerformConfig(old(State()), v, edits, expected, clock)
    {
      if v >= |versions| {
        return NotFound;
      }
      if !versions[v].status.Draft? {
        return VersionNotDraft;
      }
      var next := Merged(versions[v].config, edits);
      if !ConfigOk(versions[v].config) || !ConfigOk(next) {
        return ConfigInvalid;
      }
      var count := UpdateDraftVersionConfig(v, expected, clock, next);
      r := if count == 0 then EditConflict else Done;
    }

    /** `item` is the id the database gives to the new row. */
    method AddItem(v: Id, item: Id, payload: Option<Payload>, skill: Id, difficulty: int, token: int, expected: int, clock: int)
      returns (r: Outcome)
      requires item !in items && Owners(State(), item) == {}
      modifies this
      ensures (State(), r) == PerformCreateItem(old(State()), v, item, payload, skill, difficulty, token, expected, clock)
    {
      hide Owners, Buildable, SkillActive;
      if v >= |versions| || versions[v].definition >= |definitions| {
        return NotFound;
      }
      if !versions[v].status.Draft? {
        return VersionNotDraft;
      }
      if !ConfigOk(versions[v].config) {
        return ConfigInvalid;
      }
      if !SkillActive(State(), skill, definitions[versions[v].definition].subject) {
        return SkillInvalid;
      }
      if !InScale(versions[v].config, difficulty) || !Buildable(payload) {
        return ItemInvalid;
      }
      var count := TouchDraftVersion(v, expected, clock);
      if count == 0 {
        return EditConflict;
      }
      var ordering := |LinksOf(links, v)|;
      items := items[item := Item(payload, skill, difficulty, Draft, token)];
      links := links[LinkKey(v, item) := Slot(ordering, None)];
      r := Done;
    }

    method ChangeItem(item: Id, payload: Option<Payload>, skill: Id, difficulty: int, expected: int, clock: int) returns (r: Outcome)
      modifies this
      ensures (State(), r) == PerformUpdateItem(old(State()), item, payload, skill, difficulty, expected, clock)
    {
      if item !in items {
        return NotFound;
      }
      var owner := EditableOwner(State(), item);
      hide EditableOwner, Owners, Buildable, SkillActive;
      if owner.None? {
        return ItemImmutable;
      }
      var v := owner.value;
      if !ConfigOk(versions[v].config) {
        return ConfigInvalid;
      }
      if !SkillActive(State(), skill, definitions[versions[v].definition].subject) {
        return SkillInvalid;
      }
      if !InScale(versions[v].config, difficulty) || !Buildable(payload) {
        return ItemInvalid;
      }
      if items[item].token != expected {
        return EditConflict;
      }
      items := items[item := items[item].(payload := payload, skill := skill, difficulty := difficulty, token := NextToken(expected, clock))];
      BumpVersion(v, clock);
      r := Done;
    }

    /** The link goes first; when the item's token does not match, the whole transaction rolls back. */
    method RemoveItem(item: Id, expected: int, clock: int) returns (r: Outcome)
      modifies this
      ensures (State(), r) == PerformDeleteItem(old(State()), item, expected, clock)
    {
      if item !in items {
        return NotFound;
      }
      var owner := EditableOwner(State(), item);
      if owner.None? {
        return ItemImmutable;
      }
      hide EditableOwner, Owners;
      var before := links;
      links := WithoutItem(links, item);
      if items[item].token != expected {
        links := before;
        return EditConflict;
      }
      items := items - {item};
      BumpVersion(owner.value, clock);
      r := Done;
    }

    method Reorder(v: Id, ordered: seq<Id>, expected: int, clock: int) returns (r: Outcome)
      modifies this
      ensures (State(), r) == PerformReorder(old(State()), v, ordered, expected, clock)
    {
      if v >= |versions| {
        return NotFound;
      }
      if !versions[v].status.Draft? {
        return VersionNotDraft;
      }
      if !ExactOrder(links, v, ordered) {
        return OrderInvalid;
      }
      var count := TouchDraftVersion(v, expected, clock);
      if count == 0 {
        return EditConflict;
      }
      for i := 0 to |ordered|
        invariant links == OrderLinks(old(links), v, ordered, i) && items == old(items)
        invariant definitions == old(definitions) && skills == old(skills)
        invariant versions == old(versions)[v := old(versions[v]).(token := NextToken(expected, clock))]
      {
        assert LinkKey(v, ordered[i]) in links.Keys;
        links := links[LinkKey(v, ordered[i]) := links[LinkKey(v, ordered[i])].(ordering := i)];
      }
      r := Done;
    }

    // ---- lifecycle ----

    /** The readiness report of a version, or not ready when its definition is missing. */
    method CheckReady(v: Id) returns (ready: bool)
      requires v < |versions|
      ensures ready == VersionReady(State(), v)
    {
      if versions[v].definition >= |definitions| {
        return false;
      }
      var c := ContentOf(State(), v);
      var keys := ListRows(c.rows);
      var report := Evaluate(c, keys, ActiveSkills(State(), definitions[versions[v].definition].subject));
      ready := report.publishReady;
    }

    method SubmitForReview(v: Id, expected: int, clock: int) returns (r: Outcome)
      modifies this
      ensures (State(), r) == PerformSubmit(old(State()), v, expected, clock)
    {
      hide VersionReady, Flip;
      if v >= |versions| {
        return NotFound;
      }
      if !versions[v].status.Draft? {
        return VersionNotDraft;
      }
      var ready := CheckReady(v);
      if !ready {
        return NotReady;
      }
      var count := TransitionVersion(v, Draft, Review, expected, clock);
      if count == 0 {
        return EditConflict;
      }
      SetVersionItemsStatus(v, Draft, Review);
      r := Done;
    }

    method ReturnToDraft(v: Id, expected: int, clock: int) returns (r: Outcome)
      modifies this
      ensures (State(), r) == PerformReturn(old(State()), v, expected, clock)
    {
      hide Flip;
      if v >= |versions| {
        return NotFound;
      }
      if !versions[v].status.Review? {
        return VersionNotInReview;
      }
      var count := TransitionVersion(v, Review, Draft, expected, clock);
      if count == 0 {
        return EditConflict;
      }
      SetVersionItemsStatus(v, Review, Draft);
      r := Done;
    }

    method PublishVersion(v: Id, expected: int, clock: int) returns (r: Outcome)
      modifies this
      ensures (State(), r) == PerformPublish(old(State()), v, expected, clock)
    {
      hide VersionReady, Flip;
      if v >= |versions| || versions[v].definition >= |definitions| {
        return NotFound;
      }
      var d := versions[v].definition;
      if !versions[v].status.Review? {
        return VersionNotInReview;
      }
      if versions[v].token != expected {
        return EditConflict;
      }
      var ready := CheckReady(v);
      if !ready {
        return NotReady;
      }
      var previous := definitions[d].current;
      if previous.Some? && previous.value != v {
        var p := previous.value;
        if p >= |versions| || versions[p].definition != d {
          return PointerIncoherent;
        }
        if versions[p].status.Published? {
          var archived := ArchiveVersion(p, clock);
          assert archived == 1;
        }
      }
      assert versions == ArchivePrevious(old(State()), previous, v, clock);
      var published := TransitionVersion(v, Review, Published, expected, clock);
      assert published == 1;
      SetVersionItemsStatus(v, Review, Published);
      definitions := definitions[d := definitions[d].(published := true, current := Some(v))];
      r := Done;
    }
  }
}
