/**
 A lesson revision and its activities: every write claims the revision's token, and positions are unique
 (src/content-authoring/activity.service.ts, revision.repository.ts, publish/publish.repository.ts). A call that throws
 leaves the revision as it was.
 */
module DraftRevision {
  import opened Basics
  import opened OptimisticTokens

  datatype Status = Draft | Review | Published | Archived

  datatype Row = Row(position: int, content: string)

  type Rows = map<string, Row>

  datatype Revision = Revision(status: Status, token: int, rows: Rows)

  /** `Shift` is a lifecycle step: a conditional update of the status. `blocked`: a foreign key forbids the delete. */
  datatype Op =
    | Create(id: string, position: nat, content: string)
    | Edit(id: string, content: string)
    | Delete(id: string, blocked: bool)
    | Reorder(ordered: seq<string>)
    | Shift(from: Status, to: Status)

  datatype Outcome = Done | NotFound | NotDraft | EditConflict | UniqueConflict | DeleteBlocked | ReorderInvalid

  datatype Call = Call(op: Op, expected: int, clock: int)

  // ---- the specification ----

  /** The list names each activity of the revision once. */
  predicate Permutes(ordered: seq<string>, rows: Rows) {
    Distinct(ordered) && (forall id :: id in ordered ==> id in rows) && (forall id :: id in rows ==> id in ordered)
  }

  function IndexIn(ordered: seq<string>, id: string): (i: nat)
    requires id in ordered
    ensures i < |ordered| && ordered[i] == id
  {
    if ordered[0] == id then 0 else 1 + IndexIn(ordered[1..], id)
  }

  predicate Taken(rows: Rows, position: int, self: string) {
    exists id :: id in rows && id != self && rows[id].position == position
  }

  function Reordered(rows: Rows, ordered: seq<string>): Rows
    requires forall id :: id in rows ==> id in ordered
  {
    map id | id in rows :: Row(IndexIn(ordered, id), rows[id].content)
  }

  predicate Names(op: Op, rows: Rows) {
    match op
    case Edit(id, _) => id in rows
    case Delete(id, _) => id in rows
    case _ => true
  }

  function From(op: Op): Status { if op.Shift? then op.from else Draft }

  function Perform(r: Revision, c: Call): (Revision, Outcome) {
    var token := NextToken(c.expected, c.clock);
    if !Names(c.op, r.rows) then (r, NotFound)
    else if r.status != From(c.op) then (r, NotDraft)
    else if r.token != c.expected then (r, EditConflict)
    else
      match c.op
      case Create(id, position, content) =>
        if id in r.rows || Taken(r.rows, position, id) then (r, UniqueConflict)
        else (r.(token := token, rows := r.rows[id := Row(position, content)]), Done)
      case Edit(id, content) => (r.(token := token, rows := r.rows[id := r.rows[id].(content := content)]), Done)
      case Delete(id, blocked) =>
        if blocked then (r, DeleteBlocked) else (r.(token := token, rows := r.rows - {id}), Done)
      case Reorder(ordered) =>
        if !Permutes(ordered, r.rows) then (r, ReorderInvalid)
        else (r.(token := token, rows := Reordered(r.rows, ordered)), Done)
      case Shift(_, to) => (r.(token := token, status := to), Done)
  }

  // ---- positions ----

  /** The unique index on positions, and the authored range of positions. */
  ghost predicate PositionsOk(rows: Rows) {
    && (forall id :: id in rows ==> rows[id].position >= 0)
    && (forall a, b :: a in rows && b in rows && rows[a].position == rows[b].position ==> a == b)
  }

  lemma PerformKeepsPositions(r: Revision, c: Call)
    requires PositionsOk(r.rows)
    ensures PositionsOk(Perform(r, c).0.rows)
  {
    hide Permutes, Distinct;
    match c.op
    case Reorder(ordered) =>
      if Permutes(ordered, r.rows) {
        ReorderedOk(r.rows, ordered);
      }
      hide Reordered;
    case _ =>
  }

  /** After a reorder the activity at index i of the request has position i. */
  lemma ReorderedOk(rows: Rows, ordered: seq<string>)
    requires Permutes(ordered, rows)
    ensures PositionsOk(Reordered(rows, ordered))
    ensures forall i :: 0 <= i < |ordered| ==> ordered[i] in rows && Reordered(rows, ordered)[ordered[i]].position == i
    ensures Reordered(rows, ordered).Keys == rows.Keys
  {
    forall i | 0 <= i < |ordered| ensures ordered[i] in rows && IndexIn(ordered, ordered[i]) == i {
      assert ordered[i] in ordered;
    }
  }

  // ---- what each call answers and writes, on the rows ----

  /** The revision after a success: a token beyond the one quoted and not before the clock, and these rows. */
  predicate Becomes(r: Revision, r': Revision, status: Status, expected: int, clock: int) {
    r'.status == status && r.token == expected && r'.token > expected && r'.token >= clock
  }

  /** The rows but that of `id` stay. */
  ghost predicate OthersStay(rows: Rows, rows': Rows, id: string) {
    forall other :: other != id ==> (other in rows' <==> other in rows) && (other in rows ==> rows'[other] == rows[other])
  }

  /** A new activity is written at its position in a DRAFT revision, unless its id or its position is taken. */
  lemma CreateAnswers(r: Revision, id: string, position: nat, content: string, expected: int, clock: int)
    ensures var (r', out) := Perform(r, Call(Create(id, position, content), expected, clock));
            var taken := id in r.rows || exists other :: other in r.rows && r.rows[other].position == position;
            && (out != Done ==> r' == r)
            && (!r.status.Draft? ==> out == NotDraft)
            && (r.status.Draft? && r.token != expected ==> out == EditConflict)
            && (r.status.Draft? && r.token == expected && taken ==> out == UniqueConflict)
            && (r.status.Draft? && r.token == expected && !taken ==>
                  && out == Done && Becomes(r, r', Draft, expected, clock) && OthersStay(r.rows, r'.rows, id)
                  && id in r'.rows && r'.rows[id] == Row(position, content))
  {
  }

  /** An edit replaces the content of one activity of a DRAFT revision and keeps its position. */
  lemma EditAnswers(r: Revision, id: string, content: string, expected: int, clock: int)
    ensures var (r', out) := Perform(r, Call(Edit(id, content), expected, clock));
            && (out != Done ==> r' == r)
            && (id !in r.rows ==> out == NotFound)
            && (id in r.rows && !r.status.Draft? ==> out == NotDraft)
            && (id in r.rows && r.status.Draft? && r.token != expected ==> out == EditConflict)
            && (id in r.rows && r.status.Draft? && r.token == expected ==>
                  && out == Done && Becomes(r, r', Draft, expected, clock) && OthersStay(r.rows, r'.rows, id)
                  && id in r'.rows && r'.rows[id] == Row(r.rows[id].position, content))
  {
  }

  /** A deletion removes one activity of a DRAFT revision, unless a foreign key forbids it. */
  lemma DeleteAnswers(r: Revision, id: string, blocked: bool, expected: int, clock: int)
    ensures var (r', out) := Perform(r, Call(Delete(id, blocked), expected, clock));
            && (out != Done ==> r' == r)
            && (id !in r.rows ==> out == NotFound)
            && (id in r.rows && !r.status.Draft? ==> out == NotDraft)
            && (id in r.rows && r.status.Draft? && r.token != expected ==> out == EditConflict)
            && (id in r.rows && r.status.Draft? && r.token == expected && blocked ==> out == DeleteBlocked)
            && (id in r.rows && r.status.Draft? && r.token == expected && !blocked ==>
                  && out == Done && Becomes(r, r', Draft, expected, clock) && OthersStay(r.rows, r'.rows, id)
                  && id !in r'.rows)
  {
  }

  /** A reorder of a DRAFT revision puts activity `i` of the request at position `i`, content unchanged. */
  lemma ReorderAnswers(r: Revision, ordered: seq<string>, expected: int, clock: int)
    ensures var (r', out) := Perform(r, Call(Reorder(ordered), expected, clock));
            var exact := (forall i, j :: 0 <= i < |ordered| && 0 <= j < |ordered| && ordered[i] == ordered[j] ==> i == j)
                         && forall id :: id in ordered <==> id in r.rows;
            && (out != Done ==> r' == r)
            && (!r.status.Draft? ==> out == NotDraft)
            && (r.status.Draft? && r.token != expected ==> out == EditConflict)
            && (r.status.Draft? && r.token == expected && !exact ==> out == ReorderInvalid)
            && (r.status.Draft? && r.token == expected && exact ==>
                  && out == Done && Becomes(r, r', Draft, expected, clock) && r'.rows.Keys == r.rows.Keys
                  && forall i :: 0 <= i < |ordered| ==>
                       && ordered[i] in r.rows && ordered[i] in r'.rows
                       && r'.rows[ordered[i]] == Row(i, r.rows[ordered[i]].content))
  {
    assert forall i :: 0 <= i < |ordered| ==> ordered[i] in ordered;
    if Permutes(ordered, r.rows) {
      ReorderedOk(r.rows, ordered);
    }
  }

  /** A lifecycle step needs the status it starts from and the current token, and touches no activity. */
  lemma ShiftAnswers(r: Revision, before: Status, to: Status, expected: int, clock: int)
    ensures var (r', out) := Perform(r, Call(Shift(before, to), expected, clock));
            && (out != Done ==> r' == r)
            && (r.status != before ==> out == NotDraft)
            && (r.status == before && r.token != expected ==> out == EditConflict)
            && (r.status == before && r.token == expected ==>
                  out == Done && Becomes(r, r', to, expected, clock) && r'.rows == r.rows)
  {
  }

  // ---- the two-phase rewrite, write by write ----

  /** The rows after the first `n` position writes: unique negative temporaries first, then 0, 1, ... */
  function AfterWrites(rows: Rows, ordered: seq<string>, n: nat): (r: Rows)
    requires Permutes(ordered, rows) && n <= 2 * |ordered|
    ensures r.Keys == rows.Keys
  {
    if n == 0 then rows
    else
      var before, len := AfterWrites(rows, ordered, n - 1), |ordered|;
      var i := if n <= len then n - 1 else n - 1 - len;
      assert ordered[i] in ordered;
      before[ordered[i] := before[ordered[i]].(position := if n <= len then -(i + 1) else i)]
  }

  /** The id and position of write number `n`, from 0. */
  function Target(ordered: seq<string>, n: nat): (string, int)
    requires n < 2 * |ordered|
  {
    if n < |ordered| then (ordered[n], -(n + 1)) else (ordered[n - |ordered|], n - |ordered|)
  }

  lemma TargetIs(ordered: seq<string>, n: nat, k: nat)
    requires Distinct(ordered) && n < 2 * |ordered| && k < |ordered|
    ensures Target(ordered, n).0 == ordered[k] <==> n == k || n == |ordered| + k
    ensures n == k ==> Target(ordered, n).1 == -(k + 1)
    ensures n == |ordered| + k ==> Target(ordered, n).1 == k
  {
  }

  lemma NoWrites(rows: Rows, ordered: seq<string>)
    requires Permutes(ordered, rows)
    ensures AfterWrites(rows, ordered, 0) == rows
  {
  }

  lemma NextWrite(rows: Rows, ordered: seq<string>, n: nat)
    requires Permutes(ordered, rows) && n < 2 * |ordered|
    ensures var (id, position) := Target(ordered, n); var now := AfterWrites(rows, ordered, n);
            && id in now && AfterWrites(rows, ordered, n + 1) == now[id := now[id].(position := position)]
  {
    assert Target(ordered, n).0 in ordered;
  }

  /** The position of activity `ordered[k]` after `n` writes. */
  function PositionAfter(ordered: seq<string>, n: nat, k: nat, before: int): int
    requires k < |ordered|
  {
    if n > |ordered| + k then k else if n > k then -(k + 1) else before
  }

  lemma {:induction false} WrittenAt(rows: Rows, ordered: seq<string>, n: nat, k: nat)
    requires Permutes(ordered, rows) && n <= 2 * |ordered| && k < |ordered| && ordered[k] in rows
    ensures AfterWrites(rows, ordered, n)[ordered[k]]
            == Row(PositionAfter(ordered, n, k, rows[ordered[k]].position), rows[ordered[k]].content)
  {
    hide AfterWrites, Distinct, Target;
    if n == 0 {
      NoWrites(rows, ordered);
    } else {
      WrittenAt(rows, ordered, n - 1, k);
      NextWrite(rows, ordered, n - 1);
      TargetIs(ordered, n - 1, k);
    }
  }

  /** At no single write do two activities share a position. */
  lemma EveryWriteKeepsDistinct(rows: Rows, ordered: seq<string>, n: nat)
    requires PositionsOk(rows) && Permutes(ordered, rows) && n <= 2 * |ordered|
    ensures var now := AfterWrites(rows, ordered, n);
            forall a, b :: a in now && b in now && now[a].position == now[b].position ==> a == b
  {
    hide AfterWrites;
    var now := AfterWrites(rows, ordered, n);
    forall a, b | a in now && b in now && now[a].position == now[b].position ensures a == b {
      var i, j := IndexIn(ordered, a), IndexIn(ordered, b);
      WrittenAt(rows, ordered, n, i);
      WrittenAt(rows, ordered, n, j);
    }
  }

  lemma AllWrites(rows: Rows, ordered: seq<string>)
    requires Permutes(ordered, rows)
    ensures AfterWrites(rows, ordered, 2 * |ordered|) == Reordered(rows, ordered)
  {
    hide AfterWrites;
    forall id | id in rows ensures AfterWrites(rows, ordered, 2 * |ordered|)[id] == Reordered(rows, ordered)[id] {
      WrittenAt(rows, ordered, 2 * |ordered|, IndexIn(ordered, id));
    }
  }

  // ---- the service ----

  class RevisionTable {
    var status: Status
    var token: int
    var rows: Rows

    function State(): Revision
      reads this
    {
      Revision(status, token, rows)
    }

    constructor (token: int)
      ensures State() == Revision(Draft, token, map[])
    {
      this.status, this.token, this.rows := Draft, token, map[];
    }

    /** The conditional update of the token: on the status and the token the caller read. */
    method Touch(from: Status, to: Status, expected: int, clock: int) returns (count: nat)
      modifies this
      ensures rows == old(rows)
      ensures old(status) == from && old(token) == expected
              ==> count == 1 && status == to && token == NextToken(expected, clock)
      ensures !(old(status) == from && old(token) == expected) ==> count == 0 && State() == old(State())
    {
      count := 0;
      if status == from && token == expected {
        status, token, count := to, NextToken(expected, clock), 1;
      }
    }

    method Claim(expected: int, clock: int) returns (r: Outcome)
      modifies this
      ensures rows == old(rows) && status == old(status)
      ensures r == if old(status) != Draft then NotDraft else if old(token) != expected then EditConflict else Done
      ensures token == if r == Done then NextToken(expected, clock) else old(token)
    {
      if status != Draft {
        return NotDraft;
      }
      var count := Touch(Draft, Draft, expected, clock);
      r := if count == 0 then EditConflict else Done;
    }

    /** One position write; the unique index admits it. */
    method SetPosition(id: string, position: int)
      requires id in rows && !Taken(rows, position, id)
      modifies this`rows
      ensures rows == old(rows)[id := old(rows)[id].(position := position)]
    {
      rows := rows[id := rows[id].(position := position)];
    }

    method CreateActivity(id: string, position: nat, content: string, expected: int, clock: int) returns (r: Outcome)
      modifies this
      ensures (State(), r) == Perform(old(State()), Call(Create(id, position, content), expected, clock))
    {
      var before := token;
      r := Claim(expected, clock);
      if r != Done {
        return;
      }
      if id in rows || exists other :: other in rows && other != id && rows[other].position == position {
        token := before;
        return UniqueConflict;
      }
      rows := rows[id := Row(position, content)];
    }

    method UpdateActivity(id: string, content: string, expected: int, clock: int) returns (r: Outcome)
      modifies this
      ensures (State(), r) == Perform(old(State()), Call(Edit(id, content), expected, clock))
    {
      if id !in rows {
        return NotFound;
      }
      r := Claim(expected, clock);
      if r == Done {
        rows := rows[id := rows[id].(content := content)];
      }
    }

    method DeleteActivity(id: string, blocked: bool, expected: int, clock: int) returns (r: Outcome)
      modifies this
      ensures (State(), r) == Perform(old(State()), Call(Delete(id, blocked), expected, clock))
    {
      if id !in rows {
        return NotFound;
      }
      var before := token;
      r := Claim(expected, clock);
      if r != Done {
        return;
      }
      if blocked {
        token := before;
        return DeleteBlocked;
      }
      rows := rows - {id};
    }

    /** Both phases of position writes, none of which the unique index refuses. */
    method RewritePositions(ordered: seq<string>)
      requires PositionsOk(rows) && Permutes(ordered, rows)
      modifies this`rows
      ensures rows == Reordered(old(rows), ordered)
    {
      hide AfterWrites, PositionsOk, Taken, Reordered, Distinct;
      ghost var start := rows;
      var n := |ordered|;
      NoWrites(start, ordered);
      for i := 0 to n
        invariant rows == AfterWrites(start, ordered, i)
      {
        MayWrite(start, ordered, i);
        assert Target(ordered, i) == (ordered[i], -(i + 1));
        SetPosition(ordered[i], -(i + 1));
      }
      for i := 0 to n
        invariant rows == AfterWrites(start, ordered, n + i)
      {
        MayWrite(start, ordered, n + i);
        assert Target(ordered, n + i) == (ordered[i], i);
        SetPosition(ordered[i], i);
      }
      AllWrites(start, ordered);
    }

    /** Ends in exactly the requested order, or changes nothing. */
    method ReorderActivities(ordered: seq<string>, expected: int, clock: int) returns (r: Outcome)
      requires PositionsOk(rows)
      modifies this
      ensures (State(), r) == Perform(old(State()), Call(Reorder(ordered), expected, clock))
    {
      hide PositionsOk, Reordered, Distinct;
      var before := token;
      r := Claim(expected, clock);
      if r != Done {
        return;
      }
      var exact := ExactSet(ordered, rows.Keys);
      if !exact {
        token := before;
        return ReorderInvalid;
      }
      RewritePositions(ordered);
    }
  }

  /** The next position write is one the unique index admits. */
  lemma MayWrite(rows: Rows, ordered: seq<string>, n: nat)
    requires PositionsOk(rows) && Permutes(ordered, rows) && n < 2 * |ordered|
    ensures var (id, position) := Target(ordered, n); var now := AfterWrites(rows, ordered, n);
            && id in now && !Taken(now, position, id)
            && AfterWrites(rows, ordered, n + 1) == now[id := now[id].(position := position)]
  {
    EveryWriteKeepsDistinct(rows, ordered, n + 1);
    NextWrite(rows, ordered, n);
    hide AfterWrites, Permutes, PositionsOk, Target;
  }

  /** The exact-set check of a reorder request: no duplicate, as many as there are, none unknown. */
  method ExactSet(ordered: seq<string>, ids: set<string>) returns (ok: bool)
    ensures ok <==> Distinct(ordered) && forall id :: id in ordered <==> id in ids
  {
    var asked := Elements(ordered);
    DistinctSize(ordered);
    ExactSizes(ordered, ids);
    if |asked| != |ordered| || |ordered| != |ids| {
      return false;
    }
    for i := 0 to |ordered|
      invariant forall k :: 0 <= k < i ==> ordered[k] in ids
    {
      if ordered[i] !in ids {
        return false;
      }
    }
    SameSize(asked, ids);
    return true;
  }

  lemma ExactSizes(ordered: seq<string>, ids: set<string>)
    ensures (Distinct(ordered) && forall id :: id in ordered <==> id in ids) ==> |ordered| == |ids|
  {
    DistinctSize(ordered);
    if Distinct(ordered) && forall id :: id in ordered <==> id in ids {
      assert Elements(ordered) == ids;
    }
  }

  lemma SameSize(a: set<string>, b: set<string>)
    requires a <= b && |a| == |b|
    ensures a == b
  {
    assert b == a + (b - a);
  }

  // ---- runs ----

  function Run(r: Revision, calls: seq<Call>): Revision
    decreases |calls|
  {
    if calls == [] then r else Perform(Run(r, calls[..|calls| - 1]), calls[|calls| - 1]).0
  }

  /** Call `i` of the run succeeds. */
  predicate Succeeds(r: Revision, calls: seq<Call>, i: nat)
    requires i < |calls|
  {
    Perform(Run(r, calls[..i]), calls[i]).1 == Done
  }

  lemma {:induction false} RunKeepsPositions(r: Revision, calls: seq<Call>)
    requires PositionsOk(r.rows)
    ensures PositionsOk(Run(r, calls).rows)
    decreases |calls|
  {
    if calls != [] {
      RunKeepsPositions(r, calls[..|calls| - 1]);
      PerformKeepsPositions(Run(r, calls[..|calls| - 1]), calls[|calls| - 1]);
    }
  }

  lemma CallEffect(r: Revision, c: Call)
    ensures Perform(r, c).1 == Done ==> r.token == c.expected && Perform(r, c).0.token == NextToken(c.expected, c.clock)
    ensures Perform(r, c).1 != Done ==> Perform(r, c).0 == r
  {
  }

  /** Along a run the token never goes back. */
  lemma {:induction false} TokensGrow(r: Revision, calls: seq<Call>, i: nat, j: nat)
    requires i <= j <= |calls|
    ensures Run(r, calls[..i]).token <= Run(r, calls[..j]).token
    decreases j - i
  {
    if i < j {
      TokensGrow(r, calls, i, j - 1);
      assert calls[..j][..j - 1] == calls[..j - 1];
      CallEffect(Run(r, calls[..j - 1]), calls[j - 1]);
    }
  }

  /** Each success quoted the current token and leaves a greater one; no token succeeds twice, even if the clock goes back. */
  lemma NoTokenTwice(r: Revision, calls: seq<Call>, i: nat, j: nat)
    requires i < j < |calls| && Succeeds(r, calls, i) && Succeeds(r, calls, j)
    ensures calls[i].expected == Run(r, calls[..i]).token
    ensures calls[i].expected < Run(r, calls[..i + 1]).token <= calls[j].expected
  {
    hide Perform;
    assert calls[..i + 1][..i] == calls[..i];
    CallEffect(Run(r, calls[..i]), calls[i]);
    CallEffect(Run(r, calls[..j]), calls[j]);
    TokensGrow(r, calls, i + 1, j);
  }

  /** Of two consecutive successes the second quoted the very token the first left. */
  lemma {:induction false} QuotesPredecessor(r: Revision, calls: seq<Call>, i: nat, j: nat)
    requires i < j < |calls| && Succeeds(r, calls, i) && Succeeds(r, calls, j)
    requires forall k :: i < k < j ==> !Succeeds(r, calls, k)
    ensures calls[j].expected == NextToken(calls[i].expected, calls[i].clock)
  {
    hide Perform;
    assert calls[..i + 1][..i] == calls[..i];
    CallEffect(Run(r, calls[..i]), calls[i]);
    CallEffect(Run(r, calls[..j]), calls[j]);
    QuietBetween(r, calls, i + 1, j);
  }

  lemma {:induction false} QuietBetween(r: Revision, calls: seq<Call>, i: nat, j: nat)
    requires i <= j <= |calls| && forall k :: i <= k < j ==> !Succeeds(r, calls, k)
    ensures Run(r, calls[..j]) == Run(r, calls[..i])
    decreases j - i
  {
    if i < j {
      hide Perform;
      QuietBetween(r, calls, i, j - 1);
      assert calls[..j][..j - 1] == calls[..j - 1];
      CallEffect(Run(r, calls[..j - 1]), calls[j - 1]);
      assert !Succeeds(r, calls, j - 1);
    }
  }
}
