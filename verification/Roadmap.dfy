/**
 Roadmap availability, the day's main point and the day's action (src/placement-v2/placement-v2.service.ts:202-210,
 src/learning-core/v2-roadmap.service.ts:98-113, src/daily-learning/daily-learning.policy.ts:29-53).
 */
module Roadmap {
  import opened Basics
  import opened PrerequisiteGraph

  datatype Point = Point(id: Node, prerequisites: seq<Node>)

  datatype Availability = AVAILABLE | IN_PROGRESS | CONTENT_UNAVAILABLE | LOCKED

  datatype Attention = NoAttention | RepairRequired | ReviewDue

  /** A projected point as the learner sees it. */
  datatype View = View(id: Node, availability: Availability, acquired: bool, attention: Attention)

  predicate Satisfied(p: Point, acquired: set<Node>) { forall q :: q in p.prerequisites ==> q in acquired }

  predicate Known(points: seq<Point>, id: Node) { exists i :: 0 <= i < |points| && points[i].id == id }

  predicate DistinctIds(points: seq<Point>) { forall i, j :: 0 <= i < j < |points| ==> points[i].id != points[j].id }

  function Ids(points: seq<Point>): set<Node> { set i | 0 <= i < |points| :: points[i].id }

  // ---- placement ----

  /** An acquired point, or one whose prerequisites are all acquired, is AVAILABLE; any other is LOCKED. */
  method ComputeAvailability(points: seq<Point>, acquired: set<Node>) returns (out: map<Node, Availability>)
    requires DistinctIds(points)
    ensures out.Keys == Ids(points)
    ensures forall i :: 0 <= i < |points| ==>
              points[i].id in out
              && out[points[i].id] == if points[i].id in acquired || Satisfied(points[i], acquired) then AVAILABLE else LOCKED
  {
    out := map[];
    for i := 0 to |points|
      invariant forall id :: id in out <==> exists j :: 0 <= j < i && points[j].id == id
      invariant forall j :: 0 <= j < i ==>
                  out[points[j].id] == if points[j].id in acquired || Satisfied(points[j], acquired) then AVAILABLE else LOCKED
    {
      var p := points[i];
      if p.id in acquired {
        out := out[p.id := AVAILABLE];
      } else {
        var ready := true;
        for k := 0 to |p.prerequisites|
          invariant ready <==> forall l :: 0 <= l < k ==> p.prerequisites[l] in acquired
        {
          if p.prerequisites[k] !in acquired {
            ready := false;
          }
        }
        out := out[p.id := if ready then AVAILABLE else LOCKED];
      }
    }
  }

  // ---- the projected roadmap ----

  /** What a learner has besides acquisitions: open sessions, and points whose content is missing. */
  datatype Overlay = Overlay(sessions: set<Node>, missing: set<Node>, attention: map<Node, Attention>)

  function Derive(p: Point, acquired: set<Node>, o: Overlay): Availability {
    if p.id in acquired then AVAILABLE
    else if p.id in o.sessions then IN_PROGRESS
    else if p.id in o.missing then CONTENT_UNAVAILABLE
    else if Satisfied(p, acquired) then AVAILABLE
    else LOCKED
  }

  function ViewOf(p: Point, acquired: set<Node>, o: Overlay): View {
    View(p.id, Derive(p, acquired, o), p.id in acquired, if p.id in acquired && p.id in o.attention then o.attention[p.id] else NoAttention)
  }

  function Views(points: seq<Point>, acquired: set<Node>, o: Overlay): (r: seq<View>)
    ensures |r| == |points| && forall i :: 0 <= i < |r| ==> r[i] == ViewOf(points[i], acquired, o)
  {
    if points == [] then [] else [ViewOf(points[0], acquired, o)] + Views(points[1..], acquired, o)
  }

  predicate Open(a: Availability) { a.AVAILABLE? || a.IN_PROGRESS? }

  predicate Learnable(v: View) { Open(v.availability) && !v.acquired }

  /** The first learnable point in canonical order. */
  function MainPoint(views: seq<View>): (r: Option<View>)
    ensures r.Some? ==> r.value in views && Learnable(r.value)
    ensures r.None? <==> forall v :: v in views ==> !Learnable(v)
  {
    if views == [] then None else if Learnable(views[0]) then Some(views[0]) else MainPoint(views[1..])
  }

  lemma {:induction false} MainPointIsFirst(views: seq<View>, i: nat)
    requires i < |views| && Learnable(views[i]) && forall j :: 0 <= j < i ==> !Learnable(views[j])
    ensures MainPoint(views) == Some(views[i])
  {
    if i > 0 {
      MainPointIsFirst(views[1..], i - 1);
    }
  }

  // ---- no learner is ever stuck ----

  /** The prerequisite graph of the published points. */
  function Graph(points: seq<Point>): set<Edge> {
    set i, k | 0 <= i < |points| && 0 <= k < |points[i].prerequisites| :: Edge(points[i].id, points[i].prerequisites[k])
  }

  ghost predicate Closed(points: seq<Point>) {
    forall i, k :: 0 <= i < |points| && 0 <= k < |points[i].prerequisites| ==> points[i].prerequisites[k] in Ids(points)
  }

  /** Some point not yet acquired has all its prerequisites acquired. */
  ghost predicate CanGoOn(points: seq<Point>, acquired: set<Node>) {
    exists i :: 0 <= i < |points| && points[i].id !in acquired && Satisfied(points[i], acquired)
  }

  ghost predicate Unfinished(points: seq<Point>, acquired: set<Node>) {
    exists i :: 0 <= i < |points| && points[i].id !in acquired
  }

  lemma NotStuck(points: seq<Point>, acquired: set<Node>)
    requires Acyclic(Graph(points)) && Closed(points) && Unfinished(points, acquired)
    ensures CanGoOn(points, acquired)
  {
    var left := Ids(points) - acquired;
    var i :| 0 <= i < |points| && points[i].id !in acquired;
    assert points[i].id in left;
    var sink := SinkExists(Graph(points), left);
    var j :| 0 <= j < |points| && points[j].id == sink;
    forall q | q in points[j].prerequisites ensures q in acquired {
      var k :| 0 <= k < |points[j].prerequisites| && points[j].prerequisites[k] == q;
      assert Edge(sink, q) in Graph(points);
      assert points[j].prerequisites[k] in Ids(points);
    }
    assert Satisfied(points[j], acquired);
  }

  /** A point that requires itself through others, or requires an unpublished point, can never be reached. */
  lemma StuckOnCycle(points: seq<Point>, w: seq<Node>)
    requires DistinctIds(points) && Walk(Graph(points), w) && |w| > 1 && w[0] == w[|w| - 1]
    ensures var acquired := Ids(points) - (set n | n in w); Unfinished(points, acquired) && !CanGoOn(points, acquired)
  {
    var acquired := Ids(points) - (set n | n in w);
    assert Edge(w[0], w[1]) in Graph(points);
    var first :| 0 <= first < |points| && points[first].id == w[0];
    assert points[first].id !in acquired;
    forall i | 0 <= i < |points| && points[i].id !in acquired ensures !Satisfied(points[i], acquired) {
      assert points[i].id in Ids(points);
      NextOnCycle(points, w, points[i].id);
      var q :| q in w && Edge(points[i].id, q) in Graph(points);
      var j, k :| 0 <= j < |points| && 0 <= k < |points[j].prerequisites|
                  && Edge(points[j].id, points[j].prerequisites[k]) == Edge(points[i].id, q);
      assert j == i && q in points[i].prerequisites;
    }
  }

  lemma NextOnCycle(points: seq<Point>, w: seq<Node>, n: Node)
    requires Walk(Graph(points), w) && |w| > 1 && w[0] == w[|w| - 1] && n in w
    ensures exists q :: q in w && Edge(n, q) in Graph(points)
  {
    var k :| 0 <= k < |w| && w[k] == n;
    var at := if k == |w| - 1 then 0 else k;
    assert Edge(w[at], w[at + 1]) in Graph(points) && w[at + 1] in w;
  }

  lemma StuckOutside(points: seq<Point>, i: nat, k: nat)
    requires DistinctIds(points) && i < |points| && k < |points[i].prerequisites| && points[i].prerequisites[k] !in Ids(points)
    ensures var acquired := Ids(points) - {points[i].id}; Unfinished(points, acquired) && !CanGoOn(points, acquired)
  {
    var acquired := Ids(points) - {points[i].id};
    assert points[i].id !in acquired;
    forall j | 0 <= j < |points| && points[j].id !in acquired ensures !Satisfied(points[j], acquired) {
      assert points[j].id in Ids(points);
      assert j == i;
      assert points[i].prerequisites[k] in points[i].prerequisites;
    }
  }

  /** Whatever published points a learner has acquired, there is a next one: exactly when the graph is acyclic and closed. */
  lemma NeverStuckExactly(points: seq<Point>)
    requires DistinctIds(points)
    ensures (forall acquired :: acquired <= Ids(points) && Unfinished(points, acquired) ==> CanGoOn(points, acquired))
            <==> Acyclic(Graph(points)) && Closed(points)
  {
    hide Ids, Graph, Unfinished, CanGoOn, Walk;
    if Acyclic(Graph(points)) && Closed(points) {
      forall acquired | acquired <= Ids(points) && Unfinished(points, acquired) ensures CanGoOn(points, acquired) {
        NotStuck(points, acquired);
      }
    }
    if Cyclic(Graph(points)) {
      var w :| Walk(Graph(points), w) && |w| > 1 && w[0] == w[|w| - 1];
      StuckOnCycle(points, w);
    }
    if !Closed(points) {
      var i, k :| 0 <= i < |points| && 0 <= k < |points[i].prerequisites| && points[i].prerequisites[k] !in Ids(points);
      StuckOutside(points, i, k);
    }
  }

  // ---- what the learner is offered ----

  ghost predicate Sound(points: seq<Point>, o: Overlay) {
    DistinctIds(points) && Acyclic(Graph(points)) && Closed(points) && forall i :: 0 <= i < |points| ==> points[i].id !in o.missing
  }

  /** While a point is left to acquire, the main point of the day is one of them. */
  lemma AlwaysAMainPoint(points: seq<Point>, acquired: set<Node>, o: Overlay)
    requires Sound(points, o) && Unfinished(points, acquired)
    ensures MainPoint(Views(points, acquired, o)).Some?
    ensures var id := MainPoint(Views(points, acquired, o)).value.id; id in Ids(points) && id !in acquired
  {
    NotStuck(points, acquired);
    var i :| 0 <= i < |points| && points[i].id !in acquired && Satisfied(points[i], acquired);
    var views := Views(points, acquired, o);
    assert views[i] in views && Learnable(views[i]);
    var v := MainPoint(views).value;
    var j :| 0 <= j < |views| && views[j] == v;
    assert v == ViewOf(points[j], acquired, o);
  }

  /** Acquiring points never closes one that was open. */
  lemma AvailabilityNeverShrinks(p: Point, acquired: set<Node>, more: set<Node>, o: Overlay)
    requires acquired <= more && Open(Derive(p, acquired, o))
    ensures Open(Derive(p, more, o))
  {
  }

  /** The set acquired after `days` days of acquiring each day's main point. */
  function Study(points: seq<Point>, acquired: set<Node>, o: Overlay, days: nat): set<Node> {
    if days == 0 then acquired
    else
      var before := Study(points, acquired, o, days - 1);
      var main := MainPoint(Views(points, before, o));
      if main.Some? then before + {main.value.id} else before
  }

  lemma OneLess(all: set<Node>, done: set<Node>, id: Node)
    requires done <= all && id in all && id !in done
    ensures done + {id} <= all && |all - (done + {id})| == |all - done| - 1
  {
    assert all - (done + {id}) == (all - done) - {id};
  }

  lemma OneDay(points: seq<Point>, before: set<Node>, o: Overlay)
    requires Sound(points, o) && before <= Ids(points) && |Ids(points) - before| > 0
    ensures MainPoint(Views(points, before, o)).Some?
    ensures var next := before + {MainPoint(Views(points, before, o)).value.id};
            next <= Ids(points) && |Ids(points) - next| == |Ids(points) - before| - 1
  {
    hide Sound, Views, MainPoint, Ids, Unfinished;
    SomeLeft(points, before);
    AlwaysAMainPoint(points, before, o);
    OneLess(Ids(points), before, MainPoint(Views(points, before, o)).value.id);
  }

  lemma {:induction false} StudyProgresses(points: seq<Point>, acquired: set<Node>, o: Overlay, days: nat)
    requires Sound(points, o) && acquired <= Ids(points) && days <= |Ids(points) - acquired|
    ensures acquired <= Study(points, acquired, o, days) <= Ids(points)
    ensures |Ids(points) - Study(points, acquired, o, days)| == |Ids(points) - acquired| - days
  {
    hide Sound, Views, MainPoint, Ids;
    if days > 0 {
      StudyProgresses(points, acquired, o, days - 1);
      OneDay(points, Study(points, acquired, o, days - 1), o);
    }
  }

  lemma SomeLeft(points: seq<Point>, acquired: set<Node>)
    requires |Ids(points) - acquired| > 0
    ensures Unfinished(points, acquired)
  {
    var left := Ids(points) - acquired;
    assert left != {};
    var id :| id in left;
    var i :| 0 <= i < |points| && points[i].id == id;
  }

  /** Every learner finishes, in exactly as many days as points are left. */
  lemma EveryLearnerFinishes(points: seq<Point>, acquired: set<Node>, o: Overlay)
    requires Sound(points, o) && acquired <= Ids(points)
    ensures Study(points, acquired, o, |Ids(points) - acquired|) == Ids(points)
  {
    var days := |Ids(points) - acquired|;
    StudyProgresses(points, acquired, o, days);
    assert Ids(points) - Study(points, acquired, o, days) == {};
  }

  // ---- the action of the day ----

  datatype Action = Learn(id: Node) | Repair(id: Node) | Review(id: Node) | Finished

  predicate NeedsRepair(v: View) { v.acquired && v.attention.RepairRequired? }

  predicate NeedsReview(v: View) { v.acquired && v.attention.ReviewDue? }

  method FindFirst(views: seq<View>, wanted: View -> bool) returns (i: nat)
    ensures i <= |views| && (i < |views| ==> wanted(views[i]))
    ensures forall j :: 0 <= j < i ==> !wanted(views[j])
  {
    i := 0;
    while i < |views| && !wanted(views[i])
      invariant i <= |views| && forall j :: 0 <= j < i ==> !wanted(views[j])
    {
      i := i + 1;
    }
  }

  method SelectMainPoint(views: seq<View>) returns (r: Option<View>)
    ensures r == MainPoint(views)
  {
    var i := FindFirst(views, v => Learnable(v));
    if i == |views| {
      return None;
    }
    MainPointIsFirst(views, i);
    r := Some(views[i]);
  }

  /** The first point wanted, in canonical order. */
  ghost predicate IsFirst(views: seq<View>, wanted: View -> bool, i: nat) {
    i < |views| && wanted(views[i]) && forall j :: 0 <= j < i ==> !wanted(views[j])
  }

  ghost predicate IsFirstNamed(views: seq<View>, id: Node, i: nat) {
    i < |views| && views[i].id == id && forall j :: 0 <= j < i ==> views[j].id != id
  }

  ghost predicate NoneWanted(views: seq<View>, wanted: View -> bool) {
    forall i :: 0 <= i < |views| ==> !wanted(views[i])
  }

  /**
   Repair before review before the pinned point; the only new learning ever offered is the pinned point. Repair and
   review are of the first point that needs them in canonical order. Exactly one of the cases holds.
   */
  ghost predicate IsTodayAction(views: seq<View>, pinned: Option<Node>, a: Action) {
    match a
    case Repair(id) => exists i: nat :: IsFirst(views, NeedsRepair, i) && views[i].id == id
    case Review(id) =>
      NoneWanted(views, NeedsRepair) && exists i: nat :: IsFirst(views, NeedsReview, i) && views[i].id == id
    case Learn(id) =>
      && NoneWanted(views, NeedsRepair) && NoneWanted(views, NeedsReview) && pinned == Some(id)
      && exists i: nat :: IsFirstNamed(views, id, i) && Learnable(views[i])
    case Finished =>
      && NoneWanted(views, NeedsRepair) && NoneWanted(views, NeedsReview)
      && (pinned.Some? ==> forall i: nat :: IsFirstNamed(views, pinned.value, i) ==> !Learnable(views[i]))
  }

  lemma TodayActionIsUnique(views: seq<View>, pinned: Option<Node>, a: Action, b: Action)
    requires IsTodayAction(views, pinned, a) && IsTodayAction(views, pinned, b)
    ensures a == b
  {
    hide NeedsRepair, NeedsReview, Learnable;
    forall wanted, i: nat, j: nat | IsFirst(views, wanted, i) && IsFirst(views, wanted, j) ensures i == j {}
    forall wanted, i: nat | IsFirst(views, wanted, i) ensures !NoneWanted(views, wanted) {}
  }

  method DeriveTodayAction(views: seq<View>, pinned: Option<Node>) returns (a: Action)
    ensures IsTodayAction(views, pinned, a)
  {
    var i := FindFirst(views, v => NeedsRepair(v));
    if i < |views| {
      assert IsFirst(views, NeedsRepair, i);
      return Repair(views[i].id);
    }
    i := FindFirst(views, v => NeedsReview(v));
    if i < |views| {
      assert IsFirst(views, NeedsReview, i);
      return Review(views[i].id);
    }
    if pinned.Some? {
      i := FindFirst(views, (v: View) => v.id == pinned.value);
      if i < |views| {
        assert IsFirstNamed(views, pinned.value, i);
        if Learnable(views[i]) {
          return Learn(views[i].id);
        }
      }
    }
    a := Finished;
  }
}
