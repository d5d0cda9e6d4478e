/**
 The prerequisite graph: an edge says that `lesson` requires `prerequisite`. Directed walks, reachability and
 acyclicity, the iterative search, and the cycle guard (src/content-authoring/prerequisite-graph.ts).
 */
module PrerequisiteGraph {
  import opened Basics

  type Node = string

  datatype Edge = Edge(lesson: Node, prerequisite: Node)

  // ---- walks ----

  predicate Walk(edges: set<Edge>, w: seq<Node>) {
    |w| > 0 && forall i :: 0 <= i < |w| - 1 ==> Edge(w[i], w[i + 1]) in edges
  }

  predicate WalkFromTo(edges: set<Edge>, w: seq<Node>, a: Node, b: Node) {
    Walk(edges, w) && w[0] == a && w[|w| - 1] == b
  }

  /** A path, possibly of no edge, leads from `a` to `b`. */
  ghost predicate Reach(edges: set<Edge>, a: Node, b: Node) {
    exists w :: WalkFromTo(edges, w, a, b)
  }

  ghost predicate Cyclic(edges: set<Edge>) {
    exists w :: Walk(edges, w) && |w| > 1 && w[0] == w[|w| - 1]
  }

  ghost predicate Acyclic(edges: set<Edge>) { !Cyclic(edges) }

  lemma ReachSelf(edges: set<Edge>, a: Node)
    ensures Reach(edges, a, a)
  {
    assert WalkFromTo(edges, [a], a, a);
  }

  lemma ReachStep(edges: set<Edge>, a: Node, b: Node, c: Node)
    requires Reach(edges, a, b) && Edge(b, c) in edges
    ensures Reach(edges, a, c)
  {
    var w :| WalkFromTo(edges, w, a, b);
    assert WalkFromTo(edges, w + [c], a, c);
  }

  /** What reaches a node of a set closed under edges is in the set. */
  lemma {:induction false} ClosedUnderReach(edges: set<Edge>, closed: set<Node>, w: seq<Node>)
    requires Walk(edges, w) && w[0] in closed
    requires forall e :: e in edges && e.lesson in closed ==> e.prerequisite in closed
    ensures w[|w| - 1] in closed
  {
    if |w| > 1 {
      assert Edge(w[0], w[1]).prerequisite in closed;
      ClosedUnderReach(edges, closed, w[1..]);
    }
  }

  lemma SubgraphAcyclic(edges: set<Edge>, more: set<Edge>)
    requires Acyclic(more) && edges <= more
    ensures Acyclic(edges)
  {
    forall w | Walk(edges, w) ensures Walk(more, w) {}
  }

  // ---- the search ----

  function EdgeSet(edges: seq<Edge>): set<Edge> { set e | e in edges }

  function Endpoints(edges: seq<Edge>): set<Node> {
    (set e | e in edges :: e.lesson) + (set e | e in edges :: e.prerequisite)
  }

  predicate Lists(adj: map<Node, seq<Node>>, n: Node, m: Node) { n in adj && m in adj[n] }

  /** The adjacency map of the edge list. */
  method Adjacency(edges: seq<Edge>) returns (adj: map<Node, seq<Node>>)
    ensures forall n, m :: Lists(adj, n, m) <==> Edge(n, m) in edges
  {
    adj := map[];
    for i := 0 to |edges|
      invariant forall n, m :: Lists(adj, n, m) <==> Edge(n, m) in edges[..i]
    {
      var e := edges[i];
      ghost var before := adj;
      if e.lesson in adj {
        adj := adj[e.lesson := adj[e.lesson] + [e.prerequisite]];
      } else {
        adj := adj[e.lesson := [e.prerequisite]];
      }
      forall n, m ensures Lists(adj, n, m) <==> Lists(before, n, m) || Edge(n, m) == e {}
    }
  }

  /** Pushes the unseen successors of a node. */
  method PushUnseen(nexts: seq<Node>, seen: set<Node>, stack: seq<Node>) returns (pushed: seq<Node>)
    ensures forall n :: n in pushed <==> n in stack || (n in nexts && n !in seen)
  {
    pushed := stack;
    for i := 0 to |nexts|
      invariant forall n :: n in pushed <==> n in stack || (n in nexts[..i] && n !in seen)
    {
      if nexts[i] !in seen {
        pushed := pushed + [nexts[i]];
      }
    }
    assert nexts[..|nexts|] == nexts;
  }

  /** What the map lists for a node reached is its successors, which are reached too. */
  lemma Successors(edges: seq<Edge>, adj: map<Node, seq<Node>>, from: Node, node: Node, nexts: seq<Node>)
    requires forall n, m :: Lists(adj, n, m) <==> Edge(n, m) in edges
    requires nexts == (if node in adj then adj[node] else []) && Reach(EdgeSet(edges), from, node)
    ensures forall n :: n in nexts <==> Edge(node, n) in EdgeSet(edges)
    ensures forall n :: n in nexts ==> n in Endpoints(edges) && Reach(EdgeSet(edges), from, n)
  {
    hide Reach;
    forall n ensures n in nexts <==> Edge(node, n) in EdgeSet(edges) {
      assert Lists(adj, node, n) <==> n in nexts;
    }
    forall n | n in nexts ensures n in Endpoints(edges) && Reach(EdgeSet(edges), from, n) {
      assert Edge(node, n).prerequisite in Endpoints(edges);
      ReachStep(EdgeSet(edges), from, node, n);
    }
  }

  /** Depth-first search over a finite edge list, cyclic or not: true exactly when a path exists. */
  method HasPath(edges: seq<Edge>, from: Node, to: Node) returns (found: bool)
    ensures found <==> Reach(EdgeSet(edges), from, to)
  {
    hide Reach, Walk, WalkFromTo, Lists;
    ghost var graph, nodes := EdgeSet(edges), Endpoints(edges) + {from};
    ReachSelf(graph, from);
    if from == to {
      return true;
    }
    var adj := Adjacency(edges);
    var stack := [from];
    var seen: set<Node> := {};
    while |stack| > 0
      invariant forall n :: n in stack ==> n in nodes && Reach(graph, from, n)
      invariant seen <= nodes && to !in seen
      invariant from in seen || from in stack
      invariant forall e :: e in graph && e.lesson in seen ==> e.prerequisite in seen || e.prerequisite in stack
      decreases |nodes - seen|, |stack|
    {
      var node, rest := stack[|stack| - 1], stack[..|stack| - 1];
      assert forall n :: n in stack <==> n in rest || n == node;
      if node == to {
        return true;
      }
      if node in seen {
        stack := rest;
        continue;
      }
      SmallerSet(nodes - (seen + {node}), nodes - seen);
      var nexts := if node in adj then adj[node] else [];
      Successors(edges, adj, from, node, nexts);
      seen := seen + {node};
      stack := PushUnseen(nexts, seen, rest);
      forall e | e in graph && e.lesson == node ensures e.prerequisite in nexts {}
    }
    Unreached(graph, seen, from, to);
    return false;
  }

  lemma Unreached(edges: set<Edge>, closed: set<Node>, from: Node, to: Node)
    requires from in closed && to !in closed
    requires forall e :: e in edges && e.lesson in closed ==> e.prerequisite in closed
    ensures !Reach(edges, from, to)
  {
    if Reach(edges, from, to) {
      var w :| WalkFromTo(edges, w, from, to);
      ClosedUnderReach(edges, closed, w);
    }
  }

  lemma SmallerSet(a: set<Node>, b: set<Node>)
    requires a < b
    ensures |a| < |b|
  {
    assert b == a + (b - a) && |b - a| > 0;
  }

  // ---- the cycle guard ----

  /** The guard's answer: a self-loop, or a path that the new edge would close. */
  method WouldCreatePrerequisiteCycle(edges: seq<Edge>, lesson: Node, prerequisite: Node) returns (cycle: bool)
    ensures cycle <==> Reach(EdgeSet(edges), prerequisite, lesson)
  {
    if lesson == prerequisite {
      ReachSelf(EdgeSet(edges), lesson);
      return true;
    }
    cycle := HasPath(edges, prerequisite, lesson);
  }

  /** A walk back to where the edge starts need not use the edge. */
  lemma {:induction false} WithoutEdge(edges: set<Edge>, e: Edge, w: seq<Node>)
    requires WalkFromTo(edges + {e}, w, e.prerequisite, e.lesson)
    ensures Reach(edges, e.prerequisite, e.lesson)
  {
    if Walk(edges, w) {
      assert WalkFromTo(edges, w, e.prerequisite, e.lesson);
    } else {
      var i :| 0 <= i < |w| - 1 && Edge(w[i], w[i + 1]) !in edges;
      assert Edge(w[i], w[i + 1]) == e;
      WithoutEdge(edges, e, w[i + 1..]);
    }
  }

  /** A closed walk, started after its step `i`, ends before it. */
  lemma Around(edges: set<Edge>, w: seq<Node>, i: nat)
    requires Walk(edges, w) && |w| > 1 && w[0] == w[|w| - 1] && i < |w| - 1
    ensures WalkFromTo(edges, w[i + 1..] + w[1..i + 1], w[i + 1], w[i])
  {
    var around := w[i + 1..] + w[1..i + 1];
    forall k | 0 <= k < |around| - 1 ensures Edge(around[k], around[k + 1]) in edges {
      var j := if k < |w| - i - 2 then i + 1 + k else k - (|w| - i - 2);
      assert around[k] == w[j] && around[k + 1] == w[j + 1];
    }
  }

  lemma ClosedWalkThrough(edges: set<Edge>, e: Edge, w: seq<Node>)
    requires Acyclic(edges) && Walk(edges + {e}, w) && |w| > 1 && w[0] == w[|w| - 1]
    ensures Reach(edges, e.prerequisite, e.lesson)
  {
    assert !Walk(edges, w);
    var i :| 0 <= i < |w| - 1 && Edge(w[i], w[i + 1]) !in edges;
    assert Edge(w[i], w[i + 1]) == e;
    hide Acyclic, Walk, WalkFromTo, Reach;
    Around(edges + {e}, w, i);
    WithoutEdge(edges, e, w[i + 1..] + w[1..i + 1]);
  }

  /** On an acyclic graph the guard says true exactly when adding the edge makes the graph cyclic. */
  lemma GuardIsExact(edges: set<Edge>, lesson: Node, prerequisite: Node)
    requires Acyclic(edges)
    ensures Reach(edges, prerequisite, lesson) <==> Cyclic(edges + {Edge(lesson, prerequisite)})
  {
    var e := Edge(lesson, prerequisite);
    if Reach(edges, prerequisite, lesson) {
      var w :| WalkFromTo(edges, w, prerequisite, lesson);
      var closed := w + [prerequisite];
      assert Walk(edges + {e}, closed);
    }
    if Cyclic(edges + {e}) {
      var w :| Walk(edges + {e}, w) && |w| > 1 && w[0] == w[|w| - 1];
      ClosedWalkThrough(edges, e, w);
    }
  }

  // ---- renaming and partition ----

  /** A graph whose edges are carried by `rename` onto edges of an acyclic graph is acyclic. */
  lemma AcyclicUnderRenaming(edges: set<Edge>, image: set<Edge>, rename: Node -> Node)
    requires Acyclic(image)
    requires forall e :: e in edges ==> Edge(rename(e.lesson), rename(e.prerequisite)) in image
    ensures Acyclic(edges)
  {
    forall w | Walk(edges, w) && |w| > 1 ensures w[0] != w[|w| - 1] {
      var v := seq(|w|, i requires 0 <= i < |w| => rename(w[i]));
      forall i | 0 <= i < |v| - 1 ensures Edge(v[i], v[i + 1]) in image {
        assert Edge(w[i], w[i + 1]) in edges;
      }
      assert Walk(image, v);
    }
  }

  /** The edges whose source lies in part `p`. */
  function Part(edges: set<Edge>, part: Node -> string, p: string): set<Edge> {
    set e | e in edges && part(e.lesson) == p
  }

  lemma {:induction false} WalkStaysInPart(edges: set<Edge>, part: Node -> string, w: seq<Node>, k: nat)
    requires Walk(edges, w) && k < |w|
    requires forall e :: e in edges ==> part(e.lesson) == part(e.prerequisite)
    ensures part(w[k]) == part(w[0])
  {
    if k > 0 {
      WalkStaysInPart(edges, part, w, k - 1);
      assert Edge(w[k - 1], w[k]) in edges;
    }
  }

  /** When no edge leaves its part, the whole graph is acyclic exactly when each part is. */
  lemma AcyclicByParts(edges: set<Edge>, part: Node -> string)
    requires forall e :: e in edges ==> part(e.lesson) == part(e.prerequisite)
    ensures Acyclic(edges) <==> forall p :: Acyclic(Part(edges, part, p))
  {
    if Acyclic(edges) {
      forall p ensures Acyclic(Part(edges, part, p)) {
        SubgraphAcyclic(Part(edges, part, p), edges);
      }
    }
    if forall p :: Acyclic(Part(edges, part, p)) {
      forall w | Walk(edges, w) && |w| > 1 ensures w[0] != w[|w| - 1] {
        var own := Part(edges, part, part(w[0]));
        forall i | 0 <= i < |w| - 1 ensures Edge(w[i], w[i + 1]) in own {
          WalkStaysInPart(edges, part, w, i);
        }
        assert Walk(own, w) && Acyclic(own);
      }
    }
  }

  // ---- sinks ----

  lemma ClosesCycle(edges: set<Edge>, w: seq<Node>, m: Node)
    requires Walk(edges, w) && m in w && Edge(w[|w| - 1], m) in edges
    ensures Cyclic(edges)
  {
    var i :| 0 <= i < |w| && w[i] == m;
    assert Walk(edges, w[i..] + [m]);
  }

  /** In an acyclic graph a walk goes on to new nodes only. */
  lemma OneFurther(edges: set<Edge>, w: seq<Node>, m: Node)
    requires Acyclic(edges) && Walk(edges, w) && Distinct(w) && Edge(w[|w| - 1], m) in edges
    ensures m !in w && Walk(edges, w + [m]) && Distinct(w + [m])
  {
    if m in w {
      ClosesCycle(edges, w, m);
    }
    hide Cyclic;
    DistinctMore(w, m);
  }

  /** Extends a walk inside `s` until it cannot go on without leaving `s`. */
  lemma {:induction false} SinkFrom(edges: set<Edge>, s: set<Node>, w: seq<Node>) returns (sink: Node)
    requires Acyclic(edges) && Walk(edges, w) && Distinct(w) && forall i :: 0 <= i < |w| ==> w[i] in s
    ensures sink in s && forall m :: m in s ==> Edge(sink, m) !in edges
    decreases |s| - |w|
  {
    var last := w[|w| - 1];
    hide Walk, Acyclic, Distinct;
    if exists m :: m in s && Edge(last, m) in edges {
      var m :| m in s && Edge(last, m) in edges;
      OneFurther(edges, w, m);
      DistinctFits(w + [m], s);
      sink := SinkFrom(edges, s, w + [m]);
    } else {
      sink := last;
    }
  }

  /** In every non-empty set of nodes of an acyclic graph, some node requires no other node of the set. */
  lemma SinkExists(edges: set<Edge>, s: set<Node>) returns (sink: Node)
    requires Acyclic(edges) && s != {}
    ensures sink in s && forall m :: m in s ==> Edge(sink, m) !in edges
  {
    var n :| n in s;
    sink := SinkFrom(edges, s, [n]);
  }
}
