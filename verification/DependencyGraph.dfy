/**
  The dependency graph of a task and the depth-first search that rejects cycles.

  An edge (x, y) says that step x depends on step y.  The search is the source's: one
  recursive procedure over two shared sets, `visiting` (the current chain of ancestors) and
  `visited` (finished nodes).  Two ghost fields carry the argument: `stack` lists `visiting`
  as a walk, `order` lists `visited` so that every node comes after all its successors.
 */
module DependencyGraph {

  type Node = nat
  type Edge = (Node, Node)

  ghost predicate IsWalk(edges: set<Edge>, p: seq<Node>) {
    forall i :: 0 <= i < |p| - 1 ==> (p[i], p[i + 1]) in edges
  }

  /** A closed walk of any length; a self-loop is the walk [x, x]. */
  ghost predicate IsCycle(edges: set<Edge>, p: seq<Node>) {
    |p| >= 2 && p[0] == p[|p| - 1] && IsWalk(edges, p)
  }

  ghost predicate NoCycle(edges: set<Edge>) {
    forall p :: !IsCycle(edges, p)
  }

  /** `order` lists distinct nodes, each after everything it has an edge to. */
  ghost predicate IsTopological(edges: set<Edge>, order: seq<Node>) {
    && (forall i, j :: 0 <= i < j < |order| ==> order[i] != order[j])
    && (forall i, y :: 0 <= i < |order| && (order[i], y) in edges ==> y in order[..i])
  }

  /** Along a walk that starts in a topological order, positions only go down. */
  lemma {:induction false} WalkDescends(edges: set<Edge>, order: seq<Node>, p: seq<Node>, start: nat)
    requires IsTopological(edges, order)
    requires |p| >= 1 && IsWalk(edges, p)
    requires start < |order| && order[start] == p[0]
    ensures exists k: nat :: k <= start && k < |order| && order[k] == p[|p| - 1] && (|p| >= 2 ==> k < start)
  {
    if |p| == 1 {
      assert order[start] == p[|p| - 1];
    } else {
      assert (p[0], p[1]) in edges;
      assert p[1] in order[..start];
      var k :| 0 <= k < start && order[k] == p[1];
      WalkDescends(edges, order, p[1..], k);
      assert p[1..][|p[1..]| - 1] == p[|p| - 1];
    }
  }

  /** An order that covers every source of an edge rules out every cycle. */
  lemma TopologicalHasNoCycle(edges: set<Edge>, order: seq<Node>)
    requires IsTopological(edges, order)
    requires forall x, y :: (x, y) in edges ==> x in order
    ensures NoCycle(edges)
  {
    forall p ensures !IsCycle(edges, p) {
      if IsCycle(edges, p) {
        assert (p[0], p[1]) in edges;
        var i :| 0 <= i < |order| && order[i] == p[0];
        WalkDescends(edges, order, p, i);
        assert false;
      }
    }
  }

  lemma {:induction false} DistinctFits(p: seq<Node>, nodes: set<Node>)
    requires forall i, j :: 0 <= i < j < |p| ==> p[i] != p[j]
    requires forall i :: 0 <= i < |p| ==> p[i] in nodes
    ensures |p| <= |nodes|
  {
    if p != [] {
      var rest := p[..|p| - 1];
      DistinctFits(rest, nodes - {p[|p| - 1]});
    }
  }

  /** A walk of distinct nodes that can always be continued inside a finite set closes up. */
  lemma {:induction false} EndlessWalkCloses(edges: set<Edge>, nodes: set<Node>, p: seq<Node>)
    requires |p| >= 1 && IsWalk(edges, p)
    requires forall i, j :: 0 <= i < j < |p| ==> p[i] != p[j]
    requires forall i :: 0 <= i < |p| ==> p[i] in nodes
    requires forall x :: x in nodes ==> exists y :: y in nodes && (x, y) in edges
    ensures exists c :: IsCycle(edges, c)
    decreases |nodes| - |p|
  {
    DistinctFits(p, nodes);
    var last := p[|p| - 1];
    var y :| y in nodes && (last, y) in edges;
    if y in p {
      BackEdgeCloses(edges, p, y);
    } else {
      WalkExtends(edges, p, y);
      DistinctFits(p + [y], nodes);
      EndlessWalkCloses(edges, nodes, p + [y]);
    }
  }

  lemma WalkExtends(edges: set<Edge>, p: seq<Node>, node: Node)
    requires IsWalk(edges, p) && (p != [] ==> (p[|p| - 1], node) in edges)
    ensures IsWalk(edges, p + [node])
  {
  }

  lemma BackEdgeCloses(edges: set<Edge>, p: seq<Node>, node: Node)
    requires IsWalk(edges, p) && node in p && (p[|p| - 1], node) in edges
    ensures exists c :: IsCycle(edges, c)
  {
    var k :| 0 <= k < |p| && p[k] == node;
    assert IsCycle(edges, p[k..] + [node]);
  }

  /** In a cycle-free graph every non-empty finite set of nodes has a member with no edge back into the set. */
  lemma AcyclicHasSink(edges: set<Edge>, nodes: set<Node>) returns (sink: Node)
    requires NoCycle(edges) && nodes != {}
    ensures sink in nodes && forall y :: y in nodes ==> (sink, y) !in edges
  {
    if forall x :: x in nodes ==> exists y :: y in nodes && (x, y) in edges {
      var x :| x in nodes;
      EndlessWalkCloses(edges, nodes, [x]);
      assert false;
    }
    sink :| sink in nodes && !exists y :: y in nodes && (sink, y) in edges;
  }

  /** The set of edges in an edge list. */
  function EdgeSet(edges: seq<Edge>): set<Edge> {
    set e | e in edges
  }

  /** Successors of x in the order the edge list names them: the source's `graph[x]`. */
  function Successors(edges: seq<Edge>, x: Node): (ys: seq<Node>)
    ensures forall y :: y in ys <==> (x, y) in edges
  {
    if edges == [] then []
    else
      var last := edges[|edges| - 1];
      var before := Successors(edges[..|edges| - 1], x);
      assert edges == edges[..|edges| - 1] + [last];
      if last.0 == x then before + [last.1] else before
  }

  /** The dictionary of successors and its keys in the order they were met. */
  method BuildGraph(list: seq<Edge>) returns (graph: map<Node, seq<Node>>, keys: seq<Node>)
    ensures forall x :: x in keys <==> x in graph
    ensures forall x :: x in graph <==> Successors(list, x) != []
    ensures forall x :: x in graph ==> graph[x] == Successors(list, x)
  {
    graph, keys := map[], [];
    var i := 0;
    while i < |list|
      invariant 0 <= i <= |list|
      invariant forall x :: x in keys <==> x in graph
      invariant forall x :: x in graph <==> Successors(list[..i], x) != []
      invariant forall x :: x in graph ==> graph[x] == Successors(list[..i], x)
    {
      var (source, target) := list[i];
      assert list[..i + 1][..i] == list[..i];
      if source !in graph {
        graph := graph[source := []];
        keys := keys + [source];
      }
      graph := graph[source := graph[source] + [target]];
      i := i + 1;
    }
    assert list[..i] == list;
  }

  ghost function Endpoints(edges: set<Edge>): (nodes: set<Node>)
    ensures forall x, y :: (x, y) in edges ==> x in nodes && y in nodes
  {
    (set e | e in edges :: e.0) + (set e | e in edges :: e.1)
  }

  class CycleSearch {
    var graph: map<Node, seq<Node>>
    var keys: seq<Node>
    var visiting: set<Node>
    var visited: set<Node>
    ghost const edges: set<Edge>
    ghost const universe: set<Node>
    ghost var stack: seq<Node>
    ghost var order: seq<Node>

    ghost predicate GraphOk()
      reads this`graph, this`keys
    {
      && (forall x :: x in keys <==> x in graph)
      && (forall x :: x in graph ==> graph[x] != [])
      && (forall x, y :: x in graph && y in graph[x] ==> (x, y) in edges)
      && (forall x, y :: (x, y) in edges ==> x in graph && y in graph[x])
      && (forall x, y :: (x, y) in edges ==> x in universe && y in universe)
    }

    ghost predicate Valid()
      reads this
    {
      && GraphOk()
      && IsWalk(edges, stack)
      && (forall x :: x in stack <==> x in visiting)
      && (forall x :: x in order <==> x in visited)
      && IsTopological(edges, order)
      && visiting !! visited
      && visiting <= universe
    }

    constructor (list: seq<Edge>)
      ensures edges == EdgeSet(list)
      ensures Valid() && stack == [] && order == []
      ensures fresh(this)
    {
      var built, order := BuildGraph(list);
      edges, universe := EdgeSet(list), Endpoints(EdgeSet(list));
      graph, keys := built, order;
      visiting, visited, stack, this.order := {}, {}, [], [];
    }

    /** One visit: it fails only on a genuine cycle; success leaves `node` visited and the ancestors as they were. */
    method Dfs(node: Node) returns (ok: bool)
      requires Valid() && node in universe
      requires stack != [] ==> (stack[|stack| - 1], node) in edges
      modifies this`visiting, this`visited, this`stack, this`order
      ensures ok ==> Valid() && stack == old(stack) && visiting == old(visiting)
      ensures ok ==> node in visited && old(visited) <= visited
      ensures !ok ==> exists p :: IsCycle(edges, p)
      decreases universe - visiting
    {
      if node in visiting {
        BackEdgeCloses(edges, stack, node);
        return false;
      }
      if node in visited {
        return true;
      }
      ghost var outer := stack;
      visiting := visiting + {node};
      stack := stack + [node];
      WalkExtends(edges, outer, node);
      var children := if node in graph then graph[node] else [];
      var i := 0;
      while i < |children|
        invariant 0 <= i <= |children|
        invariant Valid() && stack == outer + [node]
        invariant visiting == old(visiting) + {node}
        invariant old(visited) <= visited
        invariant forall j :: 0 <= j < i ==> children[j] in visited
      {
        assert (node, children[i]) in edges;
        var fine := Dfs(children[i]);
        if !fine {
          return false;
        }
        i := i + 1;
      }
      visiting := visiting - {node};
      stack := outer;
      TopologicalExtends(edges, order, node);
      visited := visited + {node};
      order := order + [node];
      return true;
    }

    /** Starts a visit at every key of the dictionary, in order, stopping at the first failure. */
    method VisitAll() returns (ok: bool)
      requires Valid() && stack == []
      modifies this`visiting, this`visited, this`stack, this`order
      ensures ok <==> NoCycle(edges)
    {
      var i := 0;
      while i < |keys|
        invariant 0 <= i <= |keys|
        invariant Valid() && stack == []
        invariant forall j :: 0 <= j < i ==> keys[j] in visited
      {
        assert (keys[i], graph[keys[i]][0]) in edges;
        var fine := Dfs(keys[i]);
        if !fine {
          return false;
        }
        i := i + 1;
      }
      TopologicalHasNoCycle(edges, order);
      return true;
    }
  }

  lemma TopologicalExtends(edges: set<Edge>, order: seq<Node>, node: Node)
    requires IsTopological(edges, order)
    requires node !in order
    requires forall y :: (node, y) in edges ==> y in order
    ensures IsTopological(edges, order + [node])
  {
    var longer := order + [node];
    forall i, y | 0 <= i < |longer| && (longer[i], y) in edges
      ensures y in longer[..i]
    {
      if i < |order| {
        assert longer[..i] == order[..i];
      } else {
        assert longer[..i] == order;
      }
    }
  }

  /** The source's `validate_no_dependency_cycle`: true exactly when the edge list has no directed cycle. */
  method ValidateNoDependencyCycle(edges: seq<Edge>) returns (ok: bool)
    ensures ok <==> NoCycle(EdgeSet(edges))
  {
    var search := new CycleSearch(edges);
    ok := search.VisitAll();
  }
}
