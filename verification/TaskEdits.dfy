/**
  What edits do to the graph of a task.

  The service keeps steps in a list and dependencies in lists inside the steps.  Here a task is its graph: the ids in
  order, the facts of each step, and the edges from steps to what they depend on.  A batch is accepted exactly when
  its operations are allowed one after the other on the graph, and what it leaves is what they make of the graph.
 */
module TaskEdits {
  import opened Wrappers
  import opened DependencyGraph
  import opened TaskModel
  import opened TaskOperations

  // ---------------------------------------------------------------- the graph of a task

  /** A step without its id and its dependencies. */
  datatype Facts = Facts(status: StepStatus, required: bool, owner: Option<Owner>, lease: Option<Time>)

  datatype Graph = Graph(status: TaskStatus, order: seq<StepId>, steps: map<StepId, Facts>, edges: set<Edge>)

  function FactsOf(s: Step): Facts { Facts(s.status, s.required, s.owner, s.lease) }

  /** The order and the facts are those of the list of steps. */
  ghost predicate Lists(order: seq<StepId>, facts: map<StepId, Facts>, steps: seq<Step>) {
    && |order| == |steps|
    && (forall i :: 0 <= i < |steps| ==>
          order[i] == steps[i].id && steps[i].id in facts && facts[steps[i].id] == FactsOf(steps[i]))
    && (forall id :: id in facts ==> id in order)
  }

  /** The graph says what the task says. */
  ghost predicate Shows(g: Graph, t: Task) {
    g.status == t.status && Lists(g.order, g.steps, t.steps) && g.edges == DependencyEdges(t.steps)
  }

  function Ids(steps: seq<Step>): seq<StepId> {
    seq(|steps|, i requires 0 <= i < |steps| => steps[i].id)
  }

  function FactsAt(steps: seq<Step>, id: StepId): Facts {
    if Has(steps, id) then FactsOf(steps[Find(steps, id)]) else Facts(Pending, false, None, None)
  }

  ghost function GraphOf(t: Task): (g: Graph)
    ensures UniqueIds(t.steps) ==> Shows(g, t)
  {
    var facts := map id | id in Ids(t.steps) :: FactsAt(t.steps, id);
    var g := Graph(t.status, Ids(t.steps), facts, DependencyEdges(t.steps));
    GraphShows(t, g);
    g
  }

  lemma GraphShows(t: Task, g: Graph)
    requires g.status == t.status && g.order == Ids(t.steps) && g.edges == DependencyEdges(t.steps)
    requires g.steps == map id | id in Ids(t.steps) :: FactsAt(t.steps, id)
    ensures UniqueIds(t.steps) ==> Shows(g, t)
  {
    if UniqueIds(t.steps) {
      forall i | 0 <= i < |t.steps|
        ensures t.steps[i].id in g.steps && g.steps[t.steps[i].id] == FactsOf(t.steps[i])
      {
        assert Ids(t.steps)[i] == t.steps[i].id;
        FindUnique(t.steps, i);
      }
    }
  }

  // ---------------------------------------------------------------- edits of a graph

  /** Position of an id in an order that has it. */
  function IndexOf(order: seq<StepId>, id: StepId): (k: nat)
    requires id in order
    ensures k < |order| && order[k] == id
  {
    if order[0] == id then 0 else 1 + IndexOf(order[1..], id)
  }

  /** The list without its position i. */
  function Cut<T>(s: seq<T>, i: nat): seq<T>
    requires i < |s|
  {
    s[..i] + s[i + 1..]
  }

  ghost function Fan(id: StepId, deps: seq<StepId>): set<Edge> { set d | d in deps :: (id, d) }

  ghost function NotFrom(edges: set<Edge>, id: StepId): set<Edge> { set e | e in edges && e.0 != id }

  /** When an edit is allowed. */
  ghost predicate Allowed(g: Graph, op: Operation) {
    match op
    case EditTask(status) =>
      status.Some? ==> status.value.TaskBlocked? || (status.value.TaskPending? && g.status.TaskBlocked?)
    case AddStep(raw) => raw.id !in g.steps
    case EditStep(id, _, _) => id in g.steps
    case DeleteStep(id) =>
      && id in g.steps
      && (g.steps[id].status.Pending? || g.steps[id].status.Ready? || g.steps[id].status.Cancelled?)
      && forall e :: e in g.edges ==> e.1 != id
    case AddDependency(id, dep) => id in g.steps && dep in g.steps
    case RemoveDependency(id, dep) => id in g.steps
    case CancelStep(id) => id in g.steps && !g.steps[id].status.Claimed? && !g.steps[id].status.Running?
    case ReopenStep(id) => id in g.steps && !g.steps[id].status.Cancelled?
    case UnknownOperation => false
  }

  /** What an allowed edit leaves. */
  ghost function Edited(g: Graph, op: Operation): Graph
    requires Allowed(g, op) && forall id :: id in g.steps ==> id in g.order
  {
    match op
    case EditTask(status) => if status.Some? then g.(status := status.value) else g
    case AddStep(raw) =>
      g.(order := g.order + [raw.id], steps := g.steps[raw.id := Facts(raw.status, raw.required, None, None)],
         edges := g.edges + Fan(raw.id, raw.deps))
    case EditStep(id, required, deps) =>
      g.(steps := if required.Some? then g.steps[id := g.steps[id].(required := required.value)] else g.steps,
         edges := if deps.Some? then NotFrom(g.edges, id) + Fan(id, deps.value) else g.edges)
    case DeleteStep(id) =>
      var k := IndexOf(g.order, id);
      g.(order := Cut(g.order, k), steps := g.steps - {id}, edges := NotFrom(g.edges, id))
    case AddDependency(id, dep) => g.(edges := g.edges + {(id, dep)})
    case RemoveDependency(id, dep) => g.(edges := g.edges - {(id, dep)})
    case CancelStep(id) => g.(steps := g.steps[id := g.steps[id].(status := Cancelled)])
    case ReopenStep(id) =>
      if g.steps[id].status.Blocked? || g.steps[id].status.Failed?
      then g.(steps := g.steps[id := g.steps[id].(status := Pending)]) else g
  }

  // ---------------------------------------------------------------- one edit

  lemma ShownHas(g: Graph, t: Task, id: StepId)
    requires Shows(g, t)
    ensures id in g.steps <==> Has(t.steps, id)
    ensures Has(t.steps, id) ==> g.steps[id] == FactsOf(t.steps[Find(t.steps, id)])
  {
    if id in g.steps {
      var i :| 0 <= i < |g.order| && g.order[i] == id;
      assert t.steps[i].id == id;
    }
  }

  lemma EdgesSplit(steps: seq<Step>, i: nat, s: Step)
    requires UniqueIds(steps) && i < |steps| && s.id == steps[i].id
    ensures DependencyEdges(steps[i := s]) == NotFrom(DependencyEdges(steps), s.id) + Fan(s.id, s.deps)
  {
    var after := steps[i := s];
    forall e: Edge
      ensures e in DependencyEdges(after) <==> e in NotFrom(DependencyEdges(steps), s.id) + Fan(s.id, s.deps)
    {
      if e in DependencyEdges(after) {
        var k, d :| 0 <= k < |after| && d in after[k].deps && e == (after[k].id, d);
        if k != i {
          assert steps[k] == after[k] && steps[k].id != s.id;
        }
      }
      if e in NotFrom(DependencyEdges(steps), s.id) {
        var k, d :| 0 <= k < |steps| && d in steps[k].deps && e == (steps[k].id, d);
        assert after[k] == steps[k];
      }
      if e in Fan(s.id, s.deps) {
        assert after[i] == s && e.1 in after[i].deps;
      }
    }
  }

  lemma ListsReplaced(order: seq<StepId>, facts: map<StepId, Facts>, steps: seq<Step>, i: nat, s: Step)
    requires Lists(order, facts, steps) && UniqueIds(steps) && i < |steps| && s.id == steps[i].id
    ensures Lists(order, facts[s.id := FactsOf(s)], steps[i := s]) && UniqueIds(steps[i := s])
  {
    assert order[i] == s.id;
  }

  /** Replacing a step, with its facts and its edges. */
  lemma ShowsReplaced(g: Graph, t: Task, i: nat, s: Step, g': Graph)
    requires Shows(g, t) && UniqueIds(t.steps) && i < |t.steps| && s.id == t.steps[i].id
    requires g'.status == g.status && g'.order == g.order && g'.steps == g.steps[s.id := FactsOf(s)]
    requires g'.edges == NotFrom(g.edges, s.id) + Fan(s.id, s.deps)
    ensures Shows(g', t.(steps := t.steps[i := s])) && UniqueIds(t.steps[i := s])
  {
    EdgesSplit(t.steps, i, s);
    ListsReplaced(g.order, g.steps, t.steps, i, s);
  }

  /** The edges of a step are a fan of the edges. */
  lemma FanOf(steps: seq<Step>, i: nat)
    requires UniqueIds(steps) && i < |steps|
    ensures DependencyEdges(steps) == NotFrom(DependencyEdges(steps), steps[i].id) + Fan(steps[i].id, steps[i].deps)
  {
    EdgesSplit(steps, i, steps[i]);
    assert steps[i := steps[i]] == steps;
  }

  lemma SameFacts(facts: map<StepId, Facts>, id: StepId, f: Facts)
    requires id in facts && facts[id] == f
    ensures facts[id := f] == facts
  {
  }

  /** A step whose edges stay. */
  lemma FactsReplaced(g: Graph, t: Task, i: nat, s: Step)
    requires Shows(g, t) && UniqueIds(t.steps) && i < |t.steps| && s.id == t.steps[i].id && s.deps == t.steps[i].deps
    ensures Shows(g.(steps := g.steps[s.id := FactsOf(s)]), t.(steps := t.steps[i := s])) && UniqueIds(t.steps[i := s])
  {
    FanOf(t.steps, i);
    ShowsReplaced(g, t, i, s, g.(steps := g.steps[s.id := FactsOf(s)]));
  }

  /** A step whose facts stay. */
  lemma EdgesReplaced(g: Graph, t: Task, i: nat, deps: seq<StepId>, edges: set<Edge>)
    requires Shows(g, t) && UniqueIds(t.steps) && i < |t.steps|
    requires edges == NotFrom(g.edges, t.steps[i].id) + Fan(t.steps[i].id, deps)
    ensures var u := t.(steps := t.steps[i := t.steps[i].(deps := deps)]);
      Shows(g.(edges := edges), u) && UniqueIds(u.steps)
  {
    var s := t.steps[i].(deps := deps);
    assert FactsOf(s) == FactsOf(t.steps[i]);
    SameFacts(g.steps, s.id, FactsOf(s));
    ShowsReplaced(g, t, i, s, g.(edges := edges));
  }

  lemma SetStatus(g: Graph, t: Task, i: nat, status: StepStatus)
    requires Shows(g, t) && UniqueIds(t.steps) && i < |t.steps|
    ensures t.steps[i].id in g.steps
    ensures var u := t.(steps := t.steps[i := t.steps[i].(status := status)]);
      var id := t.steps[i].id;
      Shows(g.(steps := g.steps[id := g.steps[id].(status := status)]), u) && UniqueIds(u.steps)
  {
    FactsReplaced(g, t, i, t.steps[i].(status := status));
  }

  lemma EditFields(g: Graph, t: Task, i: nat, id: StepId, required: Option<bool>, deps: Option<seq<StepId>>)
    requires Shows(g, t) && UniqueIds(t.steps) && i < |t.steps| && t.steps[i].id == id && id in g.steps
    ensures var u := ApplyToStep(t, EditStep(id, required, deps), i).value;
      Shows(Edited(g, EditStep(id, required, deps)), u) && UniqueIds(u.steps)
  {
    var step := t.steps[i];
    var s := step.(required := if required.Some? then required.value else step.required,
                  deps := if deps.Some? then deps.value else step.deps);
    assert g.steps[id] == FactsOf(step);
    FanOf(t.steps, i);
    if required.None? {
      SameFacts(g.steps, id, FactsOf(s));
    }
    ShowsReplaced(g, t, i, s, Edited(g, EditStep(id, required, deps)));
  }

  lemma TurnEdge(g: Graph, t: Task, i: nat, id: StepId, dep: StepId, add: bool, deps: seq<StepId>)
    requires Shows(g, t) && UniqueIds(t.steps) && i < |t.steps| && t.steps[i].id == id
    requires forall d :: d in deps <==> if d == dep then add else d in t.steps[i].deps
    ensures var u := t.(steps := t.steps[i := t.steps[i].(deps := deps)]);
      && Shows(g.(edges := if add then g.edges + {(id, dep)} else g.edges - {(id, dep)}), u)
      && UniqueIds(u.steps)
  {
    FanOf(t.steps, i);
    EdgeTurned(g.edges, id, t.steps[i].deps, dep, add, deps);
    EdgesReplaced(g, t, i, deps, if add then g.edges + {(id, dep)} else g.edges - {(id, dep)});
  }

  lemma SameStep(steps: seq<Step>, i: nat, s: Step)
    requires i < |steps| && s == steps[i]
    ensures steps[i := s] == steps
  {
  }

  lemma AddEdge(g: Graph, t: Task, i: nat, id: StepId, dep: StepId)
    requires Shows(g, t) && UniqueIds(t.steps) && i < |t.steps| && t.steps[i].id == id
    requires Allowed(g, AddDependency(id, dep)) && Has(t.steps, dep)
    ensures var u := ApplyToStep(t, AddDependency(id, dep), i).value;
      Shows(Edited(g, AddDependency(id, dep)), u) && UniqueIds(u.steps)
  {
    var deps := t.steps[i].deps;
    var after := if dep in deps then deps else deps + [dep];
    TurnEdge(g, t, i, id, dep, true, after);
    if dep in deps {
      SameStep(t.steps, i, t.steps[i].(deps := after));
    }
  }

  lemma EdgeTurned(edges: set<Edge>, id: StepId, deps: seq<StepId>, dep: StepId, add: bool, after: seq<StepId>)
    requires edges == NotFrom(edges, id) + Fan(id, deps)
    requires forall d :: d in after <==> if d == dep then add else d in deps
    ensures (if add then edges + {(id, dep)} else edges - {(id, dep)}) == NotFrom(edges, id) + Fan(id, after)
  {
    var turned := if add then edges + {(id, dep)} else edges - {(id, dep)};
    forall e: Edge
      ensures e in turned <==> e in NotFrom(edges, id) + Fan(id, after)
    {
      assert e in Fan(id, after) <==> e.0 == id && e.1 in after;
      assert e in Fan(id, deps) <==> e.0 == id && e.1 in deps;
    }
  }

  lemma WithoutLast(front: seq<Step>, last: Step, id: StepId)
    ensures WithoutStep(front + [last], id) == WithoutStep(front, id) + (if last.id == id then [] else [last])
  {
    assert (front + [last])[..|front|] == front;
  }

  ghost predicate Spared(steps: seq<Step>, id: StepId) { WithoutStep(steps, id) == steps }

  lemma SparedLonger(front: seq<Step>, last: Step, id: StepId)
    requires Spared(front, id) && last.id != id
    ensures Spared(front + [last], id)
  {
    WithoutLast(front, last, id);
  }

  lemma {:induction false} NothingWithout(steps: seq<Step>, id: StepId)
    requires forall i :: 0 <= i < |steps| ==> steps[i].id != id
    ensures Spared(steps, id)
    decreases |steps|
  {
    if steps != [] {
      var front, last := steps[..|steps| - 1], steps[|steps| - 1];
      NothingWithout(front, id);
      SparedLonger(front, last, id);
      assert front + [last] == steps;
    }
  }

  lemma CutLonger(front: seq<Step>, last: Step, i: nat)
    requires i <= |front|
    ensures Cut(front + [last], i) == if i < |front| then Cut(front, i) + [last] else front
  {
  }

  ghost predicate CutsOut(steps: seq<Step>, i: nat)
    requires i < |steps|
  {
    WithoutStep(steps, steps[i].id) == Cut(steps, i)
  }

  lemma CutsOutLonger(front: seq<Step>, last: Step, i: nat)
    requires i < |front| && CutsOut(front, i) && last.id != front[i].id
    ensures CutsOut(front + [last], i)
  {
    WithoutLast(front, last, front[i].id);
    CutLonger(front, last, i);
  }

  lemma CutsOutLast(front: seq<Step>, last: Step)
    requires Spared(front, last.id)
    ensures CutsOut(front + [last], |front|)
  {
    WithoutLast(front, last, last.id);
    CutLonger(front, last, |front|);
    assert front + [] == front;
  }

  /** Filtering out an id that occurs once cuts out its position. */
  lemma {:induction false} WithoutOne(steps: seq<Step>, i: nat)
    requires UniqueIds(steps) && i < |steps|
    ensures CutsOut(steps, i)
    decreases |steps|
  {
    var front, last := steps[..|steps| - 1], steps[|steps| - 1];
    if i < |front| {
      WithoutOne(front, i);
      CutsOutLonger(front, last, i);
    } else {
      NothingWithout(front, last.id);
      CutsOutLast(front, last);
    }
    assert front + [last] == steps;
  }

  lemma EdgesWithout(steps: seq<Step>, i: nat)
    requires UniqueIds(steps) && i < |steps|
    ensures DependencyEdges(Cut(steps, i)) == NotFrom(DependencyEdges(steps), steps[i].id)
  {
    var after := Cut(steps, i);
    forall e: Edge
      ensures e in DependencyEdges(after) <==> e in NotFrom(DependencyEdges(steps), steps[i].id)
    {
      if e in DependencyEdges(after) {
        var k, d :| 0 <= k < |after| && d in after[k].deps && e == (after[k].id, d);
        var j := if k < i then k else k + 1;
        assert steps[j] == after[k] && steps[j].id != steps[i].id;
      }
      if e in NotFrom(DependencyEdges(steps), steps[i].id) {
        var j, d :| 0 <= j < |steps| && d in steps[j].deps && e == (steps[j].id, d);
        var k := if j < i then j else j - 1;
        assert after[k] == steps[j];
      }
    }
  }

  lemma IndexShown(g: Graph, t: Task, i: nat)
    requires Shows(g, t) && UniqueIds(t.steps) && i < |t.steps|
    ensures t.steps[i].id in g.order && IndexOf(g.order, t.steps[i].id) == i
  {
    assert g.order[i] == t.steps[i].id;
    var k := IndexOf(g.order, t.steps[i].id);
    assert t.steps[k].id == t.steps[i].id;
  }

  lemma CutAt<T>(s: seq<T>, i: nat, k: nat)
    requires i < |s| && k < |s| - 1
    ensures Cut(s, i)[k] == s[if k < i then k else k + 1]
  {
  }

  lemma CutHas<T>(s: seq<T>, i: nat, j: nat)
    requires i < |s| && j < |s| && i != j
    ensures s[j] in Cut(s, i)
  {
    assert Cut(s, i)[if j < i then j else j - 1] == s[j];
  }

  lemma ListsCut(order: seq<StepId>, facts: map<StepId, Facts>, steps: seq<Step>, i: nat)
    requires Lists(order, facts, steps) && UniqueIds(steps) && i < |steps|
    ensures Lists(Cut(order, i), facts - {steps[i].id}, Cut(steps, i)) && UniqueIds(Cut(steps, i))
  {
    forall k | 0 <= k < |steps| - 1
      ensures Cut(order, i)[k] == order[if k < i then k else k + 1]
      ensures Cut(steps, i)[k] == steps[if k < i then k else k + 1]
    {
      CutAt(order, i, k);
      CutAt(steps, i, k);
    }
    forall x | x in facts && x != steps[i].id
      ensures x in Cut(order, i)
    {
      var j :| 0 <= j < |order| && order[j] == x;
      CutHas(order, i, j);
    }
  }

  lemma DeleteOne(g: Graph, t: Task, id: StepId, i: nat)
    requires Shows(g, t) && UniqueIds(t.steps) && i < |t.steps| && t.steps[i].id == id
    requires Allowed(g, DeleteStep(id))
    ensures var u := t.(steps := WithoutStep(t.steps, id));
      Shows(Edited(g, DeleteStep(id)), u) && UniqueIds(u.steps)
  {
    WithoutOne(t.steps, i);
    EdgesWithout(t.steps, i);
    IndexShown(g, t, i);
    ListsCut(g.order, g.steps, t.steps, i);
  }

  lemma EdgesMore(steps: seq<Step>, s: Step)
    ensures DependencyEdges(steps + [s]) == DependencyEdges(steps) + Fan(s.id, s.deps)
  {
    var longer := steps + [s];
    assert longer[|steps|] == s && forall k :: 0 <= k < |steps| ==> longer[k] == steps[k];
    forall e: Edge
      ensures e in DependencyEdges(longer) <==> e in DependencyEdges(steps) + Fan(s.id, s.deps)
    {
      if e in DependencyEdges(longer) {
        var k, d :| 0 <= k < |longer| && d in longer[k].deps && e == (longer[k].id, d);
      }
      if e in DependencyEdges(steps) {
        var k, d :| 0 <= k < |steps| && d in steps[k].deps && e == (steps[k].id, d);
        assert d in longer[k].deps;
      }
      if e in Fan(s.id, s.deps) {
        assert e.1 in longer[|steps|].deps;
      }
    }
  }

  lemma ListsMore(order: seq<StepId>, facts: map<StepId, Facts>, steps: seq<Step>, s: Step)
    requires Lists(order, facts, steps) && UniqueIds(steps) && s.id !in facts
    ensures Lists(order + [s.id], facts[s.id := FactsOf(s)], steps + [s]) && UniqueIds(steps + [s])
  {
    var longer := order + [s.id];
    assert longer[|order|] == s.id && forall k :: 0 <= k < |order| ==> longer[k] == order[k];
  }

  lemma AddOne(g: Graph, t: Task, raw: NewStep)
    requires Shows(g, t) && UniqueIds(t.steps) && Allowed(g, AddStep(raw))
    ensures var u := t.(steps := t.steps + [StepFromInput(raw)]);
      Shows(Edited(g, AddStep(raw)), u) && UniqueIds(u.steps)
  {
    EdgesMore(t.steps, StepFromInput(raw));
    ListsMore(g.order, g.steps, t.steps, StepFromInput(raw));
  }

  /** No step depends on this one. */
  lemma NoneDepends(g: Graph, t: Task, id: StepId)
    requires Shows(g, t)
    ensures (exists j :: 0 <= j < |t.steps| && id in t.steps[j].deps) <==> exists e :: e in g.edges && e.1 == id
  {
    if j :| 0 <= j < |t.steps| && id in t.steps[j].deps {
      assert (t.steps[j].id, id) in DependencyEdges(t.steps);
    }
    if e :| e in g.edges && e.1 == id {
      var k, d :| 0 <= k < |t.steps| && d in t.steps[k].deps && e == (t.steps[k].id, d);
    }
  }

  /** The service takes an edit exactly when it is allowed on the graph, and leaves what it makes of the graph. */
  lemma OperationOnGraph(g: Graph, t: Task, op: Operation)
    requires Shows(g, t) && UniqueIds(t.steps)
    ensures ApplyOperation(t, op).Some? <==> Allowed(g, op)
    ensures Allowed(g, op) ==> Shows(Edited(g, op), ApplyOperation(t, op).value)
    ensures Allowed(g, op) ==> UniqueIds(ApplyOperation(t, op).value.steps)
  {
    match op
    case EditTask(_) =>
    case UnknownOperation =>
    case AddStep(raw) =>
      ShownHas(g, t, raw.id);
      if Allowed(g, op) {
        AddOne(g, t, raw);
      }
    case _ =>
      ShownHas(g, t, op.id);
      if Has(t.steps, op.id) {
        StepOnGraph(g, t, op, Find(t.steps, op.id));
      }
  }

  lemma StepOnGraph(g: Graph, t: Task, op: Operation, i: nat)
    requires !op.EditTask? && !op.AddStep? && !op.UnknownOperation?
    requires Shows(g, t) && UniqueIds(t.steps) && i < |t.steps| && t.steps[i].id == op.id
    ensures ApplyToStep(t, op, i).Some? <==> Allowed(g, op)
    ensures Allowed(g, op) ==> Shows(Edited(g, op), ApplyToStep(t, op, i).value)
    ensures Allowed(g, op) ==> UniqueIds(ApplyToStep(t, op, i).value.steps)
  {
    StepAllowed(g, t, op, i);
    if Allowed(g, op) {
      AllowedStep(g, t, op, i);
    }
  }

  lemma AllowedStep(g: Graph, t: Task, op: Operation, i: nat)
    requires !op.EditTask? && !op.AddStep? && !op.UnknownOperation?
    requires Shows(g, t) && UniqueIds(t.steps) && i < |t.steps| && t.steps[i].id == op.id
    requires Allowed(g, op) && ApplyToStep(t, op, i).Some?
    ensures Shows(Edited(g, op), ApplyToStep(t, op, i).value) && UniqueIds(ApplyToStep(t, op, i).value.steps)
  {
    match op
    case EditStep(id, required, deps) => EditFields(g, t, i, id, required, deps);
    case DeleteStep(id) => DeleteOne(g, t, id, i);
    case AddDependency(id, dep) => AddEdge(g, t, i, id, dep);
    case RemoveDependency(id, dep) => TurnEdge(g, t, i, id, dep, false, Without(t.steps[i].deps, dep));
    case CancelStep(_) => SetStatus(g, t, i, Cancelled);
    case ReopenStep(_) =>
      if t.steps[i].status.Blocked? || t.steps[i].status.Failed? {
        SetStatus(g, t, i, Pending);
      }
  }

  lemma StepAllowed(g: Graph, t: Task, op: Operation, i: nat)
    requires !op.EditTask? && !op.AddStep? && !op.UnknownOperation?
    requires Shows(g, t) && UniqueIds(t.steps) && i < |t.steps| && t.steps[i].id == op.id
    ensures ApplyToStep(t, op, i).Some? <==> Allowed(g, op)
    ensures op.DeleteStep? && Allowed(g, op) ==>
      ApplyToStep(t, op, i) == Some(t.(steps := WithoutStep(t.steps, op.id)))
  {
    ShownHas(g, t, op.id);
    FindUnique(t.steps, i);
    match op
    case DeleteStep(id) => NoneDepends(g, t, id);
    case AddDependency(_, dep) => ShownHas(g, t, dep);
    case _ =>
  }

  // ---------------------------------------------------------------- batches

  ghost predicate Proper(g: Graph) { forall id :: id in g.steps ==> id in g.order }

  /** The graph after a batch; None when an edit is not allowed where it comes, or reopens a step that is new. */
  ghost function EditedAll(g: Graph, ops: seq<Operation>): (r: Option<Graph>)
    requires Proper(g)
    ensures r.Some? ==> Proper(r.value)
  {
    if ops == [] then Some(g)
    else
      var n := |ops| - 1;
      var before := EditedAll(g, ops[..n]);
      if before.None? || !Allowed(before.value, ops[n]) || (ops[n].ReopenStep? && ops[n].id !in g.steps) then None
      else (EditedProper(before.value, ops[n]); Some(Edited(before.value, ops[n])))
  }

  lemma EditedProper(g: Graph, op: Operation)
    requires Proper(g) && Allowed(g, op)
    ensures Proper(Edited(g, op))
  {
    if op.DeleteStep? {
      var k := IndexOf(g.order, op.id);
      forall x | x in Edited(g, op).steps
        ensures x in Edited(g, op).order
      {
        var j :| 0 <= j < |g.order| && g.order[j] == x;
        assert Edited(g, op).order[if j < k then j else j - 1] == x;
      }
    }
  }

  /** A batch goes through exactly when its edits are allowed one after the other, and edits the task as the graph. */
  lemma {:induction false} BatchOnGraph(g: Graph, t: Task, ops: seq<Operation>)
    requires Shows(g, t) && UniqueIds(t.steps)
    ensures ApplyBatch(t, ops).Some? <==> EditedAll(g, ops).Some?
    ensures ApplyBatch(t, ops).Some? ==> Shows(EditedAll(g, ops).value, ApplyBatch(t, ops).value.task)
    ensures ApplyBatch(t, ops).Some? ==> UniqueIds(ApplyBatch(t, ops).value.task.steps)
  {
    if ops != [] {
      var n := |ops| - 1;
      BatchOnGraph(g, t, ops[..n]);
      if ApplyBatch(t, ops[..n]).Some? {
        OperationOnGraph(EditedAll(g, ops[..n]).value, ApplyBatch(t, ops[..n]).value.task, ops[n]);
        if ops[n].ReopenStep? {
          ShownHas(g, t, ops[n].id);
        }
      }
    }
  }

  // ---------------------------------------------------------------- promotion of a graph

  /** All that the step depends on is completed. */
  ghost predicate Unblocked(g: Graph, id: StepId) {
    forall e :: e in g.edges && e.0 == id ==> e.1 in g.steps && g.steps[e.1].status.Completed?
  }

  ghost function PromotedFacts(g: Graph, id: StepId): Facts
    requires id in g.steps
  {
    var f := g.steps[id];
    if f.status.Pending? || f.status.Ready? then f.(status := if Unblocked(g, id) then Ready else Pending) else f
  }

  predicate Busy(s: StepStatus) { s.Ready? || s.Claimed? || s.Running? }

  ghost function PromotedGraph(g: Graph): Graph {
    var steps := map id | id in g.steps :: PromotedFacts(g, id);
    var starts := g.status.TaskPending? && exists id :: id in steps && Busy(steps[id].status);
    g.(steps := steps, status := if starts then TaskRunning else g.status)
  }

  lemma UnblockedIff(g: Graph, t: Task, i: nat)
    requires Shows(g, t) && UniqueIds(t.steps) && i < |t.steps|
    ensures Unblocked(g, t.steps[i].id) <==> DepsMet(t.steps[i], CompletedIds(t.steps))
  {
    var id := t.steps[i].id;
    forall d: StepId
      ensures (id, d) in g.edges <==> d in t.steps[i].deps
      ensures d in CompletedIds(t.steps) <==> d in g.steps && g.steps[d].status.Completed?
    {
      if (id, d) in g.edges {
        var k, x :| 0 <= k < |t.steps| && x in t.steps[k].deps && (id, d) == (t.steps[k].id, x);
        assert k == i;
      }
      ShownHas(g, t, d);
      if d in CompletedIds(t.steps) {
        var k :| 0 <= k < |t.steps| && t.steps[k].status.Completed? && t.steps[k].id == d;
        FindUnique(t.steps, k);
      }
    }
    if Unblocked(g, id) {
      forall d | d in t.steps[i].deps
        ensures d in CompletedIds(t.steps)
      {
        assert (id, d) in g.edges;
      }
    }
  }

  lemma ActiveIff(order: seq<StepId>, facts: map<StepId, Facts>, steps: seq<Step>)
    requires Lists(order, facts, steps)
    ensures AnyActive(steps) <==> exists id :: id in facts && Busy(facts[id].status)
  {
    if i :| 0 <= i < |steps| && (steps[i].status.Ready? || Live(steps[i])) {
      assert Busy(facts[steps[i].id].status);
    }
    if id :| id in facts && Busy(facts[id].status) {
      var k :| 0 <= k < |order| && order[k] == id;
      assert steps[k].id == id;
    }
  }

  lemma PromotedLists(g: Graph, t: Task)
    requires Shows(g, t) && UniqueIds(t.steps)
    ensures Lists(g.order, PromotedGraph(g).steps, PromoteReady(t.steps))
  {
    var facts, after := PromotedGraph(g).steps, PromoteReady(t.steps);
    forall i | 0 <= i < |after|
      ensures after[i].id in facts && facts[after[i].id] == FactsOf(after[i])
    {
      UnblockedIff(g, t, i);
    }
  }

  /** Promotion works on the graph: readiness is read off the edges. */
  lemma PromoteOnGraph(g: Graph, t: Task)
    requires Shows(g, t) && UniqueIds(t.steps)
    ensures Shows(PromotedGraph(g), Promote(t))
  {
    PromotedLists(g, t);
    ActiveIff(g.order, PromotedGraph(g).steps, PromoteReady(t.steps));
    assert DependencyEdges(PromoteReady(t.steps)) == DependencyEdges(t.steps);
  }

  // ---------------------------------------------------------------- the operations

  /** Dependencies exist and do not run in a circle. */
  ghost predicate SoundGraph(g: Graph) {
    (forall e :: e in g.edges ==> e.1 in g.steps) && NoCycle(g.edges)
  }

  lemma SoundIff(g: Graph, t: Task)
    requires Shows(g, t) && UniqueIds(t.steps)
    ensures SoundDag(t.steps) <==> SoundGraph(g)
  {
    forall i, d | 0 <= i < |t.steps| && d in t.steps[i].deps
      ensures (t.steps[i].id, d) in g.edges && (d in g.steps <==> Has(t.steps, d))
    {
      ShownHas(g, t, d);
    }
    forall e | e in g.edges
      ensures exists i, d :: 0 <= i < |t.steps| && d in t.steps[i].deps && e == (t.steps[i].id, d)
      ensures e.1 in g.steps <==> Has(t.steps, e.1)
    {
      ShownHas(g, t, e.1);
    }
  }

  /** Some x comes before some y. */
  ghost predicate Precedes(order: seq<StepId>, x: StepId, y: StepId) {
    exists i, j :: 0 <= i < j < |order| && order[i] == x && order[j] == y
  }

  ghost predicate InOrder(order: seq<StepId>, ids: seq<StepId>) {
    forall a, b :: 0 <= a < b < |ids| ==> Precedes(order, ids[a], ids[b])
  }

  /** The roots are the steps that depend on nothing, in the order of the steps. */
  ghost predicate RootsOf(g: Graph, roots: seq<StepId>) {
    && (forall id :: id in roots <==> id in g.order && forall e :: e in g.edges ==> e.0 != id)
    && InOrder(g.order, roots)
  }

  /**
    `update_task`.  A batch is accepted exactly when the task is not finished, its edits are allowed one after the
    other, and the graph they leave is closed and acyclic; the task is then that graph, promoted.
   */
  lemma UpdateOnGraph(t: Task, ops: seq<Operation>)
    requires UniqueIds(t.steps)
    ensures UpdateTask(t, ops).Accepted? <==>
      && !t.status.TaskCompleted? && !t.status.TaskFailed? && !t.status.TaskCancelled?
      && EditedAll(GraphOf(t), ops).Some? && SoundGraph(EditedAll(GraphOf(t), ops).value)
    ensures UpdateTask(t, ops).Accepted? ==>
      var g := PromotedGraph(EditedAll(GraphOf(t), ops).value);
      Shows(g, UpdateTask(t, ops).task) && RootsOf(g, UpdateTask(t, ops).task.roots)
  {
    BatchOnGraph(GraphOf(t), t, ops);
    if ApplyBatch(t, ops).Some? {
      var g, u := EditedAll(GraphOf(t), ops).value, ApplyBatch(t, ops).value.task;
      SoundIff(g, u);
      PromoteOnGraph(g, u);
      RootsShown(PromotedGraph(g), Promote(u));
    }
  }

  lemma RootsLonger(front: seq<Step>, last: Step)
    ensures Roots(front + [last]) == Roots(front) + (if last.deps == [] then [last.id] else [])
  {
    assert (front + [last])[..|front|] == front;
  }

  /** Where the roots are. */
  ghost predicate RootsAt(steps: seq<Step>, at: seq<nat>, roots: seq<StepId>) {
    && |at| == |roots|
    && (forall k :: 0 <= k < |at| ==> at[k] < |steps| && steps[at[k]].id == roots[k] && steps[at[k]].deps == [])
    && (forall k, l :: 0 <= k < l < |at| ==> at[k] < at[l])
    && (forall i :: 0 <= i < |steps| && steps[i].deps == [] ==> i in at)
  }

  lemma Positions(at: seq<nat>, n: nat)
    ensures var more := at + [n];
      more[|at|] == n && (forall k :: 0 <= k < |at| ==> more[k] == at[k]) && forall x :: x in at || x == n ==> x in more
  {
    var more := at + [n];
    assert more[|at|] == n;
    forall x | x in at
      ensures x in more
    {
      var k :| 0 <= k < |at| && at[k] == x;
      assert more[k] == x;
    }
  }

  lemma RootsAtLonger(front: seq<Step>, last: Step, at: seq<nat>, roots: seq<StepId>)
    requires RootsAt(front, at, roots)
    ensures last.deps == [] ==> RootsAt(front + [last], at + [|front|], roots + [last.id])
    ensures last.deps != [] ==> RootsAt(front + [last], at, roots)
  {
    Positions(at, |front|);
  }

  lemma {:induction false} RootPositions(steps: seq<Step>) returns (at: seq<nat>)
    ensures RootsAt(steps, at, Roots(steps))
    decreases |steps|
  {
    if steps == [] {
      at := [];
    } else {
      var front, last := steps[..|steps| - 1], steps[|steps| - 1];
      at := RootPositions(front);
      RootsAtLonger(front, last, at, Roots(front));
      RootsLonger(front, last);
      if last.deps == [] {
        at := at + [|front|];
      }
      assert Roots(front) + [] == Roots(front);
      assert front + [last] == steps;
    }
  }

  lemma RootsShown(g: Graph, t: Task)
    requires Shows(g, t) && UniqueIds(t.steps)
    ensures RootsOf(g, Roots(t.steps))
  {
    var at := RootPositions(t.steps);
    RootsInOrder(g.order, t.steps, at, Roots(t.steps));
    forall id: StepId
      ensures id in Roots(t.steps) <==> id in g.order && forall e :: e in g.edges ==> e.0 != id
    {
      RootIff(g, t, at, Roots(t.steps), id);
    }
  }

  lemma RootsInOrder(order: seq<StepId>, steps: seq<Step>, at: seq<nat>, roots: seq<StepId>)
    requires RootsAt(steps, at, roots) && |order| == |steps|
    requires forall i :: 0 <= i < |steps| ==> order[i] == steps[i].id
    ensures InOrder(order, roots)
  {
    forall a, b | 0 <= a < b < |roots|
      ensures Precedes(order, roots[a], roots[b])
    {
      assert order[at[a]] == roots[a] && order[at[b]] == roots[b];
    }
  }

  lemma RootIff(g: Graph, t: Task, at: seq<nat>, roots: seq<StepId>, id: StepId)
    requires Shows(g, t) && UniqueIds(t.steps) && RootsAt(t.steps, at, roots)
    ensures id in roots <==> id in g.order && forall e :: e in g.edges ==> e.0 != id
  {
    if id in roots {
      var k :| 0 <= k < |at| && roots[k] == id;
      RootHasNoEdge(g, t, at[k]);
      assert g.order[at[k]] == id;
    }
    if id in g.order && forall e :: e in g.edges ==> e.0 != id {
      var i :| 0 <= i < |g.order| && g.order[i] == id;
      RootHasNoEdge(g, t, i);
      var k :| 0 <= k < |at| && at[k] == i;
      assert roots[k] == id;
    }
  }

  lemma RootHasNoEdge(g: Graph, t: Task, i: nat)
    requires Shows(g, t) && UniqueIds(t.steps) && i < |t.steps|
    ensures t.steps[i].deps == [] <==> forall e :: e in g.edges ==> e.0 != t.steps[i].id
  {
    if t.steps[i].deps != [] {
      assert t.steps[i].deps[0] in t.steps[i].deps;
      assert (t.steps[i].id, t.steps[i].deps[0]) in g.edges;
    }
    if e :| e in g.edges && e.0 == t.steps[i].id {
      var k, d :| 0 <= k < |t.steps| && d in t.steps[k].deps && e == (t.steps[k].id, d);
      assert k == i;
    }
  }

  // ---------------------------------------------------------------- creation

  const EMPTY := Graph(TaskPending, [], map[], {})

  function Adding(raws: seq<NewStep>): seq<Operation> {
    seq(|raws|, i requires 0 <= i < |raws| => AddStep(raws[i]))
  }

  ghost predicate Added(steps: seq<Step>, b: Option<Batch>) {
    && (b.Some? <==> UniqueIds(steps))
    && (b.Some? ==> b.value.task == Task(TaskPending, [], steps))
  }

  lemma AddedMore(steps: seq<Step>, b: Option<Batch>, raw: NewStep)
    requires Added(steps, b)
    ensures Added(steps + [StepFromInput(raw)],
                  if b.None? then None else BatchStep(Task(TaskPending, [], []), b.value, AddStep(raw)))
  {
    LastUnique(steps, StepFromInput(raw));
  }

  /** Adding distinct steps to an empty task gives the created list of steps. */
  lemma {:induction false} AddingAll(raws: seq<NewStep>)
    ensures Added(StepsFromInput(raws), ApplyBatch(Task(TaskPending, [], []), Adding(raws)))
    decreases |raws|
  {
    if raws != [] {
      var n := |raws| - 1;
      AddingAll(raws[..n]);
      AddedMore(StepsFromInput(raws[..n]), ApplyBatch(Task(TaskPending, [], []), Adding(raws[..n])), raws[n]);
      assert Adding(raws)[..n] == Adding(raws[..n]);
      assert StepsFromInput(raws) == StepsFromInput(raws[..n]) + [StepFromInput(raws[n])];
    }
  }

  lemma LastUnique(steps: seq<Step>, s: Step)
    ensures UniqueIds(steps + [s]) <==> UniqueIds(steps) && !Has(steps, s.id)
  {
    var longer := steps + [s];
    assert longer[|steps|] == s && forall k :: 0 <= k < |steps| ==> longer[k] == steps[k];
    if Has(steps, s.id) {
      assert longer[Find(steps, s.id)].id == longer[|steps|].id;
    }
  }

  /** `create_task` is adding the steps to an empty task, one after the other. */
  lemma CreateOnGraph(raws: seq<NewStep>)
    ensures CreateTask(raws).Accepted? <==>
      EditedAll(EMPTY, Adding(raws)).Some? && SoundGraph(EditedAll(EMPTY, Adding(raws)).value)
    ensures CreateTask(raws).Accepted? ==>
      var g := PromotedGraph(EditedAll(EMPTY, Adding(raws)).value);
      Shows(g, CreateTask(raws).task) && RootsOf(g, CreateTask(raws).task.roots)
  {
    var empty := Task(TaskPending, [], []);
    var steps := StepsFromInput(raws);
    assert Shows(EMPTY, empty);
    AddingAll(raws);
    BatchOnGraph(EMPTY, empty, Adding(raws));
    if UniqueIds(steps) {
      var g := EditedAll(EMPTY, Adding(raws)).value;
      var before := Task(TaskPending, Roots(steps), steps);
      assert Shows(g, before);
      SoundIff(g, before);
      PromoteOnGraph(g, before);
      PromoteReadyLaws(steps);
      SameShapeRoots(steps, Promote(before).steps);
      RootsShown(PromotedGraph(g), Promote(before));
    }
  }
}
