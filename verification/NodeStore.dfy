/**
  The session store: one node table per session and a row saying which node is active.  Operations as functions of
  the database, what every run of them keeps, and the class that carries them out.
 */
module NodeStore {
  import opened Wrappers
  import opened NodeTree

  datatype SessionRow = SessionRow(active: Option<NodeId>, parent: Option<SessionId>)

  datatype Database = Database(sessions: map<SessionId, SessionRow>, tables: map<SessionId, Table>)

  /** A session without a table reads as one with an empty table. */
  function TableOf(db: Database, s: SessionId): Table {
    if s in db.tables then db.tables[s] else map[]
  }

  function WithTable(db: Database, s: SessionId, t: Table): Database {
    db.(tables := db.tables[s := t])
  }

  /** An UPDATE: nothing happens to a session that has no row. */
  function WithActive(db: Database, s: SessionId, node: Option<NodeId>): Database {
    if s in db.sessions then db.(sessions := db.sessions[s := db.sessions[s].(active := node)]) else db
  }

  datatype Action =
    | Ensure(session: SessionId)
    | Add(session: SessionId, id: NodeId, parent: Option<NodeId>, agent: string, run: Option<string>,
          role: string, kind: string, content: string, makeActive: bool)
    | Activate(session: SessionId, node: NodeId)
    | Fork(source: SessionId, node: NodeId, target: SessionId, ids: seq<NodeId>, agent: string)

  ghost function NewRow(t: Table, a: Action): Node
    requires a.Add?
  {
    Node(a.id, MaxSeq(t) + 1, a.parent, a.agent, a.run, a.role, a.kind, a.content, None)
  }

  /** `fork_session_from_path`; an existing target session is an error and leaves everything as it was. */
  function ForkFromPath(db: Database, source: SessionId, target: SessionId, nodes: seq<Node>, ids: seq<NodeId>,
                        agent: string): Database
    requires |nodes| == |ids|
  {
    if target in db.sessions then db
    else
      IdMapDomain(nodes, ids, |ids|);
      var active := if nodes == [] then None else Some(IdMap(nodes, ids, |ids|)[nodes[|nodes| - 1].id]);
      Database(db.sessions[target := SessionRow(active, Some(source))],
               db.tables[target := InsertAll(TableOf(db, target), Copies(nodes, ids, agent, |ids|), |ids|)])
  }

  lemma SetTwice<K, V>(m: map<K, V>, k: K, first: V, last: V)
    ensures m[k := first][k := last] == m[k := last]
  {
  }

  lemma ForkedDatabase(db: Database, source: SessionId, target: SessionId, nodes: seq<Node>, ids: seq<NodeId>,
                       agent: string, t: Table, idMap: map<NodeId, NodeId>)
    requires |nodes| == |ids| && target !in db.sessions
    requires t == InsertAll(TableOf(db, target), Copies(nodes, ids, agent, |ids|), |ids|)
    requires idMap == IdMap(nodes, ids, |ids|)
    ensures nodes != [] ==> nodes[|nodes| - 1].id in idMap
    ensures var active := if nodes == [] then None else Some(idMap[nodes[|nodes| - 1].id]);
      ForkFromPath(db, source, target, nodes, ids, agent)
      == Database(db.sessions[target := SessionRow(active, Some(source))], db.tables[target := t])
  {
    IdMapDomain(nodes, ids, |ids|);
  }

  /** Every table can be walked. */
  ghost predicate Sound(db: Database) {
    forall s :: s in db.tables ==> Ordered(db.tables[s])
  }

  /** New ids are new. */
  ghost predicate Allowed(db: Database, a: Action)
    requires Sound(db)
  {
    match a
    case Add(s, id, parent, _, _, _, _, _, _) => Unmentioned(TableOf(db, s), id) && parent != Some(id)
    case Fork(source, node, target, ids, _) =>
      |ids| == |Path(TableOf(db, source), node)| && FreshIds(TableOf(db, target), ids)
    case _ => true
  }

  ghost function Act(db: Database, a: Action): Database
    requires Sound(db) && Allowed(db, a)
  {
    match a
    case Ensure(s) =>
      var db' := WithTable(db, s, TableOf(db, s));
      if s in db.sessions then db' else db'.(sessions := db.sessions[s := SessionRow(None, None)])
    case Add(s, id, _, _, _, _, _, _, makeActive) =>
      var t := TableOf(db, s);
      var db' := WithTable(db, s, t[id := NewRow(t, a)]);
      if makeActive then WithActive(db', s, Some(id)) else db'
    case Activate(s, node) => WithActive(WithTable(db, s, TableOf(db, s)), s, Some(node))
    case Fork(source, node, target, ids, agent) =>
      var path := Path(TableOf(db, source), node);
      var db' := WithTable(db, source, TableOf(db, source));
      if path == [] then db' else ForkFromPath(db', source, target, path, ids, agent)
  }

  // ---------------------------------------------------------------- one operation

  lemma NewRowFits(t: Table, a: Action)
    requires a.Add? && Ordered(t) && Unmentioned(t, a.id) && a.parent != Some(a.id)
    ensures Later(t, NewRow(t, a))
    ensures Ordered(t[a.id := NewRow(t, a)]) && Grows(t, t[a.id := NewRow(t, a)])
  {
    AddGrows(t, NewRow(t, a));
  }

  lemma ForkGrows(db: Database, a: Action)
    requires a.Fork? && Sound(db) && Allowed(db, a) && Path(TableOf(db, a.source), a.node) != []
    ensures var t := TableOf(db, a.target);
      var r := InsertAll(t, Copies(Path(TableOf(db, a.source), a.node), a.ids, a.agent, |a.ids|), |a.ids|);
      Ordered(r) && Grows(t, r)
  {
    var s, t := TableOf(db, a.source), TableOf(db, a.target);
    CopiesStrung(s, a.node, a.ids, a.agent);
    StrungPath(t, Copies(Path(s, a.node), a.ids, a.agent, |a.ids|), a.ids);
  }

  /** Replacing one table by a grown one. */
  lemma ReplacedTable(db: Database, db': Database, s: SessionId, t: Table)
    requires Sound(db) && Ordered(t) && Grows(TableOf(db, s), t) && db'.tables == db.tables[s := t]
    ensures Sound(db') && forall k :: Grows(TableOf(db, k), TableOf(db', k))
  {
  }

  /** Every operation leaves walkable tables that only grow. */
  lemma ActKeeps(db: Database, a: Action)
    requires Sound(db) && Allowed(db, a)
    ensures Sound(Act(db, a))
    ensures forall s :: Grows(TableOf(db, s), TableOf(Act(db, a), s))
  {
    match a
    case Ensure(s) => ReplacedTable(db, Act(db, a), s, TableOf(db, s));
    case Activate(s, _) => ReplacedTable(db, Act(db, a), s, TableOf(db, s));
    case Add(s, id, _, _, _, _, _, _, _) =>
      NewRowFits(TableOf(db, s), a);
      ReplacedTable(db, Act(db, a), s, TableOf(db, s)[id := NewRow(TableOf(db, s), a)]);
    case Fork(_, _, _, _, _) => ForkKeeps(db, a);
  }

  lemma ForkKeeps(db: Database, a: Action)
    requires Sound(db) && Allowed(db, a) && a.Fork?
    ensures Sound(Act(db, a))
    ensures forall s :: Grows(TableOf(db, s), TableOf(Act(db, a), s))
  {
    var path := Path(TableOf(db, a.source), a.node);
    var db' := WithTable(db, a.source, TableOf(db, a.source));
    ReplacedTable(db, db', a.source, TableOf(db, a.source));
    if path != [] && a.target !in db.sessions {
      ForkGrows(db, a);
      ReplacedTable(db', Act(db, a), a.target,
                    InsertAll(TableOf(db, a.target), Copies(path, a.ids, a.agent, |a.ids|), |a.ids|));
      forall s
        ensures Grows(TableOf(db, s), TableOf(Act(db, a), s))
      {
        GrowsTransitive(TableOf(db, s), TableOf(db', s), TableOf(Act(db, a), s));
      }
    }
  }

  /** A new node comes last and its path is its parent's path and itself; a missing parent makes it a root. */
  lemma AddExtendsPath(db: Database, a: Action)
    requires Sound(db) && Allowed(db, a) && a.Add?
    ensures var t, t' := TableOf(db, a.session), TableOf(Act(db, a), a.session);
      && Sound(Act(db, a)) && a.id in t' && t'[a.id] == NewRow(t, a)
      && (forall id :: id in t ==> t[id].seqNo < t'[a.id].seqNo)
      && Path(t', a.id) == (if a.parent.Some? then Path(t, a.parent.value) else []) + [t'[a.id]]
  {
    var t, t' := TableOf(db, a.session), TableOf(Act(db, a), a.session);
    ActKeeps(db, a);
    NewRowFits(t, a);
    AddGrows(t, NewRow(t, a));
    if ParentRow(t, t'[a.id]).Some? {
      GrowthKeepsPath(t, t', a.parent.value);
    }
  }

  /** The row holds what the caller gave, under the next number. */
  ghost predicate RowFor(t: Table, n: Node, a: Action)
    requires a.Add?
  {
    && n.id == a.id && n.parent == a.parent && n.agent == a.agent && n.run == a.run
    && n.role == a.role && n.kind == a.kind && n.content == a.content && n.origin == None
    && (forall id :: id in t ==> t[id].seqNo < n.seqNo)
    && (n.seqNo == 1 || exists id :: id in t && t[id].seqNo + 1 == n.seqNo)
  }

  /** No table but that of the session is touched. */
  ghost predicate OnlyTable(db: Database, db': Database, s: SessionId) {
    forall k :: k != s ==> (k in db'.tables <==> k in db.tables) && TableOf(db', k) == TableOf(db, k)
  }

  /** The session's row, if it has one, names the node; other rows are as they were. */
  ghost predicate NowActive(db: Database, db': Database, s: SessionId, node: NodeId) {
    && (forall k :: k in db'.sessions <==> k in db.sessions)
    && forall k :: k in db.sessions ==>
         db'.sessions[k] == if k == s then db.sessions[k].(active := Some(node)) else db.sessions[k]
  }

  /**
    `add_node`.  One row is added to the session's table, and nothing else to any table; the session's active node is
    the new one if that was asked for, and otherwise no session changes.
   */
  lemma AddExact(db: Database, a: Action)
    requires Sound(db) && Allowed(db, a) && a.Add?
    ensures var db' := Act(db, a);
      var (t, t') := (TableOf(db, a.session), TableOf(db', a.session));
      && t'.Keys == t.Keys + {a.id} && (forall id :: id in t && id != a.id ==> t'[id] == t[id])
      && RowFor(t, t'[a.id], a) && OnlyTable(db, db', a.session)
      && (if a.makeActive then NowActive(db, db', a.session, a.id) else db'.sessions == db.sessions)
  {
  }

  /** `ensure_session` and `set_active_node` leave every table as it reads. */
  lemma SessionExact(db: Database, a: Action)
    requires Sound(db) && (a.Ensure? || a.Activate?)
    ensures var db' := Act(db, a);
      && (forall s :: TableOf(db', s) == TableOf(db, s))
      && (a.Activate? ==> NowActive(db, db', a.session, a.node))
      && (a.Ensure? && a.session in db.sessions ==> db'.sessions == db.sessions)
      && (a.Ensure? && a.session !in db.sessions ==> db'.sessions == db.sessions[a.session := SessionRow(None, None)])
  {
  }

  /** A fork into a session that exists, or of a path that does not, changes nothing that can be read. */
  lemma ForkRefused(db: Database, a: Action)
    requires Sound(db) && Allowed(db, a) && a.Fork?
    requires a.target in db.sessions || a.node !in TableOf(db, a.source)
    ensures Act(db, a).sessions == db.sessions && forall s :: TableOf(Act(db, a), s) == TableOf(db, s)
  {
    if a.node in TableOf(db, a.source) {
      PathLaws(TableOf(db, a.source), a.node);
    }
  }

  /** The database after a fork into a new session. */
  lemma ForkOutcome(db: Database, a: Action, path: seq<Node>)
    requires Sound(db) && Allowed(db, a) && a.Fork? && a.target !in db.sessions
    requires path == Path(TableOf(db, a.source), a.node) && path != []
    ensures var db' := Act(db, a);
      && TableOf(db', a.target) == InsertAll(TableOf(db, a.target), Copies(path, a.ids, a.agent, |a.ids|), |a.ids|)
      && a.target in db'.sessions && db'.sessions[a.target] == SessionRow(Some(a.ids[|a.ids| - 1]), Some(a.source))
  {
    PathLaws(TableOf(db, a.source), a.node);
    IdMapAt(path, a.ids, |a.ids|, |a.ids| - 1);
  }

  /**
    Forking a path into a new session: the active node's path there is the source path node for node, renumbered
    from one under new ids; the source still has its path.
   */
  lemma ForkCopiesPath(db: Database, a: Action, path: seq<Node>)
    requires Sound(db) && Allowed(db, a) && a.Fork? && a.target !in db.sessions
    requires path == Path(TableOf(db, a.source), a.node) && path != []
    ensures var db' := Act(db, a);
      && Sound(db')
      && a.target in db'.sessions && db'.sessions[a.target] == SessionRow(Some(a.ids[|a.ids| - 1]), Some(a.source))
      && CopyOf(path, Path(TableOf(db', a.target), a.ids[|a.ids| - 1]), a.ids, a.agent)
      && Path(TableOf(db', a.source), a.node) == path
  {
    var s := TableOf(db, a.source);
    ActKeeps(db, a);
    ForkOutcome(db, a, path);
    CopiesStrung(s, a.node, a.ids, a.agent);
    StrungPath(TableOf(db, a.target), Copies(path, a.ids, a.agent, |a.ids|), a.ids);
    CopiesMatch(path, a.ids, a.agent);
    GrowthKeepsPath(s, TableOf(Act(db, a), a.source), a.node);
  }

  /** Nothing but the new session and its table changes. */
  lemma ForkElsewhere(db: Database, a: Action)
    requires Sound(db) && Allowed(db, a) && a.Fork?
    ensures var db' := Act(db, a);
      && (forall k :: k != a.target ==> TableOf(db', k) == TableOf(db, k))
      && (forall k :: k in db.sessions ==> k in db'.sessions && db'.sessions[k] == db.sessions[k])
      && (forall k :: k in db'.sessions ==> k in db.sessions || k == a.target)
  {
  }

  // ---------------------------------------------------------------- runs

  ghost predicate AllAllowed(db: Database, actions: seq<Action>)
    requires Sound(db)
    decreases |actions|
  {
    actions == [] ||
    (Allowed(db, actions[0]) && (ActKeeps(db, actions[0]); AllAllowed(Act(db, actions[0]), actions[1..])))
  }

  ghost function Run(db: Database, actions: seq<Action>): Database
    requires Sound(db) && AllAllowed(db, actions)
    decreases |actions|
  {
    if actions == [] then db else (ActKeeps(db, actions[0]); Run(Act(db, actions[0]), actions[1..]))
  }

  lemma {:induction false} RunGrows(db: Database, actions: seq<Action>, s: SessionId)
    requires Sound(db) && AllAllowed(db, actions)
    ensures Sound(Run(db, actions)) && Grows(TableOf(db, s), TableOf(Run(db, actions), s))
    decreases |actions|
  {
    if actions != [] {
      ActKeeps(db, actions[0]);
      RunGrows(Act(db, actions[0]), actions[1..], s);
      GrowsTransitive(TableOf(db, s), TableOf(Act(db, actions[0]), s), TableOf(Run(db, actions), s));
    }
  }

  /** A node's path never changes, whatever is added, activated or forked later. */
  lemma PathsStay(db: Database, actions: seq<Action>, s: SessionId, id: NodeId)
    requires Sound(db) && AllAllowed(db, actions) && id in TableOf(db, s)
    ensures Sound(Run(db, actions))
    ensures Path(TableOf(Run(db, actions), s), id) == Path(TableOf(db, s), id)
  {
    RunGrows(db, actions, s);
    GrowthKeepsPath(TableOf(db, s), TableOf(Run(db, actions), s), id);
  }

  // ---------------------------------------------------------------- the store

  function Reversed<T>(s: seq<T>): seq<T> {
    if s == [] then [] else [s[|s| - 1]] + Reversed(s[..|s| - 1])
  }

  lemma ReversedPush<T>(s: seq<T>, x: T)
    ensures Reversed(s + [x]) == [x] + Reversed(s)
  {
    assert (s + [x])[..|s|] == s;
  }

  /** COALESCE(MAX(node_seq), 0) + 1 over the rows. */
  method NextSeq(t: Table) returns (next: nat)
    ensures next == MaxSeq(t) + 1
  {
    var left := t.Keys;
    var max := 0;
    while left != {}
      invariant left <= t.Keys
      invariant forall id :: id in t && id !in left ==> t[id].seqNo <= max
      invariant max == 0 || exists id :: id in t && t[id].seqNo == max
      decreases |left|
    {
      var id :| id in left;
      left := left - {id};
      if t[id].seqNo > max {
        max := t[id].seqNo;
      }
    }
    MaxUnique(t, max, MaxSeq(t));
    next := max + 1;
  }

  /** The loop that inserts a copy of every node and fills `id_map`. */
  method CopyNodes(into: Table, agent: string, nodes: seq<Node>, ids: seq<NodeId>)
    returns (t: Table, idMap: map<NodeId, NodeId>)
    requires |ids| == |nodes|
    ensures t == InsertAll(into, Copies(nodes, ids, agent, |ids|), |ids|) && idMap == IdMap(nodes, ids, |ids|)
  {
    t, idMap := into, map[];
    ghost var copies := Copies(nodes, ids, agent, |ids|);
    for i := 0 to |nodes|
      invariant idMap == IdMap(nodes, ids, i)
      invariant t == InsertAll(into, copies, i)
    {
      idMap := idMap[nodes[i].id := ids[i]];
      var copy := Node(ids[i], i + 1, Mapped(idMap, nodes[i].parent), agent, None,
                       nodes[i].role, nodes[i].kind, nodes[i].content, Some(nodes[i].id));
      assert copy == copies[i];
      t := t[copy.id := copy];
    }
  }

  /** What the walk has still to visit. */
  ghost function Ahead(t: Table, current: Option<Node>): seq<Node>
    requires Ordered(t) && (current.Some? ==> Later(t, current.value))
  {
    if current.Some? then PathTo(t, current.value) else []
  }

  lemma Joined<T>(a: seq<T>, b: seq<T>, c: seq<T>)
    ensures a + b + c == a + (b + c)
  {
  }

  lemma Walked(t: Table, row: Node, rows: seq<Node>, path: seq<Node>)
    requires Ordered(t) && Later(t, row) && Ahead(t, Some(row)) + Reversed(rows) == path
    ensures ParentRow(t, row).Some? ==> Later(t, ParentRow(t, row).value)
    ensures Ahead(t, ParentRow(t, row)) + Reversed(rows + [row]) == path
  {
    if ParentRow(t, row).Some? {
      ParentOrdered(t, row);
    }
    ReversedPush(rows, row);
    var before := Ahead(t, ParentRow(t, row));
    assert PathTo(t, row) == before + [row];
    Joined(before, [row], Reversed(rows));
  }

  /** The walk from a node up to its root, turned round. */
  method WalkUp(t: Table, id: NodeId) returns (nodes: seq<Node>)
    requires Ordered(t)
    ensures nodes == Path(t, id)
  {
    if id !in t {
      return [];
    }
    var rows: seq<Node> := [];
    var current := Some(t[id]);
    while current.Some?
      invariant current.Some? ==> Later(t, current.value)
      invariant Ahead(t, current) + Reversed(rows) == Path(t, id)
      decreases if current.Some? then current.value.seqNo + 1 else 0
    {
      var row := current.value;
      Walked(t, row, rows, Path(t, id));
      rows := rows + [row];
      if row.parent.None? || row.parent.value == NO_ID {
        current := None;
        break;
      }
      current := if row.parent.value in t then Some(t[row.parent.value]) else None;
    }
    nodes := Reversed(rows);
  }

  class Store {
    var sessions: map<SessionId, SessionRow>
    var tables: map<SessionId, Table>

    ghost function Snapshot(): Database
      reads this
    {
      Database(sessions, tables)
    }

    constructor ()
      ensures Snapshot() == Database(map[], map[]) && Sound(Snapshot())
    {
      sessions, tables := map[], map[];
    }

    /** `ensure_session_tables`. */
    method EnsureTables(s: SessionId)
      modifies this`tables
      ensures Snapshot() == WithTable(old(Snapshot()), s, TableOf(old(Snapshot()), s))
    {
      if s !in tables {
        tables := tables[s := map[]];
      }
      assert tables == old(tables)[s := TableOf(old(Snapshot()), s)];
    }

    /** `ensure_session`; the result says whether the row is new. */
    method EnsureSession(s: SessionId) returns (inserted: bool)
      requires Sound(Snapshot())
      modifies this
      ensures Snapshot() == Act(old(Snapshot()), Ensure(s)) && inserted == (s !in old(sessions))
    {
      EnsureTables(s);
      inserted := s !in sessions;
      if inserted {
        sessions := sessions[s := SessionRow(None, None)];
      }
    }

    /** `add_node`, given the new id. */
    method AddNode(s: SessionId, id: NodeId, parent: Option<NodeId>, agent: string, run: Option<string>,
                   role: string, kind: string, content: string, makeActive: bool) returns (node: Node)
      requires Sound(Snapshot()) && Allowed(Snapshot(), Add(s, id, parent, agent, run, role, kind, content, makeActive))
      modifies this
      ensures Snapshot() == Act(old(Snapshot()), Add(s, id, parent, agent, run, role, kind, content, makeActive))
      ensures s in tables && id in tables[s] && node == tables[s][id]
    {
      EnsureTables(s);
      var seqNo := NextSeq(tables[s]);
      node := Node(id, seqNo, parent, agent, run, role, kind, content, None);
      tables := tables[s := tables[s][id := node]];
      assert tables == old(tables)[s := TableOf(old(Snapshot()), s)[id := node]];
      if makeActive && s in sessions {
        sessions := sessions[s := sessions[s].(active := Some(id))];
      }
    }

    /** `set_active_node`. */
    method SetActiveNode(s: SessionId, node: NodeId)
      requires Sound(Snapshot())
      modifies this
      ensures Snapshot() == Act(old(Snapshot()), Activate(s, node))
    {
      EnsureTables(s);
      if s in sessions {
        sessions := sessions[s := sessions[s].(active := Some(node))];
      }
    }

    /** `get_session_node_path`: the walk ends, and yields the path. */
    method GetSessionNodePath(s: SessionId, id: NodeId) returns (nodes: seq<Node>)
      requires Sound(Snapshot())
      modifies this`tables
      ensures Snapshot() == WithTable(old(Snapshot()), s, TableOf(old(Snapshot()), s))
      ensures Ordered(TableOf(old(Snapshot()), s)) && nodes == Path(TableOf(old(Snapshot()), s), id)
    {
      EnsureTables(s);
      nodes := WalkUp(tables[s], id);
    }

    /** `fork_session_from_path`, given the new ids; false is the error for a session that exists. */
    method ForkSessionFromPath(source: SessionId, target: SessionId, agent: string, nodes: seq<Node>, ids: seq<NodeId>)
      returns (ok: bool)
      requires |ids| == |nodes|
      modifies this
      ensures ok == (target !in old(sessions))
      ensures Snapshot() == ForkFromPath(old(Snapshot()), source, target, nodes, ids, agent)
    {
      if target in sessions {
        return false;
      }
      ok := true;
      EnsureTables(target);
      var row := SessionRow(None, Some(source));
      sessions := sessions[target := row];
      var t, idMap := CopyNodes(tables[target], agent, nodes, ids);
      SetTwice(old(tables), target, TableOf(old(Snapshot()), target), t);
      tables := tables[target := t];
      ForkedDatabase(old(Snapshot()), source, target, nodes, ids, agent, t, idMap);
      row := row.(active := if nodes == [] then None else Some(idMap[nodes[|nodes| - 1].id]));
      SetTwice(old(sessions), target, SessionRow(None, Some(source)), row);
      sessions := sessions[target := row];
    }
  }
}
