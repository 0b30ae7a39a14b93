/**
  The append-only conversation tree: numbered rows with a parent each, the walk from a node to its root, and
  forking a path into another session.
 */
module NodeTree {
  import opened Wrappers

  datatype NodeId = NodeId(text: string)

  /** The empty id, which a parent link takes for none. */
  const NO_ID := NodeId("")

  type SessionId = string

  /** `origin` is the forked-from entry of the node's metadata. */
  datatype Node = Node(id: NodeId, seqNo: nat, parent: Option<NodeId>, agent: string, run: Option<string>,
                       role: string, kind: string, content: string, origin: Option<NodeId>)

  type Table = map<NodeId, Node>

  /** The row a node's parent id leads to; an empty parent id counts as none. */
  function ParentRow(t: Table, n: Node): Option<Node> {
    match n.parent
    case None => None
    case Some(p) => if p != NO_ID && p in t then Some(t[p]) else None
  }

  /** What keeps the walk finite: rows are stored under their own id and come after their parents. */
  ghost predicate Ordered(t: Table) {
    forall id :: id in t ==> id != NO_ID && t[id].id == id && Later(t, t[id])
  }

  predicate Later(t: Table, n: Node) {
    ParentRow(t, n).Some? ==> ParentRow(t, n).value.seqNo < n.seqNo
  }

  lemma ParentOrdered(t: Table, n: Node)
    requires Ordered(t) && ParentRow(t, n).Some?
    ensures Later(t, ParentRow(t, n).value) && ParentRow(t, n).value.id in t
    ensures t[ParentRow(t, n).value.id] == ParentRow(t, n).value
  {
    assert n.parent.value in t;
  }

  /** The walk from a row to its root, root first. */
  ghost function PathTo(t: Table, n: Node): seq<Node>
    requires Ordered(t) && Later(t, n)
    decreases n.seqNo
  {
    match ParentRow(t, n)
    case None => [n]
    case Some(p) => ParentOrdered(t, n); PathTo(t, p) + [n]
  }

  /** `get_session_node_path` on a table. */
  ghost function Path(t: Table, id: NodeId): seq<Node>
    requires Ordered(t)
  {
    if id in t then PathTo(t, t[id]) else []
  }

  // ---------------------------------------------------------------- what a path is

  /** Rows of the table, each the parent of the next, from a row without a parent to the row n. */
  ghost predicate IsChain(t: Table, path: seq<Node>, n: Node) {
    && path != [] && path[|path| - 1] == n
    && ParentRow(t, path[0]) == None
    && forall i :: 0 < i < |path| ==> ParentRow(t, path[i]) == Some(path[i - 1])
  }

  lemma {:induction false} PathToIsChain(t: Table, n: Node)
    requires Ordered(t) && Later(t, n)
    ensures IsChain(t, PathTo(t, n), n)
    decreases n.seqNo
  {
    if ParentRow(t, n).Some? {
      ParentOrdered(t, n);
      PathToIsChain(t, ParentRow(t, n).value);
    }
  }

  lemma {:induction false} ChainIsPathTo(t: Table, path: seq<Node>, n: Node)
    requires Ordered(t) && Later(t, n) && IsChain(t, path, n)
    ensures path == PathTo(t, n)
    decreases |path|
  {
    var head := path[..|path| - 1];
    assert path == head + [n];
    if head != [] {
      assert ParentRow(t, path[|path| - 1]) == Some(path[|path| - 2]);
      ParentOrdered(t, n);
      assert IsChain(t, head, ParentRow(t, n).value);
      ChainIsPathTo(t, head, ParentRow(t, n).value);
    }
  }

  /** The path to a stored node is the one and only chain of rows from a root to it. */
  lemma PathIffChain(t: Table, id: NodeId, path: seq<Node>)
    requires Ordered(t) && id in t
    ensures path == Path(t, id) <==> IsChain(t, path, t[id])
  {
    PathToIsChain(t, t[id]);
    if IsChain(t, path, t[id]) {
      ChainIsPathTo(t, path, t[id]);
    }
  }

  /** Along a chain the numbers rise, every row but the last is stored, and no id comes twice. */
  lemma {:induction false} ChainRises(t: Table, path: seq<Node>, n: Node, i: nat, j: nat)
    requires Ordered(t) && Later(t, n) && IsChain(t, path, n) && i < j < |path|
    ensures path[i].id in t && t[path[i].id] == path[i] && path[i].seqNo < path[j].seqNo
    decreases j - i
  {
    ChainLater(t, path, n, i + 1);
    assert ParentRow(t, path[i + 1]) == Some(path[i]);
    ParentOrdered(t, path[i + 1]);
    if i + 1 < j {
      ChainRises(t, path, n, i + 1, j);
    }
  }

  lemma {:induction false} ChainLater(t: Table, path: seq<Node>, n: Node, i: nat)
    requires Ordered(t) && Later(t, n) && IsChain(t, path, n) && i < |path|
    ensures Later(t, path[i])
    decreases |path| - i
  {
    if i + 1 < |path| {
      ChainLater(t, path, n, i + 1);
      assert ParentRow(t, path[i + 1]) == Some(path[i]);
      ParentOrdered(t, path[i + 1]);
    }
  }

  /** A path starts at a root, ends at its node and has strictly increasing numbers. */
  lemma PathLaws(t: Table, id: NodeId)
    requires Ordered(t) && id in t
    ensures var p := Path(t, id);
      && p != [] && ParentRow(t, p[0]) == None && p[|p| - 1].id == id
      && (forall i :: 0 <= i < |p| ==> p[i].id in t && t[p[i].id] == p[i])
      && (forall i :: 0 < i < |p| ==> p[i].parent == Some(p[i - 1].id))
      && (forall i, j :: 0 <= i < j < |p| ==> p[i].seqNo < p[j].seqNo && p[i].id != p[j].id)
  {
    var p := Path(t, id);
    PathToIsChain(t, t[id]);
    forall i, j | 0 <= i < j < |p|
      ensures p[i].id in t && t[p[i].id] == p[i] && p[i].seqNo < p[j].seqNo
    {
      ChainRises(t, p, t[id], i, j);
    }
    forall i | 0 <= i < |p|
      ensures p[i].id in t && t[p[i].id] == p[i]
    {
      if i + 1 < |p| {
        assert p[i].seqNo < p[i + 1].seqNo;
      }
    }
  }

  // ---------------------------------------------------------------- growing tables

  /** t' keeps the rows of t, and adopts none of them: a missing parent stays missing. */
  ghost predicate Grows(t: Table, t': Table) {
    forall id :: id in t ==> id in t' && t'[id] == t[id] && ParentRow(t', t[id]) == ParentRow(t, t[id])
  }

  lemma GrowsTransitive(a: Table, b: Table, c: Table)
    requires Grows(a, b) && Grows(b, c)
    ensures Grows(a, c)
  {
    forall id | id in a
      ensures id in c && c[id] == a[id] && ParentRow(c, a[id]) == ParentRow(a, a[id])
    {
      assert id in b && ParentRow(b, a[id]) == ParentRow(a, a[id]);
    }
  }

  /** Paths only look at rows that are there to stay. */
  lemma GrowthKeepsPath(t: Table, t': Table, id: NodeId)
    requires Ordered(t) && Ordered(t') && Grows(t, t') && id in t
    ensures id in t' && Path(t', id) == Path(t, id)
  {
    var p := Path(t, id);
    PathLaws(t, id);
    PathToIsChain(t, t[id]);
    forall i | 0 <= i < |p|
      ensures ParentRow(t', p[i]) == ParentRow(t, p[i])
    {
      assert p[i].id in t;
    }
    assert IsChain(t', p, t'[id]);
    PathIffChain(t', id, p);
  }

  /** A new id occurs nowhere in the table. */
  ghost predicate Unmentioned(t: Table, id: NodeId) {
    id != NO_ID && id !in t && forall k :: k in t ==> t[k].parent != Some(id)
  }

  /** Adding a row under a new id, after its parent. */
  lemma AddGrows(t: Table, n: Node)
    requires Ordered(t) && Unmentioned(t, n.id) && n.parent != Some(n.id) && Later(t, n)
    ensures Ordered(t[n.id := n]) && Grows(t, t[n.id := n])
    ensures ParentRow(t[n.id := n], n) == ParentRow(t, n)
  {
    var t' := t[n.id := n];
    forall k | k in t
      ensures ParentRow(t', t[k]) == ParentRow(t, t[k])
    {
      assert t[k].parent != Some(n.id);
    }
  }

  ghost predicate IsMax(t: Table, m: nat) {
    && (forall id :: id in t ==> t[id].seqNo <= m)
    && (m == 0 || exists id :: id in t && t[id].seqNo == m)
  }

  /** COALESCE(MAX(node_seq), 0). */
  ghost function MaxSeq(t: Table): (m: nat)
    ensures IsMax(t, m)
  {
    if t == map[] then 0
    else
      var id :| id in t;
      var m := MaxSeq(t - {id});
      var r := if t[id].seqNo > m then t[id].seqNo else m;
      assert forall k :: k in t ==> k == id || (k in t - {id} && (t - {id})[k] == t[k]);
      assert r == 0 || exists k :: k in t && t[k].seqNo == r by {
        if r != 0 && r == m {
          var k :| k in t - {id} && (t - {id})[k].seqNo == m;
          assert t[k].seqNo == m;
        }
      }
      r
  }

  lemma MaxUnique(t: Table, a: nat, b: nat)
    requires IsMax(t, a) && IsMax(t, b)
    ensures a == b
  {
  }

  // ---------------------------------------------------------------- copying a path

  /** `id_map` once the first i nodes have been entered. */
  function IdMap(nodes: seq<Node>, ids: seq<NodeId>, i: nat): map<NodeId, NodeId>
    requires i <= |nodes| == |ids|
  {
    if i == 0 then map[] else IdMap(nodes, ids, i - 1)[nodes[i - 1].id := ids[i - 1]]
  }

  function Mapped(m: map<NodeId, NodeId>, parent: Option<NodeId>): Option<NodeId> {
    var key := if parent.Some? then parent.value else NO_ID;
    if key in m then Some(m[key]) else None
  }

  /** The copy of node i: numbered from one, owned by the new root agent, outside any run. */
  function Copy(nodes: seq<Node>, ids: seq<NodeId>, agent: string, i: nat): Node
    requires i < |nodes| == |ids|
  {
    Node(ids[i], i + 1, Mapped(IdMap(nodes, ids, i + 1), nodes[i].parent), agent, None,
         nodes[i].role, nodes[i].kind, nodes[i].content, Some(nodes[i].id))
  }

  function Copies(nodes: seq<Node>, ids: seq<NodeId>, agent: string, n: nat): (r: seq<Node>)
    requires n <= |nodes| == |ids|
    ensures |r| == n && forall i :: 0 <= i < n ==> r[i] == Copy(nodes, ids, agent, i)
  {
    if n == 0 then [] else Copies(nodes, ids, agent, n - 1) + [Copy(nodes, ids, agent, n - 1)]
  }

  /** The first n rows entered into the table. */
  function InsertAll(t: Table, rows: seq<Node>, n: nat): Table
    requires n <= |rows|
  {
    if n == 0 then t else InsertAll(t, rows, n - 1)[rows[n - 1].id := rows[n - 1]]
  }

  lemma {:induction false} IdMapDomain(nodes: seq<Node>, ids: seq<NodeId>, i: nat)
    requires i <= |nodes| == |ids|
    ensures forall k :: k in IdMap(nodes, ids, i) <==> exists j :: 0 <= j < i && nodes[j].id == k
  {
    if i > 0 {
      IdMapDomain(nodes, ids, i - 1);
    }
  }

  lemma {:induction false} IdMapAt(nodes: seq<Node>, ids: seq<NodeId>, i: nat, j: nat)
    requires j < i <= |nodes| == |ids|
    requires forall a, b :: 0 <= a < b < |nodes| ==> nodes[a].id != nodes[b].id
    ensures nodes[j].id in IdMap(nodes, ids, i) && IdMap(nodes, ids, i)[nodes[j].id] == ids[j]
  {
    if j < i - 1 {
      IdMapAt(nodes, ids, i - 1, j);
    }
  }

  /** New ids: pairwise different, and not mentioned in the table. */
  ghost predicate FreshIds(t: Table, ids: seq<NodeId>) {
    && (forall i :: 0 <= i < |ids| ==> Unmentioned(t, ids[i]))
    && forall i, j :: 0 <= i < j < |ids| ==> ids[i] != ids[j]
  }

  /** Rows with these ids, each the child of the one before, numbered from one. */
  ghost predicate Strung(rows: seq<Node>, ids: seq<NodeId>) {
    && |rows| == |ids|
    && (forall i :: 0 <= i < |ids| ==> rows[i].id == ids[i] && rows[i].seqNo == i + 1)
    && (rows != [] ==> rows[0].parent == None)
    && (forall i, j :: 0 <= i && j == i + 1 && j < |ids| ==> rows[j].parent == Some(ids[i]))
  }

  /** Copying a path strings its copies together. */
  lemma CopiesStrung(s: Table, id: NodeId, ids: seq<NodeId>, agent: string)
    requires Ordered(s) && id in s && |ids| == |Path(s, id)|
    ensures Strung(Copies(Path(s, id), ids, agent, |ids|), ids)
  {
    var p := Path(s, id);
    PathLaws(s, id);
    IdMapDomain(p, ids, 1);
    assert p[0].id in s;
    forall i, j | 0 <= i && j == i + 1 && j < |ids|
      ensures Copy(p, ids, agent, j).parent == Some(ids[i])
    {
      IdMapAt(p, ids, j + 1, i);
    }
  }

  /** The table after n strung rows: it has grown in order and the rows are in it. */
  ghost predicate Holds(t: Table, r: Table, rows: seq<Node>, ids: seq<NodeId>, n: nat)
    requires n <= |rows| == |ids|
  {
    && Ordered(r) && Grows(t, r)
    && (forall i :: 0 <= i < n ==> ids[i] in r && r[ids[i]] == rows[i])
    && (forall i :: n <= i < |ids| ==> Unmentioned(r, ids[i]))
  }

  lemma {:induction false} InsertAllHolds(t: Table, rows: seq<Node>, ids: seq<NodeId>, n: nat)
    requires Ordered(t) && FreshIds(t, ids) && Strung(rows, ids) && n <= |ids|
    ensures Holds(t, InsertAll(t, rows, n), rows, ids, n)
  {
    if n > 0 {
      InsertAllHolds(t, rows, ids, n - 1);
      InsertStep(t, InsertAll(t, rows, n - 1), rows, ids, n - 1);
    }
  }

  lemma InsertStep(t: Table, r: Table, rows: seq<Node>, ids: seq<NodeId>, n: nat)
    requires FreshIds(t, ids) && Strung(rows, ids) && n < |ids| && Holds(t, r, rows, ids, n)
    ensures Holds(t, r[ids[n] := rows[n]], rows, ids, n + 1)
  {
    var r' := r[ids[n] := rows[n]];
    assert rows[n].id == ids[n] && Unmentioned(r, ids[n]);
    if n > 0 {
      assert rows[n].parent == Some(ids[n - 1]) && ids[n - 1] in r && r[ids[n - 1]] == rows[n - 1];
    } else {
      assert rows[0].parent == None;
    }
    AddGrows(r, rows[n]);
    GrowsTransitive(t, r, r');
    forall i | n < i < |ids|
      ensures Unmentioned(r', ids[i])
    {
      assert Unmentioned(r, ids[i]) && ids[n] != ids[i];
      assert rows[n].parent != Some(ids[i]);
    }
  }

  /** Strung rows, once all are entered, are the path to the last. */
  lemma StrungPath(t: Table, rows: seq<Node>, ids: seq<NodeId>)
    requires Ordered(t) && FreshIds(t, ids) && Strung(rows, ids) && ids != []
    ensures var r := InsertAll(t, rows, |ids|);
      Ordered(r) && Grows(t, r) && ids[|ids| - 1] in r && Path(r, ids[|ids| - 1]) == rows
  {
    var r := InsertAll(t, rows, |ids|);
    InsertAllHolds(t, rows, ids, |ids|);
    forall i | 0 < i < |rows|
      ensures ParentRow(r, rows[i]) == Some(rows[i - 1])
    {
      assert rows[i].parent == Some(ids[i - 1]) && r[ids[i - 1]] == rows[i - 1];
    }
    assert rows[0].id == ids[0] && rows[0].parent == None;
    assert IsChain(r, rows, r[ids[|ids| - 1]]);
    PathIffChain(r, ids[|ids| - 1], rows);
  }

  /**
    Node for node the same role, type and content, under the new ids and the new agent, outside any run, numbered from
    one, each naming its origin.
   */
  predicate CopyOf(nodes: seq<Node>, copies: seq<Node>, ids: seq<NodeId>, agent: string) {
    && |copies| == |nodes| == |ids|
    && forall i :: 0 <= i < |nodes| ==>
      && copies[i].role == nodes[i].role && copies[i].kind == nodes[i].kind && copies[i].content == nodes[i].content
      && copies[i].origin == Some(nodes[i].id) && copies[i].id == ids[i] && copies[i].seqNo == i + 1
      && copies[i].agent == agent && copies[i].run == None
  }

  lemma CopiesMatch(nodes: seq<Node>, ids: seq<NodeId>, agent: string)
    requires |nodes| == |ids|
    ensures CopyOf(nodes, Copies(nodes, ids, agent, |ids|), ids, agent)
  {
  }
}
