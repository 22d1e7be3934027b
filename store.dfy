/** The editing store (src/graph/store.ts): the current graph, an undo
    stack `history` of earlier graphs, a redo stack `future`, and the
    selected node or edge id. Every edit pushes the graph it replaces onto
    `history` and empties `future`; undo and redo move one graph between
    the two stacks. */
module Store {
  import opened Util
  import opened Types

  // ---------------------------------------------------------------------
  // Graph edits (the bodies of the edit actions)
  // ---------------------------------------------------------------------

  /** `nodes.filter((n) => n.id !== id)` */
  function KeepNodes(nodes: seq<Node>, id: string): (r: seq<Node>)
    ensures forall n :: n in r <==> n in nodes && n.id != id
    ensures |r| <= |nodes|
    ensures id !in NodeIds(nodes) ==> r == nodes
  {
    if nodes == [] then []
    else
      var p := nodes[..|nodes| - 1];
      var last := nodes[|nodes| - 1];
      assert nodes == p + [last];
      KeepNodes(p, id) + (if last.id != id then [last] else [])
  }

  /** Ids that survive a filter are ids of the original nodes, other than the removed one. */
  lemma KeepNodesIds(nodes: seq<Node>, id: string)
    ensures NodeIds(KeepNodes(nodes, id)) == NodeIds(nodes) - {id}
  {
    var r := KeepNodes(nodes, id);
    forall x | x in NodeIds(nodes) - {id}
      ensures x in NodeIds(r)
    {
      var n :| n in nodes && n.id == x;
      assert n in r;
    }
  }

  /** Filtering keeps the ids pairwise distinct. */
  lemma {:induction false} KeepNodesUnique(nodes: seq<Node>, id: string)
    requires UniqueIds(nodes)
    ensures UniqueIds(KeepNodes(nodes, id))
  {
    if nodes != [] {
      var p := nodes[..|nodes| - 1];
      var last := nodes[|nodes| - 1];
      assert UniqueIds(p);
      KeepNodesUnique(p, id);
      if last.id != id {
        var q := KeepNodes(p, id);
        var r := q + [last];
        forall i, j | 0 <= i < j < |r|
          ensures r[i].id != r[j].id
        {
          if j == |r| - 1 {
            assert r[i] in p;
            var k :| 0 <= k < |p| && p[k] == r[i];
            assert nodes[k] == r[i];
          } else {
            assert r[i] == q[i] && r[j] == q[j];
          }
        }
      }
    }
  }

  /** `edges.filter((e) => e.from !== id && e.to !== id)` */
  function KeepEdgesAway(edges: seq<Edge>, id: string): (r: seq<Edge>)
    ensures forall e :: e in r <==> e in edges && e.from != id && e.to != id
    ensures |r| <= |edges|
    ensures (forall e :: e in edges ==> e.from != id && e.to != id) ==> r == edges
  {
    if edges == [] then []
    else
      var p := edges[..|edges| - 1];
      var last := edges[|edges| - 1];
      assert edges == p + [last];
      KeepEdgesAway(p, id) + (if last.from != id && last.to != id then [last] else [])
  }

  /** `edges.filter((e) => e.id !== id)` */
  function KeepEdges(edges: seq<Edge>, id: string): (r: seq<Edge>)
    ensures forall e :: e in r <==> e in edges && e.id != id
    ensures |r| <= |edges|
    ensures (forall e :: e in edges ==> e.id != id) ==> r == edges
  {
    if edges == [] then []
    else
      var p := edges[..|edges| - 1];
      var last := edges[|edges| - 1];
      assert edges == p + [last];
      KeepEdges(p, id) + (if last.id != id then [last] else [])
  }

  /** The node filter works element by element, so the survivors keep their order:
      filtering a concatenation concatenates the filtered parts. */
  lemma {:induction false} KeepNodesAppend(a: seq<Node>, b: seq<Node>, id: string)
    ensures KeepNodes(a + b, id) == KeepNodes(a, id) + KeepNodes(b, id)
  {
    if b != [] {
      var p, last := b[..|b| - 1], b[|b| - 1];
      KeepNodesAppend(a, p, id);
      assert KeepNodes(a + b, id) == KeepNodes(a + p, id) + (if last.id != id then [last] else []) by {
        assert (a + b)[..|a + b| - 1] == a + p;
      }
    } else {
      assert a + b == a;
    }
  }

  /** The same for the filter on edges touching a node. */
  lemma {:induction false} KeepEdgesAwayAppend(a: seq<Edge>, b: seq<Edge>, id: string)
    ensures KeepEdgesAway(a + b, id) == KeepEdgesAway(a, id) + KeepEdgesAway(b, id)
  {
    if b != [] {
      var p, last := b[..|b| - 1], b[|b| - 1];
      KeepEdgesAwayAppend(a, p, id);
      assert KeepEdgesAway(a + b, id) == KeepEdgesAway(a + p, id) + (if last.from != id && last.to != id then [last] else []) by {
        assert (a + b)[..|a + b| - 1] == a + p;
      }
    } else {
      assert a + b == a;
    }
  }

  /** The same for the filter on edge ids. */
  lemma {:induction false} KeepEdgesAppend(a: seq<Edge>, b: seq<Edge>, id: string)
    ensures KeepEdges(a + b, id) == KeepEdges(a, id) + KeepEdges(b, id)
  {
    if b != [] {
      var p, last := b[..|b| - 1], b[|b| - 1];
      KeepEdgesAppend(a, p, id);
      assert KeepEdges(a + b, id) == KeepEdges(a + p, id) + (if last.id != id then [last] else []) by {
        assert (a + b)[..|a + b| - 1] == a + p;
      }
    } else {
      assert a + b == a;
    }
  }

  /** deleteNode: the node and every edge touching it disappear (src/graph/store.ts:132-133). */
  function RemoveNode(g: Graph, id: string): Graph
  {
    Graph(KeepNodes(g.nodes, id), KeepEdgesAway(g.edges, id))
  }

  /** After deleting a node no node carries its id and no edge touches it;
      everything else stays. */
  lemma RemoveNodeFacts(g: Graph, id: string)
    ensures id !in NodeIds(RemoveNode(g, id).nodes)
    ensures forall n :: n in RemoveNode(g, id).nodes <==> n in g.nodes && n.id != id
    ensures forall e :: e in RemoveNode(g, id).edges <==> e in g.edges && e.from != id && e.to != id
  {
    KeepNodesIds(g.nodes, id);
  }

  /** Deleting a node keeps a graph well formed: no edge is left dangling,
      and node ids stay distinct. */
  lemma RemoveNodeWellFormed(g: Graph, id: string)
    requires EdgesWellFormed(g)
    ensures EdgesWellFormed(RemoveNode(g, id))
    ensures UniqueIds(g.nodes) ==> UniqueIds(RemoveNode(g, id).nodes)
  {
    var r := RemoveNode(g, id);
    KeepNodesIds(g.nodes, id);
    forall k | 0 <= k < |r.edges|
      ensures r.edges[k].from in NodeIds(r.nodes) && r.edges[k].to in NodeIds(r.nodes)
    {
      var e := r.edges[k];
      assert e in g.edges;
      var j :| 0 <= j < |g.edges| && g.edges[j] == e;
    }
    if UniqueIds(g.nodes) {
      KeepNodesUnique(g.nodes, id);
    }
  }

  /** Deleting the same node twice is deleting it once. */
  lemma RemoveNodeIdempotent(g: Graph, id: string)
    ensures RemoveNode(RemoveNode(g, id), id) == RemoveNode(g, id)
  {
    KeepNodesIds(g.nodes, id);
  }

  /** deleteEdge (src/graph/store.ts:147). */
  function RemoveEdge(g: Graph, id: string): Graph
  {
    Graph(g.nodes, KeepEdges(g.edges, id))
  }

  /** Deleting an edge never leaves a dangling edge. */
  lemma RemoveEdgeWellFormed(g: Graph, id: string)
    requires EdgesWellFormed(g)
    ensures EdgesWellFormed(RemoveEdge(g, id))
  {
    var r := RemoveEdge(g, id);
    forall k | 0 <= k < |r.edges|
      ensures r.edges[k].from in NodeIds(r.nodes) && r.edges[k].to in NodeIds(r.nodes)
    {
      assert r.edges[k] in g.edges;
      var j :| 0 <= j < |g.edges| && g.edges[j] == r.edges[k];
    }
  }

  /** Adding a node keeps ids distinct exactly when its id is new; the
      store itself does not check. */
  lemma AddNodeUnique(g: Graph, n: Node)
    requires UniqueIds(g.nodes)
    ensures UniqueIds(g.nodes + [n]) <==> n.id !in NodeIds(g.nodes)
  {
    var r := g.nodes + [n];
    if n.id in NodeIds(g.nodes) {
      var m :| m in g.nodes && m.id == n.id;
      var k :| 0 <= k < |g.nodes| && g.nodes[k] == m;
      assert r[k].id == r[|r| - 1].id;
    } else {
      forall i, j | 0 <= i < j < |r|
        ensures r[i].id != r[j].id
      {
        if j == |r| - 1 {
          assert r[i] in g.nodes;
        }
      }
    }
  }

  /** Connecting an edge keeps the graph well formed exactly when both of
      its endpoints are nodes; the store itself does not check. */
  lemma ConnectEdgeWellFormed(g: Graph, e: Edge)
    requires EdgesWellFormed(g)
    ensures EdgesWellFormed(Graph(g.nodes, g.edges + [e])) <==> e.from in NodeIds(g.nodes) && e.to in NodeIds(g.nodes)
  {
    var r := Graph(g.nodes, g.edges + [e]);
    assert r.edges[|g.edges|] == e;
  }

  /** updateNode's `find` and in-place `updater`: the first node with the id
      is replaced by what the updater makes of it; without such a node
      nothing changes. */
  function ReviseNode(g: Graph, id: string, updater: Node -> Node): (r: Graph)
    ensures r.edges == g.edges && |r.nodes| == |g.nodes|
    ensures id !in NodeIds(g.nodes) ==> r == g
    ensures forall j :: 0 <= j < |g.nodes| ==>
      r.nodes[j] == (if j == FirstNodeIndex(g.nodes, id) then updater(g.nodes[j]) else g.nodes[j])
  {
    var k := FirstNodeIndex(g.nodes, id);
    if k < |g.nodes| then Graph(g.nodes[k := updater(g.nodes[k])], g.edges) else g
  }

  /** updateEdge's `find` and in-place `updater`, as for nodes. */
  function ReviseEdge(g: Graph, id: string, updater: Edge -> Edge): (r: Graph)
    ensures r.nodes == g.nodes && |r.edges| == |g.edges|
    ensures (forall e :: e in g.edges ==> e.id != id) ==> r == g
    ensures forall j :: 0 <= j < |g.edges| ==>
      r.edges[j] == (if j == FirstEdgeIndex(g.edges, id) then updater(g.edges[j]) else g.edges[j])
  {
    var k := FirstEdgeIndex(g.edges, id);
    if k < |g.edges| then Graph(g.nodes, g.edges[k := updater(g.edges[k])]) else g
  }

  // ---------------------------------------------------------------------
  // Undo / redo
  // ---------------------------------------------------------------------

  /** The fields of the store that edits, undo and redo touch. */
  datatype StoreState = StoreState(graph: Graph, history: seq<Graph>, future: seq<Graph>, selectedId: Option<string>)

  function Reverse<T>(s: seq<T>): (r: seq<T>)
    ensures |r| == |s|
  {
    if s == [] then [] else [s[|s| - 1]] + Reverse(s[..|s| - 1])
  }

  /** Every graph the store can step to by undo and redo, oldest first: the
      undo stack, the current graph, then the redo stack from its top down. */
  function Timeline(s: StoreState): (t: seq<Graph>)
    ensures |t| == |s.history| + 1 + |s.future| && t[|s.history|] == s.graph
  {
    s.history + [s.graph] + Reverse(s.future)
  }

  /** The common start of every edit: push the graph being replaced and drop the redo stack. */
  function Edit(s: StoreState, g: Graph, selectedId: Option<string>): (r: StoreState)
    ensures Timeline(r) == s.history + [s.graph, g]
  {
    StoreState(g, s.history + [s.graph], [], selectedId)
  }

  /** undo (src/graph/store.ts:157-167). */
  function UndoStep(s: StoreState): (r: StoreState)
    ensures s.history == [] ==> r == s
    ensures s.history != [] ==> |r.history| == |s.history| - 1 && r.graph == s.history[|s.history| - 1]
    ensures Timeline(r) == Timeline(s)
    ensures r.selectedId == s.selectedId
  {
    if s.history == [] then s
    else
      var h := s.history[..|s.history| - 1];
      var r := StoreState(s.history[|s.history| - 1], h, s.future + [s.graph], s.selectedId);
      assert (s.future + [s.graph])[..|s.future|] == s.future;
      assert s.history == h + [r.graph];
      r
  }

  /** redo (src/graph/store.ts:169-179). */
  function RedoStep(s: StoreState): (r: StoreState)
    ensures s.future == [] ==> r == s
    ensures s.future != [] ==> |r.history| == |s.history| + 1 && r.graph == s.future[|s.future| - 1]
    ensures Timeline(r) == Timeline(s)
    ensures r.selectedId == s.selectedId
  {
    if s.future == [] then s
    else
      var f := s.future[..|s.future| - 1];
      var r := StoreState(s.future[|s.future| - 1], s.history + [s.graph], f, s.selectedId);
      assert s.future == f + [r.graph];
      r
  }

  /** Redo takes back an undo. */
  lemma UndoRedo(s: StoreState)
    requires s.history != []
    ensures RedoStep(UndoStep(s)) == s
  {
    var h := s.history;
    assert h[..|h| - 1] + [h[|h| - 1]] == h;
    var u := UndoStep(s);
    assert u.future[..|u.future| - 1] == s.future;
  }

  /** Undo takes back a redo. */
  lemma RedoUndo(s: StoreState)
    requires s.future != []
    ensures UndoStep(RedoStep(s)) == s
  {
    var f := s.future;
    assert f[..|f| - 1] + [f[|f| - 1]] == f;
    var r := RedoStep(s);
    assert r.history[..|r.history| - 1] == s.history;
  }

  /** Undo right after an edit brings the replaced graph back and offers the
      edited one for redo. */
  lemma EditUndo(s: StoreState, g: Graph, selectedId: Option<string>)
    ensures UndoStep(Edit(s, g, selectedId)) == StoreState(s.graph, s.history, [g], selectedId)
  {
    var e := Edit(s, g, selectedId);
    assert e.history[..|e.history| - 1] == s.history;
  }

  function UndoTimes(s: StoreState, k: nat): StoreState
  {
    if k == 0 then s else UndoStep(UndoTimes(s, k - 1))
  }

  /** One undo steps one place back along the timeline, or stays at its start. */
  lemma UndoStepBack(s: StoreState)
    ensures Timeline(UndoStep(s)) == Timeline(s)
    ensures |UndoStep(s).history| == if |s.history| == 0 then 0 else |s.history| - 1
    ensures UndoStep(s).graph == Timeline(s)[|UndoStep(s).history|]
  {
    var r := UndoStep(s);
    assert Timeline(r)[|r.history|] == r.graph;
  }

  /** `k` undos keep the timeline and shorten the history by `k`, down to empty. */
  lemma {:induction false} UndoTimesSteps(s: StoreState, k: nat)
    ensures Timeline(UndoTimes(s, k)) == Timeline(s)
    ensures |UndoTimes(s, k).history| == if k <= |s.history| then |s.history| - k else 0
  {
    if k > 0 {
      UndoTimesSteps(s, k - 1);
      UndoStepBack(UndoTimes(s, k - 1));
    }
  }

  /** `k` undos walk `k` steps back along the timeline, stopping at its start. */
  lemma UndoTimesWalksBack(s: StoreState, k: nat)
    ensures Timeline(UndoTimes(s, k)) == Timeline(s)
    ensures UndoTimes(s, k).graph == Timeline(s)[if k <= |s.history| then |s.history| - k else 0]
  {
    UndoTimesSteps(s, k);
    var r := UndoTimes(s, k);
    assert Timeline(r)[|r.history|] == r.graph;
  }

  // ---------------------------------------------------------------------
  // The store
  // ---------------------------------------------------------------------

  /** `useGraphStore`, restricted to the graph, the two stacks and the
      selection; the viewport fields, the last result and the copy kept in
      local storage are not part of this model. */
  class GraphStore {
    var graph: Graph
    var history: seq<Graph>
    var future: seq<Graph>
    var selectedId: Option<string>

    function State(): StoreState
      reads this
    {
      StoreState(graph, history, future, selectedId)
    }

    constructor (initial: Graph)
      ensures State() == StoreState(initial, [], [], None)
    {
      graph := initial;
      history := [];
      future := [];
      selectedId := None;
    }

    /** Push the graph about to be replaced and drop the redo stack. */
    method Record()
      modifies this
      ensures history == old(history) + [old(graph)] && future == []
      ensures graph == old(graph) && selectedId == old(selectedId)
    {
      history := history + [graph];
      future := [];
    }

    method AddNode(node: Node)
      modifies this
      ensures State() == Edit(old(State()), Graph(old(graph).nodes + [node], old(graph).edges), Some(node.id))
    {
      Record();
      graph := graph.(nodes := graph.nodes + [node]);
      selectedId := Some(node.id);
    }

    method ConnectEdge(edge: Edge)
      modifies this
      ensures State() == Edit(old(State()), Graph(old(graph).nodes, old(graph).edges + [edge]), Some(edge.id))
    {
      Record();
      graph := graph.(edges := graph.edges + [edge]);
      selectedId := Some(edge.id);
    }

    method UpdateNode(id: string, updater: Node -> Node)
      modifies this
      ensures State() == Edit(old(State()), ReviseNode(old(graph), id, updater), old(selectedId))
    {
      Record();
      var k := FirstNodeIndex(graph.nodes, id);
      if k < |graph.nodes| {
        graph := graph.(nodes := graph.nodes[k := updater(graph.nodes[k])]);
      }
    }

    method UpdateEdge(id: string, updater: Edge -> Edge)
      modifies this
      ensures State() == Edit(old(State()), ReviseEdge(old(graph), id, updater), old(selectedId))
    {
      Record();
      var k := FirstEdgeIndex(graph.edges, id);
      if k < |graph.edges| {
        graph := graph.(edges := graph.edges[k := updater(graph.edges[k])]);
      }
    }

    method DeleteNode(id: string)
      modifies this
      ensures State() == Edit(old(State()), RemoveNode(old(graph), id),
        if old(selectedId) == Some(id) then None else old(selectedId))
    {
      Record();
      graph := Graph(KeepNodes(graph.nodes, id), KeepEdgesAway(graph.edges, id));
      if selectedId == Some(id) {
        selectedId := None;
      }
    }

    method DeleteEdge(id: string)
      modifies this
      ensures State() == Edit(old(State()), RemoveEdge(old(graph), id),
        if old(selectedId) == Some(id) then None else old(selectedId))
    {
      Record();
      graph := graph.(edges := KeepEdges(graph.edges, id));
      if selectedId == Some(id) {
        selectedId := None;
      }
    }

    method Select(id: Option<string>)
      modifies this
      ensures State() == old(State()).(selectedId := id)
    {
      selectedId := id;
    }

    method Undo()
      modifies this
      ensures State() == UndoStep(old(State()))
    {
      if history == [] {
        return;
      }
      var prev := history[|history| - 1];
      history := history[..|history| - 1];
      future := future + [graph];
      graph := prev;
    }

    method Redo()
      modifies this
      ensures State() == RedoStep(old(State()))
    {
      if future == [] {
        return;
      }
      var next := future[|future| - 1];
      future := future[..|future| - 1];
      history := history + [graph];
      graph := next;
    }

    method SetGraph(g: Graph)
      modifies this
      ensures State() == Edit(old(State()), g, old(selectedId))
    {
      Record();
      graph := g;
    }
  }
}
