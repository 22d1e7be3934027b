/** The scheduling half of `computeScenario` (src/engine/compute.ts:80-118):
    per-node successor lists and in-degrees, Kahn's topological order with
    the left-over cycle members appended in node order, and the edge lists
    grouped by source and by target. */
module Order {
  import opened Util
  import opened Types
  import opened Digraph

  /** Number of edges into `v` whose source is not in `done`: the in-degree
      Kahn's algorithm has left for `v` once the nodes of `done` are emitted. */
  function InCount(edges: seq<Edge>, v: string, done: set<string>): nat
  {
    if edges == [] then 0
    else
      var last := edges[|edges| - 1];
      InCount(edges[..|edges| - 1], v, done) + (if last.to == v && last.from !in done then 1 else 0)
  }

  /** The remaining in-degree is zero exactly when every edge into `v` comes from `done`. */
  lemma {:induction false} InCountZero(edges: seq<Edge>, v: string, done: set<string>)
    ensures InCount(edges, v, done) == 0 <==>
      forall k :: 0 <= k < |edges| && edges[k].to == v ==> edges[k].from in done
  {
    if edges != [] {
      InCountZero(edges[..|edges| - 1], v, done);
    }
  }

  /** Emitting `u` removes one unit of in-degree per edge `u -> v`. */
  lemma {:induction false} InCountEmit(edges: seq<Edge>, v: string, done: set<string>, u: string)
    requires u !in done
    ensures InCount(edges, v, done) == InCount(edges, v, done + {u}) + Count(Targets(edges, u), v)
  {
    if edges != [] {
      var p := edges[..|edges| - 1];
      var last := edges[|edges| - 1];
      InCountEmit(p, v, done, u);
      CountAppend(Targets(p, u), if last.from == u then [last.to] else [], v);
    }
  }

  /** Every edge from a node that precedes its target: an edge into `ordered[j]`
      starts at a node listed before position `j`. */
  ghost predicate Forward(edges: seq<Edge>, ordered: seq<string>)
  {
    forall k, j :: 0 <= k < |edges| && 0 <= j < |ordered| && edges[k].to == ordered[j] ==>
      edges[k].from in ordered[..j]
  }

  /** `outByNode` and `inDegree` (src/engine/compute.ts:81-90). */
  method BuildDegrees(g: Graph) returns (outByNode: map<string, seq<string>>, inDeg: map<string, int>)
    requires EdgesWellFormed(g)
    ensures outByNode == Adjacency(g)
    ensures inDeg.Keys == NodeIds(g.nodes)
    ensures forall v :: v in inDeg ==> inDeg[v] == InCount(g.edges, v, {})
  {
    outByNode, inDeg := EmptyDegrees(g.nodes);
    outByNode, inDeg := CountEdges(g, outByNode, inDeg);
    assert forall u :: u in outByNode ==> outByNode[u] == Adjacency(g)[u];
  }

  /** Every node starts with no successors and in-degree zero (src/engine/compute.ts:83-86). */
  method EmptyDegrees(nodes: seq<Node>) returns (outByNode: map<string, seq<string>>, inDeg: map<string, int>)
    ensures outByNode.Keys == NodeIds(nodes) && inDeg.Keys == NodeIds(nodes)
    ensures forall u :: u in outByNode ==> outByNode[u] == []
    ensures forall v :: v in inDeg ==> inDeg[v] == 0
  {
    outByNode, inDeg := map[], map[];
    var i := 0;
    while i < |nodes|
      invariant 0 <= i <= |nodes|
      invariant outByNode.Keys == NodeIds(nodes[..i]) && inDeg.Keys == NodeIds(nodes[..i])
      invariant forall u :: u in outByNode ==> outByNode[u] == []
      invariant forall v :: v in inDeg ==> inDeg[v] == 0
    {
      assert NodeIds(nodes[..i + 1]) == NodeIds(nodes[..i]) + {nodes[i].id} by {
        assert nodes[..i + 1] == nodes[..i] + [nodes[i]];
      }
      outByNode := outByNode[nodes[i].id := []];
      inDeg := inDeg[nodes[i].id := 0];
      i := i + 1;
    }
    assert nodes[..i] == nodes;
  }

  /** One successor entry and one unit of in-degree per edge (src/engine/compute.ts:87-90). */
  method CountEdges(g: Graph, out0: map<string, seq<string>>, deg0: map<string, int>)
    returns (outByNode: map<string, seq<string>>, inDeg: map<string, int>)
    requires EdgesWellFormed(g)
    requires out0.Keys == NodeIds(g.nodes) && deg0.Keys == NodeIds(g.nodes)
    requires forall u :: u in out0 ==> out0[u] == []
    requires forall v :: v in deg0 ==> deg0[v] == 0
    ensures outByNode.Keys == NodeIds(g.nodes) && inDeg.Keys == NodeIds(g.nodes)
    ensures forall u :: u in outByNode ==> outByNode[u] == Targets(g.edges, u)
    ensures forall v :: v in inDeg ==> inDeg[v] == InCount(g.edges, v, {})
  {
    outByNode, inDeg := out0, deg0;
    var k := 0;
    while k < |g.edges|
      invariant 0 <= k <= |g.edges|
      invariant outByNode.Keys == NodeIds(g.nodes) && inDeg.Keys == NodeIds(g.nodes)
      invariant CountedUpTo(g.edges, k, outByNode, inDeg)
    {
      var e := g.edges[k];
      EdgeStep(g.edges, k, outByNode, inDeg);
      outByNode := outByNode[e.from := outByNode[e.from] + [e.to]];
      inDeg := inDeg[e.to := inDeg[e.to] + 1];
      k := k + 1;
    }
    assert g.edges[..k] == g.edges;
  }

  /** The successor lists and in-degrees of the first `k` edges. */
  ghost predicate CountedUpTo(edges: seq<Edge>, k: nat, outByNode: map<string, seq<string>>, inDeg: map<string, int>)
    requires k <= |edges|
  {
    && (forall u :: u in outByNode ==> outByNode[u] == Targets(edges[..k], u))
    && (forall v :: v in inDeg ==> inDeg[v] == InCount(edges[..k], v, {}))
  }

  /** Counting one more edge extends one successor list and one in-degree. */
  lemma EdgeStep(edges: seq<Edge>, k: nat, outByNode: map<string, seq<string>>, inDeg: map<string, int>)
    requires k < |edges| && edges[k].from in outByNode && edges[k].to in inDeg
    requires CountedUpTo(edges, k, outByNode, inDeg)
    ensures CountedUpTo(edges, k + 1, outByNode[edges[k].from := outByNode[edges[k].from] + [edges[k].to]],
                        inDeg[edges[k].to := inDeg[edges[k].to] + 1])
  {
    assert edges[..k + 1][..k] == edges[..k];
  }

  /** The ids of `nodes` whose in-degree in `inDeg` is zero, in node order. */
  function ZeroIn(nodes: seq<Node>, inDeg: map<string, int>): seq<string>
  {
    if nodes == [] then []
    else
      var id := nodes[|nodes| - 1].id;
      ZeroIn(nodes[..|nodes| - 1], inDeg) + (if id in inDeg && inDeg[id] == 0 then [id] else [])
  }

  /** Looking at one more node adds its id when its in-degree is zero. */
  lemma ZeroInStep(nodes: seq<Node>, i: nat, inDeg: map<string, int>)
    requires i < |nodes|
    ensures ZeroIn(nodes[..i + 1], inDeg) ==
      ZeroIn(nodes[..i], inDeg) + (if nodes[i].id in inDeg && inDeg[nodes[i].id] == 0 then [nodes[i].id] else [])
  {
    assert nodes[..i + 1][..i] == nodes[..i];
  }

  /** With unique ids, `ZeroIn` lists each id of in-degree zero exactly once, and nothing else. */
  lemma {:induction false} ZeroInIds(nodes: seq<Node>, inDeg: map<string, int>)
    requires UniqueIds(nodes)
    ensures Distinct(ZeroIn(nodes, inDeg))
    ensures forall x :: x in ZeroIn(nodes, inDeg) <==> x in NodeIds(nodes) && x in inDeg && inDeg[x] == 0
    decreases |nodes|
  {
    if nodes != [] {
      var p := nodes[..|nodes| - 1];
      var id := nodes[|nodes| - 1].id;
      ZeroInIds(p, inDeg);
      assert NodeIds(nodes) == NodeIds(p) + {id} by {
        assert nodes == p + [nodes[|nodes| - 1]];
      }
      forall n | n in p
        ensures n.id != id
      {
        var k :| 0 <= k < |p| && p[k] == n;
        assert nodes[k] == n;
      }
      var z := ZeroIn(p, inDeg);
      if id in inDeg && inDeg[id] == 0 {
        forall i, j | 0 <= i < j < |z + [id]|
          ensures (z + [id])[i] != (z + [id])[j]
        {
          if j == |z| {
            assert z[i] in z;
          }
        }
      }
    }
  }

  /** The initial queue: the ids of in-degree zero, in node order (src/engine/compute.ts:93-94). */
  method InitialQueue(g: Graph, inDeg: map<string, int>) returns (queue: seq<string>)
    requires UniqueIds(g.nodes)
    requires inDeg.Keys == NodeIds(g.nodes)
    ensures queue == ZeroIn(g.nodes, inDeg)
    ensures Distinct(queue)
    ensures forall x :: x in queue <==> x in NodeIds(g.nodes) && inDeg[x] == 0
  {
    queue := [];
    var i := 0;
    while i < |g.nodes|
      invariant 0 <= i <= |g.nodes|
      invariant queue == ZeroIn(g.nodes[..i], inDeg)
    {
      ZeroInStep(g.nodes, i, inDeg);
      var id := g.nodes[i].id;
      if inDeg[id] == 0 {
        queue := queue + [id];
      }
      i := i + 1;
    }
    assert g.nodes[..i] == g.nodes;
    ZeroInIds(g.nodes, inDeg);
  }

  /** Appending `u`, all of whose in-edges start at already emitted nodes, keeps the order forward. */
  lemma ForwardAppend(edges: seq<Edge>, ordered: seq<string>, u: string)
    requires Forward(edges, ordered)
    requires InCount(edges, u, Elems(ordered)) == 0
    ensures Forward(edges, ordered + [u])
  {
    InCountZero(edges, u, Elems(ordered));
    var o := ordered + [u];
    forall k, j | 0 <= k < |edges| && 0 <= j < |o| && edges[k].to == o[j]
      ensures edges[k].from in o[..j]
    {
      if j < |ordered| {
        assert o[..j] == ordered[..j];
      } else {
        assert o[..j] == ordered;
      }
    }
  }

  /** `adj` is the successor map of `edges` over the node set `V`. */
  ghost predicate AdjacencyOf(edges: seq<Edge>, V: set<string>, adj: map<string, seq<string>>)
  {
    adj.Keys == V && forall u :: u in adj ==> adj[u] == Targets(edges, u)
  }

  /** Every edge runs between nodes of `V`. */
  ghost predicate Closed(edges: seq<Edge>, V: set<string>)
  {
    forall k :: 0 <= k < |edges| ==> edges[k].from in V && edges[k].to in V
  }

  /** Queue bookkeeping of Kahn's algorithm: the emitted and queued ids are
      distinct nodes, and they are exactly the nodes whose in-degree is zero. */
  ghost predicate QueueState(V: set<string>, inDeg: map<string, int>, ordered: seq<string>, queue: seq<string>)
  {
    inDeg.Keys == V &&
    Distinct(ordered + queue) &&
    (forall x :: x in ordered + queue ==> x in V) &&
    (forall v :: v in V ==> (inDeg[v] == 0 <==> v in ordered + queue))
  }

  /** Decrementing a positive in-degree, and queueing the node when it reaches zero. */
  lemma DecrementStep(V: set<string>, inDeg: map<string, int>, ordered: seq<string>, queue: seq<string>, nxt: string)
    requires QueueState(V, inDeg, ordered, queue)
    requires nxt in V && inDeg[nxt] >= 1
    ensures QueueState(V, inDeg[nxt := inDeg[nxt] - 1], ordered,
                       if inDeg[nxt] == 1 then queue + [nxt] else queue)
  {
    if inDeg[nxt] == 1 {
      assert ordered + (queue + [nxt]) == (ordered + queue) + [nxt];
    }
  }

  /** Moving the queue head to the emitted list keeps the bookkeeping. */
  lemma EmitStep(V: set<string>, inDeg: map<string, int>, ordered: seq<string>, queue: seq<string>)
    requires QueueState(V, inDeg, ordered, queue) && queue != []
    ensures queue[0] !in Elems(ordered)
    ensures QueueState(V, inDeg, ordered + [queue[0]], queue[1..])
  {
    assert ordered + queue == (ordered + [queue[0]]) + queue[1..];
    forall i | 0 <= i < |ordered|
      ensures ordered[i] != queue[0]
    {
      assert ordered[i] == (ordered + queue)[i] && queue[0] == (ordered + queue)[|ordered|];
    }
  }

  /** When the queue runs dry, the nodes never emitted each keep an edge from
      another such node, so they contain a cycle. */
  lemma LeftoverCycle(edges: seq<Edge>, V: set<string>, adj: map<string, seq<string>>, ordered: seq<string>)
    requires Closed(edges, V) && AdjacencyOf(edges, V, adj)
    requires forall x :: x in ordered ==> x in V
    requires forall v :: v in V && v !in ordered ==> InCount(edges, v, Elems(ordered)) != 0
    ensures Elems(ordered) != V ==> HasCycle(adj)
  {
    var S := V - Elems(ordered);
    assert Elems(ordered) <= V;
    if S == {} {
      forall x | x in V
        ensures x in Elems(ordered)
      {
        assert x !in S;
      }
    } else {
      forall v | v in S
        ensures HasPredIn(adj, S, v)
      {
        InCountZero(edges, v, Elems(ordered));
        var k :| 0 <= k < |edges| && edges[k].to == v && edges[k].from !in Elems(ordered);
        TargetsComplete(edges, edges[k].from, k);
        assert edges[k].from in S;
      }
      StuckImpliesCycle(adj, S);
    }
  }

  /** The in-degrees left once `u` is emitted: its arcs come off. */
  lemma EmitDegrees(edges: seq<Edge>, V: set<string>, adj: map<string, seq<string>>,
                    inDeg: map<string, int>, ordered: seq<string>, u: string) returns (rest: map<string, nat>)
    requires Closed(edges, V) && AdjacencyOf(edges, V, adj)
    requires u in V && u !in Elems(ordered)
    requires inDeg.Keys == V
    requires forall v :: v in V ==> inDeg[v] == InCount(edges, v, Elems(ordered))
    ensures rest.Keys == V
    ensures forall v :: v in V ==> rest[v] == InCount(edges, v, Elems(ordered + [u]))
    ensures forall v :: v in V ==> inDeg[v] == rest[v] + Count(adj[u], v)
    ensures forall x :: x in adj[u] ==> x in V
  {
    var done := Elems(ordered);
    assert Elems(ordered + [u]) == done + {u};
    rest := map v | v in V :: InCount(edges, v, done + {u});
    forall v | v in V
      ensures inDeg[v] == rest[v] + Count(adj[u], v)
    {
      InCountEmit(edges, v, done, u);
    }
    forall x | x in adj[u]
      ensures x in V
    {
      var k := TargetsSound(edges, u, x);
    }
  }

  /** The in-degrees and the queue once one unit of in-degree has come off
      each entry of `succ` in turn, a successor joining the back of the queue
      the moment its in-degree reaches zero (src/engine/compute.ts:99-103).
      An id without an entry counts as in-degree zero. */
  function Released(succ: seq<string>, inDeg: map<string, int>, queue: seq<string>): (map<string, int>, seq<string>)
    decreases |succ|
  {
    if succ == [] then (inDeg, queue)
    else
      var nxt := succ[0];
      var d := (if nxt in inDeg then inDeg[nxt] else 0) - 1;
      Released(succ[1..], inDeg[nxt := d], if d == 0 then queue + [nxt] else queue)
  }

  /** The ids Kahn's loop emits from the given in-degrees and queue: the head
      of the queue is emitted and its successors released, until the queue
      is empty or `fuel` ids have been emitted. */
  function KahnFrom(adj: map<string, seq<string>>, inDeg: map<string, int>, queue: seq<string>, fuel: nat): seq<string>
    decreases fuel
  {
    if queue == [] || fuel == 0 then []
    else
      var u := queue[0];
      var next := Released(if u in adj then adj[u] else [], inDeg, queue[1..]);
      [u] + KahnFrom(adj, next.0, next.1, fuel - 1)
  }

  /** The Kahn loop (src/engine/compute.ts:95-104). It emits the ids in the
      first-in first-out order of `KahnFrom`, which needs no more fuel than
      there are nodes. What it emits is a repetition-free, forward-ordered
      list of node ids; any node it leaves out lies on or behind a cycle. */
  method Kahn(edges: seq<Edge>, ghost V: set<string>, outByNode: map<string, seq<string>>,
              inDeg0: map<string, int>, queue0: seq<string>) returns (ordered: seq<string>)
    requires Closed(edges, V) && AdjacencyOf(edges, V, outByNode)
    requires inDeg0.Keys == V
    requires forall v :: v in V ==> inDeg0[v] == InCount(edges, v, {})
    requires Distinct(queue0)
    requires forall x :: x in queue0 <==> x in V && inDeg0[x] == 0
    ensures Distinct(ordered)
    ensures forall x :: x in ordered ==> x in V
    ensures Forward(edges, ordered)
    ensures Elems(ordered) != V ==> HasCycle(outByNode)
    ensures ordered == KahnFrom(outByNode, inDeg0, queue0, |V|)
  {
    var inDeg := inDeg0;
    var queue := queue0;
    ordered := [];
    assert Elems(ordered) == {};
    assert ordered + queue == queue;
    DistinctBound(ordered + queue, V);
    while queue != []
      invariant QueueState(V, inDeg, ordered, queue)
      invariant |ordered| + |queue| <= |V|
      invariant forall v :: v in V ==> inDeg[v] == InCount(edges, v, Elems(ordered))
      invariant Forward(edges, ordered)
      invariant KahnTracks(outByNode, inDeg0, queue0, |V|, inDeg, queue, ordered)
      decreases |V| - |ordered|
    {
      var u := queue[0];
      EmitStep(V, inDeg, ordered, queue);
      ForwardAppend(edges, ordered, u);
      ghost var rest := EmitDegrees(edges, V, outByNode, inDeg, ordered, u);
      ghost var before, inDeg1, queue1 := ordered, inDeg, queue;
      queue := queue[1..];
      ordered := ordered + [u];
      var succ := outByNode[u];
      inDeg, queue := Release(V, rest, succ, inDeg, ordered, queue);
      KahnStep(outByNode, inDeg0, queue0, inDeg1, queue1, |V|, inDeg, queue, before);
      DistinctBound(ordered + queue, V);
    }
    assert ordered + queue == ordered;
    LeftoverCycle(edges, V, outByNode, ordered);
  }

  /** The ids emitted so far, followed by what Kahn's loop goes on to emit
      from the current in-degrees and queue, are what it emits from the start. */
  ghost predicate KahnTracks(adj: map<string, seq<string>>, inDeg0: map<string, int>, queue0: seq<string>, n: nat,
                             inDeg: map<string, int>, queue: seq<string>, ordered: seq<string>)
  {
    |ordered| <= n && ordered + KahnFrom(adj, inDeg, queue, n - |ordered|) == KahnFrom(adj, inDeg0, queue0, n)
  }

  /** One pass of Kahn's loop consumes one unit of fuel and emits the queue head. */
  lemma KahnStep(adj: map<string, seq<string>>, inDeg0: map<string, int>, queue0: seq<string>,
                 inDeg: map<string, int>, queue: seq<string>, n: nat,
                 inDeg': map<string, int>, queue': seq<string>, ordered: seq<string>)
    requires queue != [] && |ordered| < n && queue[0] in adj
    requires (inDeg', queue') == Released(adj[queue[0]], inDeg, queue[1..])
    requires KahnTracks(adj, inDeg0, queue0, n, inDeg, queue, ordered)
    ensures KahnTracks(adj, inDeg0, queue0, n, inDeg', queue', ordered + [queue[0]])
  {
    assert n - |ordered + [queue[0]]| == n - |ordered| - 1;
  }

  /** The inner loop of Kahn's algorithm (src/engine/compute.ts:99-103): one
      unit of in-degree comes off per arc out of the emitted node, and a
      successor joins the queue the moment its in-degree reaches zero. */
  method Release(ghost V: set<string>, ghost rest: map<string, nat>, succ: seq<string>,
                 inDeg0: map<string, int>, ghost ordered: seq<string>, queue0: seq<string>)
    returns (inDeg: map<string, int>, queue: seq<string>)
    requires forall x :: x in succ ==> x in V
    requires rest.Keys == V
    requires QueueState(V, inDeg0, ordered, queue0)
    requires forall v :: v in V ==> inDeg0[v] == rest[v] + Count(succ, v)
    ensures QueueState(V, inDeg, ordered, queue)
    ensures forall v :: v in V ==> inDeg[v] == rest[v]
    ensures |queue| >= |queue0| && queue[..|queue0|] == queue0
    ensures (inDeg, queue) == Released(succ, inDeg0, queue0)
  {
    assert succ[0..] == succ && queue0[..|queue0|] == queue0;
    ReleasedFacts(V, rest, succ, inDeg0, queue0, ordered, queue0);
    inDeg, queue := inDeg0, queue0;
    var j := 0;
    while j < |succ|
      invariant 0 <= j <= |succ|
      invariant ReleaseTracks(succ, j, inDeg0, queue0, inDeg, queue)
    {
      var nxt := succ[j];
      ReleasedStep(succ, j, inDeg0, queue0, inDeg, queue);
      var d := (if nxt in inDeg then inDeg[nxt] else 0) - 1;
      inDeg := inDeg[nxt := d];
      if d == 0 {
        queue := queue + [nxt];
      }
      j := j + 1;
    }
    assert succ[j..] == [];
  }

  /** The state `Release` ends in: the queue bookkeeping holds, every
      in-degree is down to `rest`, and `queue0` is still at the front. */
  ghost predicate Settled(V: set<string>, rest: map<string, nat>, ordered: seq<string>, queue0: seq<string>,
                          r: (map<string, int>, seq<string>))
  {
    && QueueState(V, r.0, ordered, r.1)
    && (forall v :: v in V ==> v in r.0 && v in rest && r.0[v] == rest[v])
    && |r.1| >= |queue0| && r.1[..|queue0|] == queue0
  }

  /** Releasing the entries of `succ` keeps the queue bookkeeping, brings
      each in-degree down to `rest` and only appends to the queue. */
  lemma {:induction false} ReleasedFacts(V: set<string>, rest: map<string, nat>, succ: seq<string>,
                                         inDeg: map<string, int>, queue: seq<string>, ordered: seq<string>, queue0: seq<string>)
    requires (forall x :: x in succ ==> x in V) && rest.Keys == V
    requires QueueState(V, inDeg, ordered, queue)
    requires forall v :: v in V ==> inDeg[v] == rest[v] + Count(succ, v)
    requires |queue| >= |queue0| && queue[..|queue0|] == queue0
    ensures Settled(V, rest, ordered, queue0, Released(succ, inDeg, queue))
    decreases |succ|
  {
    if succ != [] {
      var nxt, tail := succ[0], succ[1..];
      forall v | v in V
        ensures inDeg[v] == rest[v] + Count(tail, v) + (if nxt == v then 1 else 0)
      {
        assert succ == [nxt] + tail;
        CountAppend([nxt], tail, v);
        assert [nxt][..0] == [];
      }
      DecrementStep(V, inDeg, ordered, queue, nxt);
      var d := (if nxt in inDeg then inDeg[nxt] else 0) - 1;
      var q := if d == 0 then queue + [nxt] else queue;
      assert Released(succ, inDeg, queue) == Released(tail, inDeg[nxt := d], q);
      assert q[..|queue0|] == queue0;
      ReleasedFacts(V, rest, tail, inDeg[nxt := d], q, ordered, queue0);
    } else {
      assert Released(succ, inDeg, queue) == (inDeg, queue);
    }
  }

  /** What is left to release from position `j` on leads to what releasing
      all of `succ` from the start does. */
  ghost predicate ReleaseTracks(succ: seq<string>, j: nat, inDeg0: map<string, int>, queue0: seq<string>,
                                inDeg: map<string, int>, queue: seq<string>)
  {
    j <= |succ| && Released(succ[j..], inDeg, queue) == Released(succ, inDeg0, queue0)
  }

  /** Releasing `succ[j]` moves one position on. */
  lemma ReleasedStep(succ: seq<string>, j: nat, inDeg0: map<string, int>, queue0: seq<string>,
                     inDeg: map<string, int>, queue: seq<string>)
    requires j < |succ|
    requires ReleaseTracks(succ, j, inDeg0, queue0, inDeg, queue)
    ensures var d := (if succ[j] in inDeg then inDeg[succ[j]] else 0) - 1;
      ReleaseTracks(succ, j + 1, inDeg0, queue0, inDeg[succ[j] := d], if d == 0 then queue + [succ[j]] else queue)
  {
    assert succ[j..][1..] == succ[j + 1..];
  }

  /** The ids of `nodes` outside `done`, in node order, each at its first occurrence. */
  function Missing(nodes: seq<Node>, done: set<string>): seq<string>
    decreases |nodes|
  {
    if nodes == [] then []
    else if nodes[0].id in done then Missing(nodes[1..], done)
    else [nodes[0].id] + Missing(nodes[1..], done + {nodes[0].id})
  }

  /** `Missing` lists every node id outside `done` exactly once, and nothing else. */
  lemma {:induction false} MissingIds(nodes: seq<Node>, done: set<string>)
    ensures Distinct(Missing(nodes, done))
    ensures Elems(Missing(nodes, done)) == NodeIds(nodes) - done
    decreases |nodes|
  {
    if nodes != [] {
      var id := nodes[0].id;
      assert NodeIds(nodes) == {id} + NodeIds(nodes[1..]) by {
        assert nodes == [nodes[0]] + nodes[1..];
      }
      if id in done {
        MissingIds(nodes[1..], done);
      } else {
        var rest := Missing(nodes[1..], done + {id});
        MissingIds(nodes[1..], done + {id});
        assert id !in Elems(rest);
        assert Elems([id] + rest) == {id} + Elems(rest);
        forall i, j | 0 <= i < j < |[id] + rest|
          ensures ([id] + rest)[i] != ([id] + rest)[j]
        {
          if i == 0 {
            assert rest[j - 1] in Elems(rest);
          }
        }
      }
    }
  }

  /** The ids appended so far, followed by the ids still missing from the
      nodes after position `i`, are what the fallback appends from the start. */
  ghost predicate MissingTracks(nodes: seq<Node>, i: nat, ordered0: seq<string>, ordered: seq<string>)
  {
    i <= |nodes| && ordered + Missing(nodes[i..], Elems(ordered)) == ordered0 + Missing(nodes, Elems(ordered0))
  }

  /** Looking at the node at position `i` appends its id unless it is already listed. */
  lemma MissingStep(nodes: seq<Node>, i: nat, ordered0: seq<string>, ordered: seq<string>)
    requires i < |nodes| && MissingTracks(nodes, i, ordered0, ordered)
    ensures MissingTracks(nodes, i + 1, ordered0, if nodes[i].id in ordered then ordered else ordered + [nodes[i].id])
  {
    var id := nodes[i].id;
    assert nodes[i..][1..] == nodes[i + 1..];
    if id !in ordered {
      assert Elems(ordered + [id]) == Elems(ordered) + {id};
      assert ordered + ([id] + Missing(nodes[i + 1..], Elems(ordered) + {id}))
          == (ordered + [id]) + Missing(nodes[i + 1..], Elems(ordered) + {id});
    }
  }

  /** The fallback of src/engine/compute.ts:105-108: every node id not yet
      emitted is appended, in node order. */
  method AppendRemaining(nodes: seq<Node>, ordered0: seq<string>) returns (ordered: seq<string>)
    requires Distinct(ordered0)
    ensures ordered == ordered0 + Missing(nodes, Elems(ordered0))
    ensures Distinct(ordered)
    ensures Elems(ordered) == Elems(ordered0) + NodeIds(nodes)
    ensures |ordered| >= |ordered0| && ordered[..|ordered0|] == ordered0
  {
    ordered := ordered0;
    var i := 0;
    while i < |nodes|
      invariant 0 <= i <= |nodes|
      invariant MissingTracks(nodes, i, ordered0, ordered)
    {
      MissingStep(nodes, i, ordered0, ordered);
      if nodes[i].id !in ordered {
        ordered := ordered + [nodes[i].id];
      }
      i := i + 1;
    }
    assert nodes[i..] == [] && ordered + [] == ordered;
    assert ordered == ordered0 + Missing(nodes, Elems(ordered0));
    MissingIds(nodes, Elems(ordered0));
    DistinctDisjoint(ordered0, Missing(nodes, Elems(ordered0)));
    assert ordered[..|ordered0|] == ordered0;
  }

  /** Two repetition-free lists with no element in common concatenate to a repetition-free list. */
  lemma DistinctDisjoint<T>(s: seq<T>, t: seq<T>)
    requires Distinct(s) && Distinct(t) && Elems(s) !! Elems(t)
    ensures Distinct(s + t) && Elems(s + t) == Elems(s) + Elems(t)
  {
    forall i, j | 0 <= i < j < |s + t|
      ensures (s + t)[i] != (s + t)[j]
    {
      if i < |s| && j >= |s| {
        assert s[i] in Elems(s) && t[j - |s|] in Elems(t);
      }
    }
  }

  /** The in-degree of every node before any is emitted (src/engine/compute.ts:82-90). */
  function InDegrees(g: Graph): map<string, int>
  {
    map v | v in NodeIds(g.nodes) :: InCount(g.edges, v, {})
  }

  /** The evaluation order of `computeScenario` as a function of the graph:
      Kahn's order from the in-degree-zero ids in node order, followed, when
      it misses a node, by the missing ids in node order. */
  function Schedule(g: Graph): seq<string>
  {
    var inDeg := InDegrees(g);
    var kahn := KahnFrom(Adjacency(g), inDeg, ZeroIn(g.nodes, inDeg), |g.nodes|);
    if |kahn| < |g.nodes| then kahn + Missing(g.nodes, Elems(kahn)) else kahn
  }

  /** The in-degrees `BuildDegrees` computes are `InDegrees`. */
  lemma InDegreesIs(g: Graph, inDeg: map<string, int>)
    requires inDeg.Keys == NodeIds(g.nodes)
    requires forall v :: v in inDeg ==> inDeg[v] == InCount(g.edges, v, {})
    ensures inDeg == InDegrees(g)
  {
  }

  /** `Schedule` in terms of the ids Kahn's loop emits. */
  lemma ScheduleFrom(g: Graph, kahn: seq<string>)
    requires kahn == KahnFrom(Adjacency(g), InDegrees(g), ZeroIn(g.nodes, InDegrees(g)), |g.nodes|)
    ensures Schedule(g) == if |kahn| < |g.nodes| then kahn + Missing(g.nodes, Elems(kahn)) else kahn
  {
  }

  /** The in-degrees, the initial queue and the Kahn loop together
      (src/engine/compute.ts:81-104): the ids Kahn's algorithm emits for the
      graph, without repetition and forward-ordered; when some node is not
      emitted the graph has a cycle. */
  method KahnOrder(g: Graph) returns (kahn: seq<string>)
    requires UniqueIds(g.nodes) && EdgesWellFormed(g)
    ensures kahn == KahnFrom(Adjacency(g), InDegrees(g), ZeroIn(g.nodes, InDegrees(g)), |g.nodes|)
    ensures Distinct(kahn) && (forall x :: x in kahn ==> x in NodeIds(g.nodes))
    ensures Forward(g.edges, kahn)
    ensures Elems(kahn) != NodeIds(g.nodes) ==> HasCycle(Adjacency(g))
  {
    ghost var V := NodeIds(g.nodes);
    var outByNode, inDeg := BuildDegrees(g);
    InDegreesIs(g, inDeg);
    var queue := InitialQueue(g, inDeg);
    UniqueIdsCard(g.nodes);
    kahn := Kahn(g.edges, V, outByNode, inDeg, queue);
  }

  /** The evaluation order of `computeScenario` (src/engine/compute.ts:81-108):
      a permutation of the node ids which, when the graph has no cycle, lists
      the source of every edge before its target. It is the order `Schedule`
      defines. */
  method TopologicalOrder(g: Graph) returns (ordered: seq<string>)
    requires UniqueIds(g.nodes) && EdgesWellFormed(g)
    ensures |ordered| == |g.nodes| && Distinct(ordered)
    ensures Elems(ordered) == NodeIds(g.nodes)
    ensures !HasCycle(Adjacency(g)) ==> Forward(g.edges, ordered)
    ensures ordered == Schedule(g)
  {
    ordered := KahnOrder(g);
    ScheduleFrom(g, ordered);
    KahnCovers(g, ordered);
    if |ordered| < |g.nodes| {
      ordered := AppendRemaining(g.nodes, ordered);
      assert Elems(ordered) == NodeIds(g.nodes);
      DistinctCard(ordered);
      UniqueIdsCard(g.nodes);
    }
  }

  /** A repetition-free list of node ids is no longer than the node list,
      and exactly as long when it holds every id. */
  lemma KahnCovers(g: Graph, ordered: seq<string>)
    requires UniqueIds(g.nodes) && Distinct(ordered)
    requires forall x :: x in ordered ==> x in NodeIds(g.nodes)
    ensures Elems(ordered) <= NodeIds(g.nodes) && |ordered| <= |g.nodes|
    ensures |ordered| < |g.nodes| <==> Elems(ordered) != NodeIds(g.nodes)
  {
    UniqueIdsCard(g.nodes);
    DistinctCard(ordered);
    SubsetCard(Elems(ordered), NodeIds(g.nodes));
    SubsetFull(Elems(ordered), NodeIds(g.nodes));
  }

  /** The edges leaving `u`, in edge order. */
  function EdgesFrom(edges: seq<Edge>, u: string): seq<Edge>
  {
    if edges == [] then []
    else
      var last := edges[|edges| - 1];
      EdgesFrom(edges[..|edges| - 1], u) + (if last.from == u then [last] else [])
  }

  /** The edges entering `v`, in edge order. */
  function EdgesTo(edges: seq<Edge>, v: string): seq<Edge>
  {
    if edges == [] then []
    else
      var last := edges[|edges| - 1];
      EdgesTo(edges[..|edges| - 1], v) + (if last.to == v then [last] else [])
  }

  lemma {:induction false} EdgesToMembers(edges: seq<Edge>, v: string)
    ensures forall e :: e in EdgesTo(edges, v) <==> e in edges && e.to == v
  {
    if edges != [] {
      EdgesToMembers(edges[..|edges| - 1], v);
      assert edges == edges[..|edges| - 1] + [edges[|edges| - 1]];
    }
  }

  lemma {:induction false} EdgesFromMembers(edges: seq<Edge>, u: string)
    ensures forall e :: e in EdgesFrom(edges, u) <==> e in edges && e.from == u
  {
    if edges != [] {
      EdgesFromMembers(edges[..|edges| - 1], u);
      assert edges == edges[..|edges| - 1] + [edges[|edges| - 1]];
    }
  }

  /** `m.get(k) ?? []` */
  function Lookup(m: map<string, seq<Edge>>, k: string): seq<Edge>
  {
    if k in m then m[k] else []
  }

  /** Appending the next edge to its source's list keeps the index equal to
      the edges seen so far, grouped by source. */
  lemma FromStep(edges: seq<Edge>, k: nat, byFrom: map<string, seq<Edge>>, next: map<string, seq<Edge>>)
    requires k < |edges|
    requires forall u :: Lookup(byFrom, u) == EdgesFrom(edges[..k], u)
    requires next == byFrom[edges[k].from := Lookup(byFrom, edges[k].from) + [edges[k]]]
    ensures forall u :: Lookup(next, u) == EdgesFrom(edges[..k + 1], u)
  {
    assert edges[..k + 1][..k] == edges[..k];
  }

  /** The same for the index by target. */
  lemma ToStep(edges: seq<Edge>, k: nat, byTo: map<string, seq<Edge>>, next: map<string, seq<Edge>>)
    requires k < |edges|
    requires forall v :: Lookup(byTo, v) == EdgesTo(edges[..k], v)
    requires next == byTo[edges[k].to := Lookup(byTo, edges[k].to) + [edges[k]]]
    ensures forall v :: Lookup(next, v) == EdgesTo(edges[..k + 1], v)
  {
    assert edges[..k + 1][..k] == edges[..k];
  }

  /** `edgesByFrom` and `edgesByTo` (src/engine/compute.ts:111-118): each edge
      is appended to the list of its source and to the list of its target. */
  method IndexEdges(edges: seq<Edge>) returns (byFrom: map<string, seq<Edge>>, byTo: map<string, seq<Edge>>)
    ensures forall u :: Lookup(byFrom, u) == EdgesFrom(edges, u)
    ensures forall v :: Lookup(byTo, v) == EdgesTo(edges, v)
  {
    byFrom, byTo := map[], map[];
    var k := 0;
    while k < |edges|
      invariant 0 <= k <= |edges|
      invariant forall u :: Lookup(byFrom, u) == EdgesFrom(edges[..k], u)
      invariant forall v :: Lookup(byTo, v) == EdgesTo(edges[..k], v)
    {
      var e := edges[k];
      var from := byFrom[e.from := Lookup(byFrom, e.from) + [e]];
      var to := byTo[e.to := Lookup(byTo, e.to) + [e]];
      FromStep(edges, k, byFrom, from);
      ToStep(edges, k, byTo, to);
      byFrom, byTo := from, to;
      k := k + 1;
    }
    assert edges[..k] == edges;
  }
}
