/** `validateGraph` and `edgeById` (src/graph/validators.ts): warnings for
    Kafka edges between the wrong kinds of node, for topics with unusable
    dials, and one warning when the graph has a directed cycle, found by a
    depth-first search over mutable `visiting` / `visited` sets. Warnings
    are modelled by the facts they report rather than by their text. */
module Validators {
  import opened Util
  import opened Types
  import opened Digraph

  datatype Warning =
    | InvalidKafkaEdge(edgeId: string, fromType: NodeType, toType: NodeType)
    | TopicPartitions(topicLabel: string)
    | TopicThroughput(topicLabel: string)
    | CycleDetected

  // ---------------------------------------------------------------------
  // Edge protocol compatibility (src/graph/validators.ts:7-17)
  // ---------------------------------------------------------------------

  /** Kafka may only link a service to a topic or a topic to a service. */
  predicate KafkaPair(from: NodeType, to: NodeType)
  {
    (from == ServiceType && to == QueueTopicType) || (from == QueueTopicType && to == ServiceType)
  }

  /** A Kafka edge whose two endpoints exist but are not a service/topic pair. */
  predicate Misrouted(nodes: seq<Node>, e: Edge)
  {
    e.protocol == Kafka && e.from in NodeIds(nodes) && e.to in NodeIds(nodes) &&
    !KafkaPair(NodeById(nodes, e.from).Type(), NodeById(nodes, e.to).Type())
  }

  /** The warning reported for a misrouted edge: the types of the first nodes carrying its endpoint ids. */
  function Report(nodes: seq<Node>, e: Edge): Warning
    requires e.from in NodeIds(nodes) && e.to in NodeIds(nodes)
  {
    InvalidKafkaEdge(e.id, NodeById(nodes, e.from).Type(), NodeById(nodes, e.to).Type())
  }

  /** The warnings one edge contributes (none or one). */
  function EdgeWarnings(nodes: seq<Node>, e: Edge): seq<Warning>
  {
    var from := FindNode(nodes, e.from);
    var to := FindNode(nodes, e.to);
    if from.None? || to.None? then []
    else if e.protocol == Kafka && !KafkaPair(from.value.Type(), to.value.Type()) then
      [InvalidKafkaEdge(e.id, from.value.Type(), to.value.Type())]
    else []
  }

  /** An edge is reported exactly when it is misrouted, and then once. */
  lemma EdgeWarningsIff(nodes: seq<Node>, e: Edge)
    ensures Misrouted(nodes, e) ==> EdgeWarnings(nodes, e) == [Report(nodes, e)]
    ensures !Misrouted(nodes, e) ==> EdgeWarnings(nodes, e) == []
  {
  }

  function ProtocolWarnings(nodes: seq<Node>, edges: seq<Edge>): seq<Warning>
  {
    if edges == [] then []
    else ProtocolWarnings(nodes, edges[..|edges| - 1]) + EdgeWarnings(nodes, edges[|edges| - 1])
  }

  /** Every protocol warning reports a misrouted edge. */
  lemma {:induction false} ProtocolWarningsSound(nodes: seq<Node>, edges: seq<Edge>, w: Warning) returns (k: nat)
    requires w in ProtocolWarnings(nodes, edges)
    ensures k < |edges| && Misrouted(nodes, edges[k]) && w == Report(nodes, edges[k])
  {
    var p := edges[..|edges| - 1];
    EdgeWarningsIff(nodes, edges[|edges| - 1]);
    if w in ProtocolWarnings(nodes, p) {
      k := ProtocolWarningsSound(nodes, p, w);
      assert edges[k] == p[k];
    } else {
      k := |edges| - 1;
    }
  }

  /** Every misrouted edge is reported. */
  lemma {:induction false} ProtocolWarningsComplete(nodes: seq<Node>, edges: seq<Edge>, k: nat)
    requires k < |edges| && Misrouted(nodes, edges[k])
    ensures Report(nodes, edges[k]) in ProtocolWarnings(nodes, edges)
  {
    var p := edges[..|edges| - 1];
    if k < |p| {
      assert edges[k] == p[k];
      ProtocolWarningsComplete(nodes, p, k);
    } else {
      EdgeWarningsIff(nodes, edges[k]);
    }
  }

  /** At most one protocol warning per edge. */
  lemma {:induction false} ProtocolWarningsLength(nodes: seq<Node>, edges: seq<Edge>)
    ensures |ProtocolWarnings(nodes, edges)| <= |edges|
  {
    if edges != [] {
      ProtocolWarningsLength(nodes, edges[..|edges| - 1]);
    }
  }

  /** One more edge appends its own warnings. */
  lemma ProtocolStep(nodes: seq<Node>, edges: seq<Edge>, k: nat)
    requires k < |edges|
    ensures ProtocolWarnings(nodes, edges[..k + 1]) == ProtocolWarnings(nodes, edges[..k]) + EdgeWarnings(nodes, edges[k])
  {
    assert edges[..k + 1][..k] == edges[..k];
  }

  /** The first loop of `validateGraph`. */
  method CheckProtocols(g: Graph) returns (warnings: seq<Warning>)
    ensures warnings == ProtocolWarnings(g.nodes, g.edges)
  {
    warnings := [];
    var k := 0;
    while k < |g.edges|
      invariant 0 <= k <= |g.edges|
      invariant warnings == ProtocolWarnings(g.nodes, g.edges[..k])
    {
      var edge := g.edges[k];
      ghost var before := warnings;
      var from := FindNode(g.nodes, edge.from);
      var to := FindNode(g.nodes, edge.to);
      if from.Some? && to.Some? && edge.protocol == Kafka {
        var ok := KafkaPair(from.value.Type(), to.value.Type());
        if !ok {
          warnings := warnings + [InvalidKafkaEdge(edge.id, from.value.Type(), to.value.Type())];
        }
      }
      assert warnings == before + EdgeWarnings(g.nodes, edge);
      ProtocolStep(g.nodes, g.edges, k);
      k := k + 1;
    }
    assert g.edges[..k] == g.edges;
  }

  // ---------------------------------------------------------------------
  // Topic dials (src/graph/validators.ts:20-27)
  // ---------------------------------------------------------------------

  /** `Number.isInteger` on a finite number. */
  predicate IsInteger(x: real)
  {
    x == x.Floor as real
  }

  predicate BadPartitions(n: Node)
  {
    n.kind.QueueTopic? && (n.kind.topic.partitions <= 0.0 || !IsInteger(n.kind.topic.partitions))
  }

  predicate BadThroughput(n: Node)
  {
    n.kind.QueueTopic? && n.kind.topic.perPartitionThroughput <= 0.0
  }

  /** The warnings one node contributes: partitions first, then throughput. */
  function NodeWarnings(n: Node): seq<Warning>
  {
    match n.kind
    case QueueTopic(t) =>
      (if t.partitions <= 0.0 || !IsInteger(t.partitions) then [TopicPartitions(n.labelText)] else []) +
      (if t.perPartitionThroughput <= 0.0 then [TopicThroughput(n.labelText)] else [])
    case _ => []
  }

  function TopicWarnings(nodes: seq<Node>): seq<Warning>
  {
    if nodes == [] then []
    else TopicWarnings(nodes[..|nodes| - 1]) + NodeWarnings(nodes[|nodes| - 1])
  }

  /** Topic warnings are only ever about partitions or throughput. */
  lemma {:induction false} TopicWarningsKinds(nodes: seq<Node>, w: Warning)
    requires w in TopicWarnings(nodes)
    ensures w.TopicPartitions? || w.TopicThroughput?
  {
    if w !in NodeWarnings(nodes[|nodes| - 1]) {
      TopicWarningsKinds(nodes[..|nodes| - 1], w);
    }
  }

  /** A partitions warning names a topic whose partition count is not a positive integer. */
  lemma {:induction false} TopicPartitionsSound(nodes: seq<Node>, name: string) returns (k: nat)
    requires TopicPartitions(name) in TopicWarnings(nodes)
    ensures k < |nodes| && BadPartitions(nodes[k]) && nodes[k].labelText == name
  {
    var p := nodes[..|nodes| - 1];
    if TopicPartitions(name) in TopicWarnings(p) {
      k := TopicPartitionsSound(p, name);
      assert nodes[k] == p[k];
    } else {
      k := |nodes| - 1;
    }
  }

  /** Every topic whose partition count is not a positive integer is named. */
  lemma {:induction false} TopicPartitionsComplete(nodes: seq<Node>, k: nat)
    requires k < |nodes| && BadPartitions(nodes[k])
    ensures TopicPartitions(nodes[k].labelText) in TopicWarnings(nodes)
  {
    var p := nodes[..|nodes| - 1];
    if k < |p| {
      assert nodes[k] == p[k];
      TopicPartitionsComplete(p, k);
    }
  }

  /** A throughput warning names a topic whose per-partition throughput is not positive. */
  lemma {:induction false} TopicThroughputSound(nodes: seq<Node>, name: string) returns (k: nat)
    requires TopicThroughput(name) in TopicWarnings(nodes)
    ensures k < |nodes| && BadThroughput(nodes[k]) && nodes[k].labelText == name
  {
    var p := nodes[..|nodes| - 1];
    if TopicThroughput(name) in TopicWarnings(p) {
      k := TopicThroughputSound(p, name);
      assert nodes[k] == p[k];
    } else {
      k := |nodes| - 1;
    }
  }

  /** Every topic whose per-partition throughput is not positive is named. */
  lemma {:induction false} TopicThroughputComplete(nodes: seq<Node>, k: nat)
    requires k < |nodes| && BadThroughput(nodes[k])
    ensures TopicThroughput(nodes[k].labelText) in TopicWarnings(nodes)
  {
    var p := nodes[..|nodes| - 1];
    if k < |p| {
      assert nodes[k] == p[k];
      TopicThroughputComplete(p, k);
    }
  }

  /** The second loop of `validateGraph`. */
  method CheckTopics(nodes: seq<Node>) returns (warnings: seq<Warning>)
    ensures warnings == TopicWarnings(nodes)
  {
    warnings := [];
    var i := 0;
    while i < |nodes|
      invariant 0 <= i <= |nodes|
      invariant warnings == TopicWarnings(nodes[..i])
    {
      var node := nodes[i];
      assert nodes[..i + 1][..i] == nodes[..i];
      ghost var before := warnings;
      if node.kind.QueueTopic? {
        var t := node.kind.topic;
        ghost var first := if t.partitions <= 0.0 || !IsInteger(t.partitions) then [TopicPartitions(node.labelText)] else [];
        if t.partitions <= 0.0 || !IsInteger(t.partitions) {
          warnings := warnings + [TopicPartitions(node.labelText)];
        }
        assert warnings == before + first;
        if t.perPartitionThroughput <= 0.0 {
          warnings := warnings + [TopicThroughput(node.labelText)];
          assert warnings == before + (first + [TopicThroughput(node.labelText)]);
        }
      }
      assert warnings == before + NodeWarnings(node);
      i := i + 1;
    }
    assert nodes[..i] == nodes;
  }

  // ---------------------------------------------------------------------
  // Cycle detection (src/graph/validators.ts:29-54)
  // ---------------------------------------------------------------------

  /** `adjacency`: an empty list per node id, then each edge's target appended
      to the list of its source, when the source is a node. */
  method BuildAdjacency(g: Graph) returns (adj: map<string, seq<string>>)
    ensures adj == Adjacency(g)
  {
    adj := map[];
    var i := 0;
    while i < |g.nodes|
      invariant 0 <= i <= |g.nodes|
      invariant adj.Keys == NodeIds(g.nodes[..i])
      invariant forall u :: u in adj ==> adj[u] == []
    {
      assert NodeIds(g.nodes[..i + 1]) == NodeIds(g.nodes[..i]) + {g.nodes[i].id} by {
        assert g.nodes[..i + 1] == g.nodes[..i] + [g.nodes[i]];
      }
      adj := adj[g.nodes[i].id := []];
      i := i + 1;
    }
    assert g.nodes[..i] == g.nodes;
    var k := 0;
    while k < |g.edges|
      invariant 0 <= k <= |g.edges|
      invariant adj.Keys == NodeIds(g.nodes)
      invariant forall u :: u in adj ==> adj[u] == Targets(g.edges[..k], u)
    {
      var e := g.edges[k];
      AdjacencyStep(g.edges, k, adj);
      if e.from in adj {
        adj := adj[e.from := adj[e.from] + [e.to]];
      }
      k := k + 1;
    }
    assert g.edges[..k] == g.edges;
    assert forall u :: u in adj ==> adj[u] == Adjacency(g)[u];
  }

  /** Recording one more edge keeps every successor list equal to the
      targets of the edges recorded so far. */
  lemma AdjacencyStep(edges: seq<Edge>, k: nat, adj: map<string, seq<string>>)
    requires k < |edges|
    requires forall u :: u in adj ==> adj[u] == Targets(edges[..k], u)
    ensures var e := edges[k];
      var next := if e.from in adj then adj[e.from := adj[e.from] + [e.to]] else adj;
      forall u :: u in next ==> next[u] == Targets(edges[..k + 1], u)
  {
    assert edges[..k + 1][..k] == edges[..k];
  }

  /** Finishing ranks that also stay below the number of finished nodes, so
      the next node to finish can take a rank above all of them. */
  ghost predicate Ranked(adj: map<string, seq<string>>, V: set<string>, rank: map<string, nat>)
  {
    Finished(adj, V, rank) && forall v :: v in V ==> rank[v] < |V|
  }

  /** A node all of whose successors are finished may finish next. */
  lemma FinishNode(adj: map<string, seq<string>>, V: set<string>, rank: map<string, nat>, u: string)
    requires Ranked(adj, V, rank) && u !in V
    requires forall w :: w in Succ(adj, u) ==> w in V
    ensures Ranked(adj, V + {u}, rank[u := |V|])
  {
    var V', rank' := V + {u}, rank[u := |V|];
    assert |V'| == |V| + 1;
    forall v | v in V'
      ensures v in rank' && rank'[v] < |V'|
    {
      if v != u {
        assert v in V && rank'[v] == rank[v];
      }
    }
    forall v, w | v in V' && w in Succ(adj, v)
      ensures w in V' && rank'[w] < rank'[v]
    {
      if v == u {
        assert w in V && w != u && rank'[w] == rank[w];
      } else {
        assert v in V && w in V && w != u;
        assert rank'[w] == rank[w] && rank'[v] == rank[v];
      }
    }
  }

  /** Marking a further node of `A` leaves fewer unmarked ones. */
  lemma Shrinks(A: set<string>, B: set<string>, C: set<string>, u: string)
    requires B <= C && u in A && u in C && u !in B
    ensures |A - C| < |A - B|
  {
    assert A - C <= (A - B) - {u};
    SubsetCard(A - C, (A - B) - {u});
  }

  /** Pushing a successor of the top of the stack keeps it a walk. */
  lemma ExtendWalk(adj: map<string, seq<string>>, stack: seq<string>, u: string)
    requires IsWalk(adj, stack)
    requires stack != [] ==> u in Succ(adj, stack[|stack| - 1])
    ensures IsWalk(adj, stack + [u]) && Elems(stack + [u]) == Elems(stack) + {u}
  {
    var path := stack + [u];
    forall i | 0 <= i < |path| - 1
      ensures path[i + 1] in Succ(adj, path[i])
    {
      if i < |stack| - 1 {
        assert path[i] == stack[i] && path[i + 1] == stack[i + 1];
      }
    }
  }

  /** `dfs(nodeId)` over the closed-over sets `visiting` and `visited`,
      passed in and handed back. True means a back edge closed a cycle;
      false means `u` and everything reachable from it is now in `done`
      (the new `visited`), with `visiting` back as it was. `stack` (ghost)
      is the path of nodes in `visiting`; `rank` (ghost) numbers the
      finished nodes in the order they finished. */
  method Dfs(adj: map<string, seq<string>>, u: string, visiting: set<string>, visited: set<string>,
             ghost stack: seq<string>, ghost rank: map<string, nat>)
    returns (found: bool, done: set<string>, ghost ranks: map<string, nat>)
    requires visiting !! visited && Ranked(adj, visited, rank)
    requires u !in visiting && u !in visited
    requires Elems(stack) == visiting && IsWalk(adj, stack)
    requires stack != [] ==> u in Succ(adj, stack[|stack| - 1])
    decreases |adj.Keys - (visiting + visited)|, 0
    ensures found ==> HasCycle(adj)
    ensures !found ==> visited <= done && u in done && visiting !! done && Ranked(adj, done, ranks)
  {
    var active := visiting + {u};
    ghost var path := stack + [u];
    ExtendWalk(adj, stack, u);
    var next := Succ(adj, u);
    done, ranks := visited, rank;
    var i := 0;
    while i < |next|
      invariant 0 <= i <= |next|
      invariant visited <= done && active !! done && Ranked(adj, done, ranks)
      invariant forall j :: 0 <= j < i ==> next[j] in done
    {
      Shrinks(adj.Keys, visiting + visited, active + done, u);
      ghost var before := done;
      found, done, ranks := Explore(adj, u, next[i], active, done, path, ranks);
      if found {
        return;
      }
      PrefixCovered(next, i, before, done);
      i := i + 1;
    }
    FinishNode(adj, done, ranks, u);
    ranks := ranks[u := |done|];
    done := done + {u};
    found := false;
  }

  /** The successors already handled stay handled as `done` grows. */
  lemma PrefixCovered(next: seq<string>, i: nat, before: set<string>, after: set<string>)
    requires i < |next| && before <= after && next[i] in after
    requires forall j :: 0 <= j < i ==> next[j] in before
    ensures forall j :: 0 <= j < i + 1 ==> next[j] in after
  {
  }

  /** The nodes already searched from stay visited as `visited` grows. */
  lemma NodesCovered(nodes: seq<Node>, i: nat, before: set<string>, after: set<string>)
    requires i < |nodes| && before <= after && nodes[i].id in after
    requires forall j :: 0 <= j < i ==> nodes[j].id in before
    ensures forall j :: 0 <= j < i + 1 ==> nodes[j].id in after
  {
  }

  /** One successor `nxt` of the node `u` on top of the stack: skipped when
      visited, a cycle when still being visited, otherwise searched. */
  method Explore(adj: map<string, seq<string>>, u: string, nxt: string, visiting: set<string>, visited: set<string>,
                 ghost path: seq<string>, ghost rank: map<string, nat>)
    returns (found: bool, done: set<string>, ghost ranks: map<string, nat>)
    requires visiting !! visited && Ranked(adj, visited, rank)
    requires Elems(path) == visiting && IsWalk(adj, path)
    requires path != [] && path[|path| - 1] == u && nxt in Succ(adj, u)
    decreases |adj.Keys - (visiting + visited)|, 1
    ensures found ==> HasCycle(adj)
    ensures !found ==> visited <= done && nxt in done && visiting !! done && Ranked(adj, done, ranks)
  {
    if nxt in visited {
      return false, visited, rank;
    }
    if nxt in visiting {
      ghost var m :| 0 <= m < |path| && path[m] == nxt;
      CycleFromStack(adj, path, m);
      return true, visited, rank;
    }
    found, done, ranks := Dfs(adj, nxt, visiting, visited, path, rank);
  }

  /** The driver loop: a search from every node not yet visited, stopping at
      the first cycle. It reports a cycle exactly when the adjacency graph has one. */
  method DetectCycle(g: Graph) returns (found: bool)
    ensures found <==> HasCycle(Adjacency(g))
  {
    var adj := BuildAdjacency(g);
    var visited: set<string> := {};
    ghost var rank: map<string, nat> := map[];
    found := false;
    var i := 0;
    while i < |g.nodes|
      invariant 0 <= i <= |g.nodes|
      invariant found ==> HasCycle(adj)
      invariant !found ==> Ranked(adj, visited, rank)
      invariant !found ==> forall j :: 0 <= j < i ==> g.nodes[j].id in visited
    {
      var n := g.nodes[i];
      ghost var before := visited;
      if n.id !in visited {
        found, visited, rank := Dfs(adj, n.id, {}, visited, [], rank);
        if found {
          break;
        }
      }
      NodesCovered(g.nodes, i, before, visited);
      i := i + 1;
    }
    if !found {
      assert adj.Keys <= visited;
      RankedAcyclic(adj, visited, rank);
    }
  }

  // ---------------------------------------------------------------------
  // validateGraph (src/graph/validators.ts:3-57)
  // ---------------------------------------------------------------------

  /** The warnings `validateGraph` returns, in order. */
  ghost function Validation(g: Graph): seq<Warning>
  {
    ProtocolWarnings(g.nodes, g.edges) + TopicWarnings(g.nodes) +
    (if HasCycle(Adjacency(g)) then [CycleDetected] else [])
  }

  method ValidateGraph(g: Graph) returns (warnings: seq<Warning>)
    ensures warnings == Validation(g)
  {
    warnings := CheckProtocols(g);
    var topics := CheckTopics(g.nodes);
    warnings := warnings + topics;
    var cyclic := DetectCycle(g);
    if cyclic {
      warnings := warnings + [CycleDetected];
    }
  }

  /** The cycle warning appears once when there is a cycle and never otherwise. */
  lemma CycleWarningCount(g: Graph)
    ensures Count(Validation(g), CycleDetected) == if HasCycle(Adjacency(g)) then 1 else 0
  {
    var pw := ProtocolWarnings(g.nodes, g.edges);
    var tw := TopicWarnings(g.nodes);
    CountPositive(pw, CycleDetected);
    CountPositive(tw, CycleDetected);
    if CycleDetected in pw {
      var k := ProtocolWarningsSound(g.nodes, g.edges, CycleDetected);
    }
    if CycleDetected in tw {
      TopicWarningsKinds(g.nodes, CycleDetected);
    }
    CountAppend(pw, tw, CycleDetected);
    CountAppend(pw + tw, if HasCycle(Adjacency(g)) then [CycleDetected] else [], CycleDetected);
  }

  /** An edge from a node back to itself is a cycle. */
  lemma SelfLoopIsCycle(g: Graph, k: nat)
    requires k < |g.edges| && g.edges[k].from == g.edges[k].to
    ensures g.edges[k].from in NodeIds(g.nodes) ==> HasCycle(Adjacency(g))
  {
    var u := g.edges[k].from;
    if u in NodeIds(g.nodes) {
      ArcIff(g, u, u);
      assert IsCycle(Adjacency(g), [u, u]);
    }
  }

  /** A ranking of the nodes that drops along every edge rules out a cycle. */
  lemma EdgeRankingAcyclic(g: Graph, rank: map<string, nat>)
    requires rank.Keys == NodeIds(g.nodes)
    requires forall k :: 0 <= k < |g.edges| ==>
      g.edges[k].from in rank && g.edges[k].to in rank && rank[g.edges[k].to] < rank[g.edges[k].from]
    ensures !HasCycle(Adjacency(g))
  {
    var adj := Adjacency(g);
    forall v, w | v in adj.Keys && w in Succ(adj, v)
      ensures w in adj.Keys && rank[w] < rank[v]
    {
      ArcIff(g, v, w);
    }
    RankedAcyclic(adj, adj.Keys, rank);
  }

  /** A graph whose edges all leave missing nodes has no cycle. */
  lemma NoArcsNoCycle(g: Graph)
    requires forall k :: 0 <= k < |g.edges| ==> g.edges[k].from !in NodeIds(g.nodes)
    ensures !HasCycle(Adjacency(g))
  {
    forall w | IsCycle(Adjacency(g), w)
      ensures false
    {
      ArcIff(g, w[0], w[1]);
    }
  }

  // ---------------------------------------------------------------------
  // edgeById (src/graph/validators.ts:59-61)
  // ---------------------------------------------------------------------

  /** The first edge carrying the id, or none when no edge does. */
  function EdgeById(g: Graph, id: string): (r: Option<Edge>)
    ensures r.None? <==> forall e :: e in g.edges ==> e.id != id
    ensures r.Some? ==> exists k :: (0 <= k < |g.edges| && g.edges[k] == r.value && r.value.id == id &&
      forall j :: 0 <= j < k ==> g.edges[j].id != id)
  {
    var k := FirstEdgeIndex(g.edges, id);
    if k < |g.edges| then Some(g.edges[k]) else None
  }
}
