/** `computeScenario` (src/engine/compute.ts:68-447): seed the entry rates,
    order the nodes, then evaluate each node in that order, annotating its
    inbound edges and feeding its outbound ones. The run's accumulators live
    in a `Scenario` object whose methods update them in place; each method is
    proved against the specification functions of the `Flow` and `Evaluate`
    modules. */
module Engine {
  import opened Util
  import opened Types
  import opened Digraph
  import opened EngineHelpers
  import opened Order
  import opened Join
  import opened Evaluate
  import opened Flow

  datatype BottleneckReason = CapacityExceededReason | DatastoreLimitReason

  datatype Bottleneck = Bottleneck(id: string, reason: BottleneckReason)

  /** The result of a run. The global warning list exists in the result but
      nothing ever adds to it. */
  datatype ScenarioResult = ScenarioResult(
    nodeStats: map<string, NodeStat>,
    edgeStats: map<string, EdgeStat>,
    globalWarnings: seq<string>,
    bottlenecks: seq<Bottleneck>)

  function BottleneckIds(bs: seq<Bottleneck>): set<string>
  {
    set b | b in bs :: b.id
  }

  // ---------------------------------------------------------------- seeding

  /** What a node contributes to the initial ingress: its entry rate for an API endpoint, 0 otherwise. */
  function SeedRate(n: Node): (r: real)
    ensures !n.kind.ApiEndpoint? ==> r == 0.0
    ensures NodeNonNegative(n) ==> r >= 0.0
  {
    if n.kind.ApiEndpoint? then EntryRate(n.kind.api) else 0.0
  }

  /** The initial ingress of an id: the seed rates of all nodes carrying it, summed. */
  function SeedSum(nodes: seq<Node>, id: string): real
  {
    if nodes == [] then 0.0
    else
      var n := nodes[|nodes| - 1];
      SeedSum(nodes[..|nodes| - 1], id) + (if n.id == id then SeedRate(n) else 0.0)
  }

  /** With unique ids, a node's initial ingress is its own seed rate. */
  lemma {:induction false} SeedSumUnique(nodes: seq<Node>, k: nat)
    requires UniqueIds(nodes) && k < |nodes|
    ensures SeedSum(nodes, nodes[k].id) == SeedRate(nodes[k])
  {
    var p := nodes[..|nodes| - 1];
    assert UniqueIds(p);
    if k < |nodes| - 1 {
      SeedSumUnique(p, k);
    } else {
      SeedSumAbsent(p, nodes[k].id);
    }
  }

  lemma {:induction false} SeedSumAbsent(nodes: seq<Node>, id: string)
    requires forall n :: n in nodes ==> n.id != id
    ensures SeedSum(nodes, id) == 0.0
  {
    if nodes != [] {
      assert forall n :: n in nodes[..|nodes| - 1] ==> n in nodes;
      SeedSumAbsent(nodes[..|nodes| - 1], id);
    }
  }

  lemma {:induction false} SeedSumNonNegative(nodes: seq<Node>, id: string)
    requires forall n :: n in nodes ==> NodeNonNegative(n)
    ensures SeedSum(nodes, id) >= 0.0
  {
    if nodes != [] {
      assert forall n :: n in nodes[..|nodes| - 1] ==> n in nodes;
      SeedSumNonNegative(nodes[..|nodes| - 1], id);
      assert nodes[|nodes| - 1] in nodes;
    }
  }

  /** `incoming` seeded (src/engine/compute.ts:75-77): zero for every node,
      then each API endpoint's target rate times its burst factor added. */
  method SeedIncoming(nodes: seq<Node>) returns (incoming: map<string, real>)
    ensures incoming.Keys == NodeIds(nodes)
    ensures forall id :: id in incoming ==> incoming[id] == SeedSum(nodes, id)
  {
    incoming := map[];
    var i := 0;
    while i < |nodes|
      invariant 0 <= i <= |nodes|
      invariant incoming.Keys == NodeIds(nodes[..i])
      invariant forall id :: id in incoming ==> incoming[id] == 0.0
    {
      assert nodes[..i + 1] == nodes[..i] + [nodes[i]];
      incoming := incoming[nodes[i].id := 0.0];
      i := i + 1;
    }
    assert nodes[..i] == nodes;
    i := 0;
    while i < |nodes|
      invariant 0 <= i <= |nodes|
      invariant incoming.Keys == NodeIds(nodes)
      invariant forall id :: id in incoming ==> incoming[id] == SeedSum(nodes[..i], id)
    {
      assert nodes[..i + 1][..i] == nodes[..i];
      var n := nodes[i];
      assert n in nodes;
      if n.kind.ApiEndpoint? {
        incoming := incoming[n.id := incoming[n.id] + EntryRate(n.kind.api)];
      }
      i := i + 1;
    }
    assert nodes[..i] == nodes;
  }

  // ------------------------------------------------------- node evaluation

  /** What evaluating one node yields: its statistics, the consumption its
      inbound edges are annotated with (services only) and the bottleneck it reports. */
  datatype NodeEval = NodeEval(stat: NodeStat, wants: Option<seq<real>>, bottleneck: Option<BottleneckReason>)

  /** `edgeStats[e.id]?.flowRps ?? 0` for each inbound edge, in order. */
  function InboundRates(stats: map<string, EdgeStat>, inEdges: seq<Edge>): (r: seq<real>)
    ensures |r| == |inEdges|
    ensures AllSane(stats) ==> forall i :: 0 <= i < |r| ==> r[i] >= 0.0
  {
    seq(|inEdges|, i requires 0 <= i < |inEdges| =>
      if inEdges[i].id in stats then stats[inEdges[i].id].flowRps else 0.0)
  }

  /** The datastore's inbound streams: each edge's flow, or the node's whole
      ingress for an edge without statistics, with the edge's operation hint. */
  function DatastoreInflows(stats: map<string, EdgeStat>, inEdges: seq<Edge>, fallback: real): (r: seq<EdgeIngress>)
    ensures |r| == |inEdges|
    ensures forall i :: 0 <= i < |r| ==> r[i].opType == inEdges[i].opType
  {
    seq(|inEdges|, i requires 0 <= i < |inEdges| =>
      EdgeIngress(if inEdges[i].id in stats then stats[inEdges[i].id].flowRps else fallback, inEdges[i].opType))
  }

  /** A service (src/engine/compute.ts:125-281): join over the inbound flows,
      then capacity from workers, partitions and the consumer cap. */
  function ServiceEval(nodes: seq<Node>, p: Penalties, d: ServiceDials, inEdges: seq<Edge>,
                       stats: map<string, EdgeStat>, ingress: real, config: EngineConfig): NodeEval
  {
    var rps := InboundRates(stats, inEdges);
    var jo := EvaluateJoin(d.join, ingress, rps);
    var kin := KafkaOnly(inEdges);
    var workers := Workers(d, |kin|, AvailablePartitions(nodes, kin));
    var capacity := ServiceCapacity(p, d, workers, ConsumerCap(nodes, d.concurrency, kin));
    var stat := ServiceStat(p, d, jo.joinIngressRps, capacity, |rps|, MaxPartitions(nodes, kin), config);
    NodeEval(stat, Some(jo.consumption), if stat.backlogRps.Some? then Some(CapacityExceededReason) else None)
  }

  /** One node's evaluation, by type. */
  function EvalNode(nodes: seq<Node>, n: Node, inEdges: seq<Edge>, outs: seq<Edge>,
                    stats: map<string, EdgeStat>, ingress: real, config: EngineConfig): (ev: NodeEval)
    ensures ev.bottleneck.Some? <==> ev.stat.backlogRps.Some?
    ensures ev.bottleneck == Some(CapacityExceededReason) ==> n.kind.Service?
    ensures ev.bottleneck == Some(DatastoreLimitReason) ==> n.kind.Datastore?
    ensures ev.wants.Some? <==> n.kind.Service?
    ensures ev.wants.Some? ==> |ev.wants.value| == |inEdges|
  {
    match n.kind
    case Service(d) => ServiceEval(nodes, n.penalties, d, inEdges, stats, ingress, config)
    case QueueTopic(t) =>
      NodeEval(TopicStat(n.penalties, t, ingress, ConsumerCapTotal(nodes, t, outs)), None, None)
    case ApiEndpoint(a) => NodeEval(ApiStat(n.penalties, a, ingress), None, None)
    case Datastore(d) =>
      var stat := DatastoreStat(n.penalties, d, ingress, Costed(DatastoreInflows(stats, inEdges, ingress), d));
      NodeEval(stat, None, if stat.backlogRps.Some? then Some(DatastoreLimitReason) else None)
  }

  /** With non-negative dials, a non-negative ingress and consistent edge
      statistics, a service's egress and consumption are non-negative. */
  lemma ServiceEvalNonNegative(nodes: seq<Node>, n: Node, inEdges: seq<Edge>,
                               stats: map<string, EdgeStat>, ingress: real, config: EngineConfig)
    requires n.kind.Service?
    requires forall m :: m in nodes ==> NodeNonNegative(m)
    requires NodeNonNegative(n) && ingress >= 0.0 && AllSane(stats)
    ensures ServiceEval(nodes, n.penalties, n.kind.svc, inEdges, stats, ingress, config).stat.egressRps >= 0.0
    ensures forall i :: 0 <= i < |inEdges| ==>
      ServiceEval(nodes, n.penalties, n.kind.svc, inEdges, stats, ingress, config).wants.value[i] >= 0.0
  {
    var d := n.kind.svc;
    var kin := KafkaOnly(inEdges);
    PartitionsBounds(nodes, kin);
    ConsumerCapNonNegative(nodes, d.concurrency, kin);
  }

  /** With non-negative dials, a non-negative ingress and consistent edge
      statistics, every node's egress and consumption are non-negative, and
      its acceptance ratio lies in [0, 1]. */
  lemma EvalNodeNonNegative(nodes: seq<Node>, n: Node, inEdges: seq<Edge>, outs: seq<Edge>,
                            stats: map<string, EdgeStat>, ingress: real, config: EngineConfig)
    requires forall m :: m in nodes ==> NodeNonNegative(m)
    requires NodeNonNegative(n) && ingress >= 0.0 && AllSane(stats)
    ensures EvalNode(nodes, n, inEdges, outs, stats, ingress, config).stat.egressRps >= 0.0
    ensures 0.0 <= Acceptance(EvalNode(nodes, n, inEdges, outs, stats, ingress, config).stat) <= 1.0
    ensures EvalNode(nodes, n, inEdges, outs, stats, ingress, config).wants.Some? ==>
      forall i :: 0 <= i < |inEdges| ==> EvalNode(nodes, n, inEdges, outs, stats, ingress, config).wants.value[i] >= 0.0
  {
    match n.kind
    case Service(d) =>
      ServiceEvalNonNegative(nodes, n, inEdges, stats, ingress, config);
    case QueueTopic(t) =>
      ConsumerCapTotalNonNegative(nodes, t, outs);
    case ApiEndpoint(a) =>
    case Datastore(d) =>
  }

  // -------------------------------------------------------------- the run

  /** The accumulators of a run: the rate arriving at each node, the
      statistics recorded so far and the bottlenecks reported so far. */
  datatype RunState = RunState(
    incoming: map<string, real>,
    nodeStats: map<string, NodeStat>,
    edgeStats: map<string, EdgeStat>,
    bottlenecks: seq<Bottleneck>)

  /** What one iteration of the main loop does to the accumulators: the node
      is evaluated against the rate that has reached it and the statistics of
      its inbound edges, its statistics and bottleneck are recorded, its
      inbound edges are annotated with what it accepted, and its egress is
      distributed over its outbound edges. */
  function NodeStep(nodes: seq<Node>, n: Node, inEdges: seq<Edge>, outs: seq<Edge>, config: EngineConfig,
                    s: RunState): RunState
  {
    var ev := EvalNode(nodes, n, inEdges, outs, s.edgeStats, Get(s.incoming, n.id), config);
    var f := DistributeAll(Flows(s.incoming, AnnotateAll(s.edgeStats, inEdges, ev.wants, Acceptance(ev.stat))),
                           nodes, outs, ev.stat.egressRps, Duplicates(n), TotalWeight(outs));
    RunState(f.incoming, s.nodeStats[n.id := ev.stat], f.edgeStats,
             s.bottlenecks + (if ev.bottleneck.Some? then [Bottleneck(n.id, ev.bottleneck.value)] else []))
  }

  /** One iteration, once the node's evaluation is known. */
  lemma NodeStepWith(nodes: seq<Node>, n: Node, inEdges: seq<Edge>, outs: seq<Edge>, config: EngineConfig,
                     s: RunState, ev: NodeEval)
    requires ev == EvalNode(nodes, n, inEdges, outs, s.edgeStats, Get(s.incoming, n.id), config)
    ensures var f := DistributeAll(Flows(s.incoming, AnnotateAll(s.edgeStats, inEdges, ev.wants, Acceptance(ev.stat))),
                                   nodes, outs, ev.stat.egressRps, Duplicates(n), TotalWeight(outs));
      NodeStep(nodes, n, inEdges, outs, config, s) ==
      RunState(f.incoming, s.nodeStats[n.id := ev.stat], f.edgeStats,
               s.bottlenecks + (if ev.bottleneck.Some? then [Bottleneck(n.id, ev.bottleneck.value)] else []))
  {
  }

  /** The main loop over the given ids, in order, each node evaluated
      against its own inbound edges and feeding its own outbound edges. */
  function RunNodes(g: Graph, ordered: seq<string>, config: EngineConfig, s: RunState): RunState
    requires Elems(ordered) <= NodeIds(g.nodes)
  {
    if ordered == [] then s
    else
      var id := ordered[|ordered| - 1];
      var p := ordered[..|ordered| - 1];
      assert Elems(p) <= Elems(ordered);
      assert id in Elems(ordered);
      NodeStep(g.nodes, NodeById(g.nodes, id), EdgesTo(g.edges, id), EdgesFrom(g.edges, id), config,
               RunNodes(g, p, config, s))
  }


  /** The accumulators of one run, updated in place as nodes are evaluated. */
  class Scenario {
    var incoming: map<string, real>
    var nodeStats: map<string, NodeStat>
    var edgeStats: map<string, EdgeStat>
    var bottlenecks: seq<Bottleneck>

    constructor (seed: map<string, real>)
      ensures incoming == seed && nodeStats == map[] && edgeStats == map[] && bottlenecks == []
    {
      incoming := seed;
      nodeStats := map[];
      edgeStats := map[];
      bottlenecks := [];
    }

    /** Back-annotation of a node's inbound edges (src/engine/compute.ts:283-299, 400-414). */
    method Annotate(inEdges: seq<Edge>, wants: Option<seq<real>>, acceptance: real)
      modifies this
      ensures edgeStats == AnnotateAll(old(edgeStats), inEdges, wants, acceptance)
      ensures incoming == old(incoming) && nodeStats == old(nodeStats) && bottlenecks == old(bottlenecks)
    {
      var stats := edgeStats;
      var i := 0;
      while i < |inEdges|
        invariant 0 <= i <= |inEdges|
        invariant stats == AnnotateAll(edgeStats, inEdges[..i], wants, acceptance)
        invariant unchanged(this)
      {
        assert inEdges[..i + 1][..i] == inEdges[..i];
        var id := inEdges[i].id;
        if id in stats {
          var es := stats[id];
          stats := stats[id := AnnotateEdge(es, Desired(es, i, wants), acceptance)];
        }
        i := i + 1;
      }
      assert inEdges[..i] == inEdges;
      edgeStats := stats;
    }

    /** Distribution of a node's egress over its outbound edges (src/engine/compute.ts:416-444). */
    method Distribute(nodes: seq<Node>, outs: seq<Edge>, egress: real, duplicate: bool)
      modifies this
      ensures Flows(incoming, edgeStats) ==
        DistributeAll(Flows(old(incoming), old(edgeStats)), nodes, outs, egress, duplicate, TotalWeight(outs))
      ensures nodeStats == old(nodeStats) && bottlenecks == old(bottlenecks)
    {
      var total := TotalWeight(outs);
      var inc, stats := incoming, edgeStats;
      var i := 0;
      while i < |outs|
        invariant 0 <= i <= |outs|
        invariant Flows(inc, stats) == DistributeAll(Flows(incoming, edgeStats), nodes, outs[..i], egress, duplicate, total)
        invariant unchanged(this)
      {
        var e := outs[i];
        var preClamp := Share(egress, duplicate, e, total);
        var flow := EdgeFlow(nodes, egress, duplicate, e, total);
        var fed := Feed(Flows(inc, stats), e, flow, preClamp);
        inc, stats := fed.incoming, fed.edgeStats;
        DistributeStep(Flows(incoming, edgeStats), nodes, outs, i, egress, duplicate, total);
        i := i + 1;
      }
      assert outs[..i] == outs;
      incoming, edgeStats := inc, stats;
    }

    /** A service's statistics, computed with the engine's loops. */
    method EvaluateService(nodes: seq<Node>, n: Node, inEdges: seq<Edge>, config: EngineConfig)
        returns (ev: NodeEval)
      requires n.kind.Service?
      ensures ev == ServiceEval(nodes, n.penalties, n.kind.svc, inEdges, edgeStats, Get(incoming, n.id), config)
    {
      var d := n.kind.svc;
      var rps := InboundRates(edgeStats, inEdges);
      var jo := EvaluateJoin(d.join, Get(incoming, n.id), rps);
      var kin := KafkaOnly(inEdges);
      var available := SumAvailablePartitions(nodes, kin);
      var consumerCap := MinConsumerCap(nodes, d.concurrency, kin);
      var capacity := ServiceCapacity(n.penalties, d, Workers(d, |kin|, available), consumerCap);
      var maxPartitions := LargestPartitions(nodes, kin);
      var stat := ServiceStat(n.penalties, d, jo.joinIngressRps, capacity, |rps|, maxPartitions, config);
      ev := NodeEval(stat, Some(jo.consumption), if stat.backlogRps.Some? then Some(CapacityExceededReason) else None);
    }

    /** A node's statistics, computed with the engine's loops. */
    method EvaluateNode(nodes: seq<Node>, n: Node, inEdges: seq<Edge>, outs: seq<Edge>, config: EngineConfig)
        returns (ev: NodeEval)
      ensures ev == EvalNode(nodes, n, inEdges, outs, edgeStats, Get(incoming, n.id), config)
    {
      var ingress := Get(incoming, n.id);
      match n.kind {
        case Service(d) =>
          ev := EvaluateService(nodes, n, inEdges, config);
        case QueueTopic(t) =>
          var total := SumConsumerCaps(nodes, t, outs);
          ev := NodeEval(TopicStat(n.penalties, t, ingress, total), None, None);
        case ApiEndpoint(a) =>
          ev := NodeEval(ApiStat(n.penalties, a, ingress), None, None);
        case Datastore(d) =>
          var costed := DatastoreCostedIngress(DatastoreInflows(edgeStats, inEdges, ingress), d);
          var stat := DatastoreStat(n.penalties, d, ingress, costed);
          ev := NodeEval(stat, None, if stat.backlogRps.Some? then Some(DatastoreLimitReason) else None);
      }
    }

    /** The accumulators, as a value. */
    function State(): RunState
      reads this
    {
      RunState(incoming, nodeStats, edgeStats, bottlenecks)
    }

    /** One iteration of the main loop (src/engine/compute.ts:120-445):
        evaluate the node, record its statistics and bottleneck, annotate its
        inbound edges, then feed its outbound edges. */
    method Step(nodes: seq<Node>, n: Node, inEdges: seq<Edge>, outs: seq<Edge>, config: EngineConfig)
      modifies this
      ensures State() == NodeStep(nodes, n, inEdges, outs, config, old(State()))
    {
      var ev := EvaluateNode(nodes, n, inEdges, outs, config);
      nodeStats := nodeStats[n.id := ev.stat];
      if ev.bottleneck.Some? {
        bottlenecks := bottlenecks + [Bottleneck(n.id, ev.bottleneck.value)];
      }
      Annotate(inEdges, ev.wants, Acceptance(ev.stat));
      Distribute(nodes, outs, ev.stat.egressRps, Duplicates(n));
    }

    /** The main loop (src/engine/compute.ts:120-445): every node, in the
        evaluation order, is evaluated against its own inbound edges,
        recorded and made to feed its outbound edges. */
    method Run(g: Graph, ordered: seq<string>, byFrom: map<string, seq<Edge>>, byTo: map<string, seq<Edge>>,
               config: EngineConfig)
      modifies this
      requires Elems(ordered) <= NodeIds(g.nodes)
      requires forall u :: Lookup(byFrom, u) == EdgesFrom(g.edges, u)
      requires forall v :: Lookup(byTo, v) == EdgesTo(g.edges, v)
      ensures State() == RunNodes(g, ordered, config, old(State()))
    {
      ghost var start := State();
      var i := 0;
      while i < |ordered|
        invariant 0 <= i <= |ordered|
        invariant Elems(ordered[..i]) <= NodeIds(g.nodes)
        invariant State() == RunNodes(g, ordered[..i], config, start)
      {
        var id := ordered[i];
        RunNodesStep(g, ordered, i, config, start);
        var inEdges, outs := Lookup(byTo, id), Lookup(byFrom, id);
        Step(g.nodes, NodeById(g.nodes, id), inEdges, outs, config);
        i := i + 1;
      }
      assert ordered[..i] == ordered;
    }
  }

  /** Running one more id of the order is one more step. */
  lemma RunNodesStep(g: Graph, ordered: seq<string>, i: nat, config: EngineConfig, s: RunState)
    requires i < |ordered| && Elems(ordered) <= NodeIds(g.nodes)
    ensures Elems(ordered[..i + 1]) <= NodeIds(g.nodes)
    ensures Elems(ordered[..i]) <= NodeIds(g.nodes) && ordered[i] in NodeIds(g.nodes)
    ensures RunNodes(g, ordered[..i + 1], config, s) ==
      NodeStep(g.nodes, NodeById(g.nodes, ordered[i]), EdgesTo(g.edges, ordered[i]), EdgesFrom(g.edges, ordered[i]),
               config, RunNodes(g, ordered[..i], config, s))
  {
    assert ordered[..i + 1][..i] == ordered[..i];
    assert ordered[i] in Elems(ordered);
    assert Elems(ordered[..i + 1]) <= Elems(ordered);
  }

  /** No later node overwrites a node's statistics: in a run over a
      repetition-free order, each node ends with its own evaluation, made
      against its own inbound and outbound edges, the edge statistics and
      the rate that had reached it when its turn came. */
  lemma {:induction false} RunNodesNodeStat(g: Graph, ordered: seq<string>, config: EngineConfig, s: RunState, j: nat)
    requires Distinct(ordered) && Elems(ordered) <= NodeIds(g.nodes) && j < |ordered|
    ensures Elems(ordered[..j]) <= NodeIds(g.nodes) && ordered[j] in NodeIds(g.nodes)
    ensures var id, before := ordered[j], RunNodes(g, ordered[..j], config, s);
      && id in RunNodes(g, ordered, config, s).nodeStats
      && RunNodes(g, ordered, config, s).nodeStats[id] ==
         EvalNode(g.nodes, NodeById(g.nodes, id), EdgesTo(g.edges, id), EdgesFrom(g.edges, id),
                  before.edgeStats, Get(before.incoming, id), config).stat
    decreases |ordered|, 1
  {
    if j < |ordered| - 1 {
      NodeStatLater(g, ordered, config, s, j);
    } else {
      RunNodesStats(g, ordered, j, config, s);
      assert ordered[..j + 1] == ordered;
    }
  }

  /** A node evaluated before the last one of the order keeps its statistics through the last step. */
  lemma {:induction false} NodeStatLater(g: Graph, ordered: seq<string>, config: EngineConfig, s: RunState, j: nat)
    requires Distinct(ordered) && Elems(ordered) <= NodeIds(g.nodes) && j < |ordered| - 1
    ensures Elems(ordered[..j]) <= NodeIds(g.nodes) && ordered[j] in NodeIds(g.nodes)
    ensures var id, before := ordered[j], RunNodes(g, ordered[..j], config, s);
      && id in RunNodes(g, ordered, config, s).nodeStats
      && RunNodes(g, ordered, config, s).nodeStats[id] ==
         EvalNode(g.nodes, NodeById(g.nodes, id), EdgesTo(g.edges, id), EdgesFrom(g.edges, id),
                  before.edgeStats, Get(before.incoming, id), config).stat
    decreases |ordered|, 0
  {
    var last := |ordered| - 1;
    var p := ordered[..last];
    assert p[..j] == ordered[..j] && p[j] == ordered[j];
    assert Distinct(p);
    assert Elems(p) <= Elems(ordered);
    RunNodesNodeStat(g, p, config, s, j);
    RunNodesStats(g, ordered, last, config, s);
    assert ordered[last] != ordered[j];
    assert ordered[..last + 1] == ordered;
  }

  /** One more id of the order records that node's evaluation and leaves
      the other node statistics alone. */
  lemma RunNodesStats(g: Graph, ordered: seq<string>, i: nat, config: EngineConfig, s: RunState)
    requires i < |ordered| && Elems(ordered) <= NodeIds(g.nodes)
    ensures Elems(ordered[..i + 1]) <= NodeIds(g.nodes)
    ensures Elems(ordered[..i]) <= NodeIds(g.nodes) && ordered[i] in NodeIds(g.nodes)
    ensures var id, before := ordered[i], RunNodes(g, ordered[..i], config, s);
      RunNodes(g, ordered[..i + 1], config, s).nodeStats ==
      before.nodeStats[id := EvalNode(g.nodes, NodeById(g.nodes, id), EdgesTo(g.edges, id), EdgesFrom(g.edges, id),
                                      before.edgeStats, Get(before.incoming, id), config).stat]
  {
    RunNodesStep(g, ordered, i, config, s);
  }

  /** The main loop keeps the run's invariants: after the given ids every
      one of them has statistics, exactly the edges they feed have
      statistics, every node is still fed, and bottlenecks name exactly the
      backlogged nodes; non-negative graphs keep every rate non-negative. */
  lemma {:induction false} RunNodesKeeps(g: Graph, ordered: seq<string>, config: EngineConfig, s: RunState)
    requires EdgesWellFormed(g) && Distinct(ordered) && Elems(ordered) <= NodeIds(g.nodes)
    requires RunInvariant(g, {}, s.incoming, s.nodeStats, s.edgeStats, s.bottlenecks)
    requires NonNegative(g) ==> RunNonNegative(s.incoming, s.nodeStats, s.edgeStats)
    ensures var t := RunNodes(g, ordered, config, s);
      RunInvariant(g, Elems(ordered), t.incoming, t.nodeStats, t.edgeStats, t.bottlenecks)
    ensures var t := RunNodes(g, ordered, config, s);
      NonNegative(g) ==> RunNonNegative(t.incoming, t.nodeStats, t.edgeStats)
  {
    if ordered == [] {
      assert Elems(ordered) == {};
    } else {
      var i := |ordered| - 1;
      var id := ordered[i];
      var p := ordered[..i];
      assert Distinct(p);
      OrderStep(ordered, i);
      assert ordered[..i + 1] == ordered;
      RunNodesStep(g, ordered, i, config, s);
      RunNodesKeeps(g, p, config, s);
      var t := RunNodes(g, p, config, s);
      var n := NodeById(g.nodes, id);
      var inEdges := EdgesTo(g.edges, id);
      var ev := EvalNode(g.nodes, n, inEdges, EdgesFrom(g.edges, id), t.edgeStats, Get(t.incoming, id), config);
      var annotated := AnnotateAll(t.edgeStats, inEdges, ev.wants, Acceptance(ev.stat));
      AnnotateAllFacts(t.edgeStats, inEdges, ev.wants, Acceptance(ev.stat));
      if NonNegative(g) {
        assert NodeNonNegative(n);
        EvalNodeNonNegative(g.nodes, n, inEdges, EdgesFrom(g.edges, id), t.edgeStats, Get(t.incoming, id), config);
        StepKeepsNonNegative(g, n, ev, inEdges, t.incoming, t.nodeStats, t.edgeStats);
      }
      StepKeepsInvariant(g, Elems(p), n, ev, t.incoming, t.nodeStats, t.edgeStats, t.bottlenecks, annotated,
                         DistributeAll(Flows(t.incoming, annotated), g.nodes, EdgesFrom(g.edges, id),
                                       ev.stat.egressRps, Duplicates(n), TotalWeight(EdgesFrom(g.edges, id))));
    }
  }

  /** The distribution after one more outbound edge. */
  lemma DistributeStep(f: Flows, nodes: seq<Node>, outs: seq<Edge>, i: nat, egress: real, duplicate: bool, total: real)
    requires i < |outs| && total != 0.0
    ensures DistributeAll(f, nodes, outs[..i + 1], egress, duplicate, total) ==
      Feed(DistributeAll(f, nodes, outs[..i], egress, duplicate, total), outs[i],
           EdgeFlow(nodes, egress, duplicate, outs[i], total), Share(egress, duplicate, outs[i], total))
  {
    assert outs[..i + 1][..i] == outs[..i];
  }

  /** A service with duplicate fan-out sends its whole egress down every outbound edge. */
  function Duplicates(n: Node): bool
  {
    n.kind.Service? && n.kind.svc.fanOut == Duplicate
  }

  /** The ids of the edges leaving the given nodes. */
  function EdgeIdsFrom(edges: seq<Edge>, done: set<string>): set<string>
  {
    set e | e in edges && e.from in done :: e.id
  }

  /** What the main loop keeps true after each node: the evaluated nodes have
      statistics, the edges they feed have statistics, every node is still
      fed, and a bottleneck is reported exactly for the nodes with a backlog. */
  ghost predicate RunInvariant(g: Graph, done: set<string>, incoming: map<string, real>,
                               nodeStats: map<string, NodeStat>, edgeStats: map<string, EdgeStat>,
                               bottlenecks: seq<Bottleneck>)
  {
    && nodeStats.Keys == done
    && edgeStats.Keys == EdgeIdsFrom(g.edges, done)
    && incoming.Keys == NodeIds(g.nodes)
    && (forall id :: id in BottleneckIds(bottlenecks) <==> id in nodeStats && nodeStats[id].backlogRps.Some?)
  }

  /** Non-negative dials keep every rate of the run non-negative and every edge statistic consistent. */
  ghost predicate RunNonNegative(incoming: map<string, real>, nodeStats: map<string, NodeStat>,
                                 edgeStats: map<string, EdgeStat>)
  {
    && (forall v :: v in incoming ==> incoming[v] >= 0.0)
    && (forall id :: id in nodeStats ==> nodeStats[id].egressRps >= 0.0)
    && AllSane(edgeStats)
  }

  /** One step of the run keeps the invariant. */
  lemma StepKeepsInvariant(g: Graph, done: set<string>, n: Node, ev: NodeEval,
                           incoming: map<string, real>, nodeStats: map<string, NodeStat>,
                           edgeStats: map<string, EdgeStat>, bottlenecks: seq<Bottleneck>,
                           annotated: map<string, EdgeStat>, after: Flows)
    requires EdgesWellFormed(g) && n in g.nodes && n.id !in done
    requires RunInvariant(g, done, incoming, nodeStats, edgeStats, bottlenecks)
    requires ev.bottleneck.Some? <==> ev.stat.backlogRps.Some?
    requires annotated.Keys == edgeStats.Keys
    requires after == DistributeAll(Flows(incoming, annotated), g.nodes, EdgesFrom(g.edges, n.id),
                                    ev.stat.egressRps, Duplicates(n), TotalWeight(EdgesFrom(g.edges, n.id)))
    ensures RunInvariant(g, done + {n.id}, after.incoming, nodeStats[n.id := ev.stat], after.edgeStats,
                         bottlenecks + (if ev.bottleneck.Some? then [Bottleneck(n.id, ev.bottleneck.value)] else []))
  {
    var outs := EdgesFrom(g.edges, n.id);
    DistributeTargets(Flows(incoming, annotated), g.nodes, outs, ev.stat.egressRps, Duplicates(n), TotalWeight(outs));
    DistributeEdgeIds(Flows(incoming, annotated), g.nodes, outs, ev.stat.egressRps, Duplicates(n), TotalWeight(outs));
    EdgeIdsStep(g, done, n.id);
    TargetsAreNodes(g, n.id);
    BottlenecksStep(nodeStats, bottlenecks, n.id, ev.stat, ev.bottleneck);
  }

  lemma EdgeIdsStep(g: Graph, done: set<string>, u: string)
    ensures EdgeIdsFrom(g.edges, done + {u}) == EdgeIdsFrom(g.edges, done) + set e | e in EdgesFrom(g.edges, u) :: e.id
  {
    EdgesFromMembers(g.edges, u);
  }

  lemma TargetsAreNodes(g: Graph, u: string)
    requires EdgesWellFormed(g)
    ensures (set e | e in EdgesFrom(g.edges, u) :: e.to) <= NodeIds(g.nodes)
  {
    EdgesFromMembers(g.edges, u);
    forall e | e in EdgesFrom(g.edges, u)
      ensures e.to in NodeIds(g.nodes)
    {
      var k :| 0 <= k < |g.edges| && g.edges[k] == e;
    }
  }

  /** Recording a newly evaluated node and its bottleneck, if any, keeps the
      bottleneck ids equal to the ids of the nodes with a backlog. */
  lemma BottlenecksStep(nodeStats: map<string, NodeStat>, bottlenecks: seq<Bottleneck>, id: string,
                        stat: NodeStat, reason: Option<BottleneckReason>)
    requires forall x :: x in BottleneckIds(bottlenecks) <==> x in nodeStats && nodeStats[x].backlogRps.Some?
    requires id !in nodeStats
    requires reason.Some? <==> stat.backlogRps.Some?
    ensures var bs := bottlenecks + (if reason.Some? then [Bottleneck(id, reason.value)] else []);
      forall x :: x in BottleneckIds(bs) <==> x in nodeStats[id := stat] && nodeStats[id := stat][x].backlogRps.Some?
  {
    var bs := bottlenecks + (if reason.Some? then [Bottleneck(id, reason.value)] else []);
    assert BottleneckIds(bs) == BottleneckIds(bottlenecks) + (if reason.Some? then {id} else {});
  }

  /** One step of the run keeps every rate non-negative when the graph's
      dials are and the node's evaluation has a non-negative egress and
      consumption and an acceptance ratio in [0, 1]. */
  lemma StepKeepsNonNegative(g: Graph, n: Node, ev: NodeEval, inEdges: seq<Edge>,
                             incoming: map<string, real>, nodeStats: map<string, NodeStat>,
                             edgeStats: map<string, EdgeStat>)
    requires NonNegative(g) && n in g.nodes
    requires RunNonNegative(incoming, nodeStats, edgeStats)
    requires ev.stat.egressRps >= 0.0 && 0.0 <= Acceptance(ev.stat) <= 1.0
    requires ev.wants.Some? ==> forall i :: 0 <= i < |ev.wants.value| ==> ev.wants.value[i] >= 0.0
    ensures var outs := EdgesFrom(g.edges, n.id);
      var after := DistributeAll(Flows(incoming, AnnotateAll(edgeStats, inEdges, ev.wants, Acceptance(ev.stat))),
                                 g.nodes, outs, ev.stat.egressRps, Duplicates(n), TotalWeight(outs));
      RunNonNegative(after.incoming, nodeStats[n.id := ev.stat], after.edgeStats)
  {
    var outs := EdgesFrom(g.edges, n.id);
    var acceptance := Acceptance(ev.stat);
    AnnotateAllSane(edgeStats, inEdges, ev.wants, acceptance);
    var annotated := AnnotateAll(edgeStats, inEdges, ev.wants, acceptance);
    OutboundWeights(g, n.id);
    WeightSumNonNegative(outs);
    var total := TotalWeight(outs);
    DistributeSane(Flows(incoming, annotated), g.nodes, outs, ev.stat.egressRps, Duplicates(n), total);
    DistributeNonNegative(Flows(incoming, annotated), g.nodes, outs, ev.stat.egressRps, Duplicates(n), total);
  }

  lemma OutboundWeights(g: Graph, u: string)
    requires NonNegative(g)
    ensures forall e :: e in EdgesFrom(g.edges, u) ==> NonNegOpt(e.weight)
  {
    EdgesFromMembers(g.edges, u);
  }

  lemma SeedNonNegative(g: Graph, seed: map<string, real>)
    requires forall id :: id in seed ==> seed[id] == SeedSum(g.nodes, id)
    ensures NonNegative(g) ==> forall v :: v in seed ==> seed[v] >= 0.0
  {
    if NonNegative(g) {
      forall v | v in seed
        ensures seed[v] >= 0.0
      {
        SeedSumNonNegative(g.nodes, v);
      }
    }
  }

  /** Once every node is done, every edge has been fed. */
  lemma AllEdgeIds(g: Graph)
    requires EdgesWellFormed(g)
    ensures EdgeIdsFrom(g.edges, NodeIds(g.nodes)) == set e | e in g.edges :: e.id
  {
    forall e | e in g.edges
      ensures e.from in NodeIds(g.nodes)
    {
      var k :| 0 <= k < |g.edges| && g.edges[k] == e;
    }
  }

  /** The accumulators at the start of a run: every node seeded with its
      entry rate, no statistics and no bottlenecks. */
  function Seeded(g: Graph): (s: RunState)
    ensures s.incoming.Keys == NodeIds(g.nodes)
    ensures UniqueIds(g.nodes) ==> forall k :: 0 <= k < |g.nodes| ==> s.incoming[g.nodes[k].id] == SeedRate(g.nodes[k])
  {
    forall k | 0 <= k < |g.nodes| && UniqueIds(g.nodes)
      ensures SeedSum(g.nodes, g.nodes[k].id) == SeedRate(g.nodes[k])
    {
      SeedSumUnique(g.nodes, k);
    }
    RunState(map id | id in NodeIds(g.nodes) :: SeedSum(g.nodes, id), map[], map[], [])
  }

  lemma SeededIs(g: Graph, seed: map<string, real>)
    requires seed.Keys == NodeIds(g.nodes)
    requires forall id :: id in seed ==> seed[id] == SeedSum(g.nodes, id)
    ensures Seeded(g) == RunState(seed, map[], map[], [])
  {
  }

  /** An order the engine may evaluate the nodes in: every node once, and
      every edge's source before its target when the graph has no cycle. */
  ghost predicate EvaluationOrder(g: Graph, ordered: seq<string>)
  {
    Distinct(ordered) && Elems(ordered) == NodeIds(g.nodes) &&
    (!HasCycle(Adjacency(g)) ==> Forward(g.edges, ordered))
  }

  /** The result a run's final accumulators are reported as. */
  function Outcome(s: RunState): ScenarioResult
  {
    ScenarioResult(s.nodeStats, s.edgeStats, [], s.bottlenecks)
  }

  /** `computeScenario`: the result is the main loop run from the seeded
      accumulators over the order `Schedule` fixes, each node evaluated against its
      own inbound edges. Every node gets statistics, every edge gets
      statistics, a bottleneck is reported exactly for the nodes left with a
      backlog, and no global warning is produced. When every rate, weight and
      dial is non-negative, so is every egress and every flow, and no edge
      delivers more than it carries. */
  method ComputeScenario(g: Graph, config: EngineConfig) returns (r: ScenarioResult)
    requires UniqueIds(g.nodes) && EdgesWellFormed(g)
    ensures exists ordered :: EvaluationOrder(g, ordered) && r == Outcome(RunNodes(g, ordered, config, Seeded(g)))
    ensures EvaluationOrder(g, Schedule(g)) && r == Outcome(RunNodes(g, Schedule(g), config, Seeded(g)))
    ensures r.nodeStats.Keys == NodeIds(g.nodes)
    ensures r.edgeStats.Keys == set e | e in g.edges :: e.id
    ensures forall id :: id in BottleneckIds(r.bottlenecks) <==> id in r.nodeStats && r.nodeStats[id].backlogRps.Some?
    ensures r.globalWarnings == []
    ensures NonNegative(g) ==>
      AllSane(r.edgeStats) && forall id :: id in r.nodeStats ==> r.nodeStats[id].egressRps >= 0.0
  {
    var seed := SeedIncoming(g.nodes);
    var ordered := TopologicalOrder(g);
    var byFrom, byTo := IndexEdges(g.edges);
    SeededIs(g, seed);
    var s := new Scenario(seed);
    s.Run(g, ordered, byFrom, byTo, config);
    r := ScenarioResult(s.nodeStats, s.edgeStats, [], s.bottlenecks);
    assert EvaluationOrder(g, ordered) && r == Outcome(RunNodes(g, ordered, config, Seeded(g)));
    OutcomeFacts(g, ordered, config);
  }

  /** What any run over an evaluation order reports: statistics for every
      node and edge, bottlenecks exactly for the backlogged nodes, and, for
      non-negative graphs, non-negative egress and consistent edges. */
  lemma OutcomeFacts(g: Graph, ordered: seq<string>, config: EngineConfig)
    requires EdgesWellFormed(g) && EvaluationOrder(g, ordered)
    ensures var r := Outcome(RunNodes(g, ordered, config, Seeded(g)));
      && r.nodeStats.Keys == NodeIds(g.nodes)
      && r.edgeStats.Keys == (set e | e in g.edges :: e.id)
      && (forall id :: id in BottleneckIds(r.bottlenecks) <==> id in r.nodeStats && r.nodeStats[id].backlogRps.Some?)
      && (NonNegative(g) ==>
            AllSane(r.edgeStats) && forall id :: id in r.nodeStats ==> r.nodeStats[id].egressRps >= 0.0)
  {
    var s0 := Seeded(g);
    SeedNonNegative(g, s0.incoming);
    assert EdgeIdsFrom(g.edges, {}) == {};
    RunNodesKeeps(g, ordered, config, s0);
    AllEdgeIds(g);
  }

  /** Taking the next node of a repetition-free order adds one new id. */
  lemma OrderStep(ordered: seq<string>, i: nat)
    requires Distinct(ordered) && i < |ordered|
    ensures Elems(ordered[..i + 1]) == Elems(ordered[..i]) + {ordered[i]}
    ensures ordered[i] !in Elems(ordered[..i])
  {
    assert ordered[..i + 1] == ordered[..i] + [ordered[i]];
  }
}
