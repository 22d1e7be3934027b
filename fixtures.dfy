/** The two example graphs of src/utils/seeds.ts, and what the model says
    about them. For the fan-in join, `FanInJoinScenario` runs
    `computeScenario` on the graph and states what it reports for every node
    and edge. The lemmas `FanInJoinRate`, `FanInJoinCapacity` and
    `FanInJoinBacklog` are the joiner's parts of that run, evaluated at the
    rates the run feeds it (`JoinerEval`). For the Kafka pipeline the model
    states its usable partitions, and for both graphs that they draw no
    validation warning. Positions and the graph metadata are not modelled. */
module Fixtures {
  import opened Util
  import opened Types
  import opened Digraph
  import opened EngineHelpers
  import opened Join
  import opened Evaluate
  import opened Validators
  import opened Order
  import opened Flow
  import opened Engine

  function Api(id: string, name: string): Node
  {
    Node(id, name, NoPenalties, ApiEndpoint(ApiDials(300.0, None, None, None)))
  }

  /** The joiner: four workers at 20 ms, waiting for all three streams (k of N with k = 3). */
  const Joiner := ServiceDials(4.0, Some(1.0), 20.0, None, None, None, KOfN(3, Some(1.0)), Split)

  /** `FanInJoin` (src/utils/seeds.ts:3-21). */
  const FanInJoin := Graph(
    [Api("api1", "API A"), Api("api2", "API B"), Api("api3", "API C"),
     Node("svc", "Joiner", NoPenalties, Service(Joiner))],
    [Edge("e1", "api1", "svc", Generic, None, None, None),
     Edge("e2", "api2", "svc", Generic, None, None, None),
     Edge("e3", "api3", "svc", Generic, None, None, None)])

  const EtlTopic := TopicDials(12.0, 150.0)

  /** `KafkaETL` (src/utils/seeds.ts:23-36). */
  const KafkaETL := Graph(
    [Node("svc1", "Producer", NoPenalties, Service(ServiceDials(4.0, None, 10.0, None, None, None, JoinNone, Split))),
     Node("t", "Topic", NoPenalties, QueueTopic(EtlTopic)),
     Node("svc2", "ETL", NoPenalties, Service(ServiceDials(4.0, None, 20.0, None, None, None, JoinNone, Split))),
     Node("db", "Warehouse", NoPenalties, Datastore(DatastoreDials(1200.0, 50.0, None, None, None, None)))],
    [Edge("e1", "svc1", "t", Kafka, None, None, Some(0.2)),
     Edge("e2", "t", "svc2", Kafka, None, None, None),
     Edge("e3", "svc2", "db", Generic, Some(Write), None, None)])

  /** Three streams at 300 rps into a 3-of-3 join give a join rate of 300 rps
      (the third-highest rate, and the mean). */
  lemma FanInJoinRate()
    ensures EvaluateJoin(Joiner.join, 900.0, [300.0, 300.0, 300.0]).joinIngressRps == 300.0
  {
    var rps := [300.0, 300.0, 300.0];
    EqualStreamsKth(300.0, rps, 3);
    SumUniform(rps, 300.0);
    assert KOfNBound(rps, 3) == 300.0;
  }

  /** The same three streams into a 2-of-3 join: the second-highest rate
      (300) is below the fair share 900 / 2 = 450, so the join rate is 300,
      not the 900 a plain merge would pass. */
  lemma FanInQuorumRate()
    ensures EvaluateJoin(KOfN(2, Some(1.0)), 900.0, [300.0, 300.0, 300.0]).joinIngressRps == 300.0
  {
    var rps := [300.0, 300.0, 300.0];
    EqualStreamsKth(300.0, rps, 2);
    SumUniform(rps, 300.0);
    assert KOfNBound(rps, 2) == 300.0;
  }

  /** The joiner serves 4 × 1 × 1000 / 20 = 200 rps. */
  lemma FanInJoinCapacity()
    ensures ServiceCapacity(NoPenalties, Joiner, Workers(Joiner, 0, 0.0), None) == 200.0
  {
    assert ServiceEffectiveTimeMs(Joiner) == 20.0;
  }

  /** At 300 rps against 200 rps of capacity the joiner is the limiter,
      serves 200 rps, reports 100 rps of backlog and a capacity warning. */
  lemma FanInJoinBacklog()
    ensures var s := ServiceStat(NoPenalties, Joiner, 300.0, 200.0, 3, 0.0, DefaultConfig);
      s.backlogRps == Some(100.0) && s.egressRps == 200.0 && s.limiter == ServiceCompute &&
      s.warnings == [CapacityExceeded(300.0, 200.0)]
  {
    var s := ServiceStat(NoPenalties, Joiner, 300.0, 200.0, 3, 0.0, DefaultConfig);
    assert s.utilization == 1.5;
  }

  /** With key skew 0.2, 12 partitions leave floor(12 × 0.96) = 11 usable. */
  lemma KafkaETLPartitions()
    ensures EffectivePartitions(EtlTopic.partitions, Some(0.2)) == 11
  {
    assert SkewFactor(Some(0.2)) == 0.96;
    assert (12.0 * 0.96).Floor == 11;
  }

  /** The fan-in graph passes validation without a warning. */
  lemma FanInJoinValidates()
    ensures Validation(FanInJoin) == []
  {
    FanInJoinAcyclic();
    FanInJoinProtocols();
    FanInJoinTopics();
  }

  lemma FanInJoinTopics()
    ensures TopicWarnings(FanInJoin.nodes) == []
  {
    NoTopicWarnings(FanInJoin.nodes);
  }

  lemma FanInJoinProtocols()
    ensures ProtocolWarnings(FanInJoin.nodes, FanInJoin.edges) == []
  {
    var edges := FanInJoin.edges;
    assert forall k :: 0 <= k < |edges| ==> edges[k].protocol == Generic;
    NoProtocolWarnings(FanInJoin);
  }

  /** The Kafka pipeline passes validation without a warning: both Kafka
      edges join a service and a topic, and the topic's dials are sound. */
  lemma KafkaETLValidates()
    ensures Validation(KafkaETL) == []
  {
    KafkaETLAcyclic();
    KafkaETLProtocols();
    assert IsInteger(EtlTopic.partitions) by {
      assert (12.0).Floor == 12;
    }
    NoTopicWarnings(KafkaETL.nodes);
  }

  lemma KafkaETLProtocols()
    ensures ProtocolWarnings(KafkaETL.nodes, KafkaETL.edges) == []
  {
    var nodes, edges := KafkaETL.nodes, KafkaETL.edges;
    assert UniqueIds(nodes);
    WellRouted(nodes, edges[0], 0, 1);
    WellRouted(nodes, edges[1], 1, 2);
    WellRouted(nodes, edges[2], 2, 3);
    forall k | 0 <= k < |edges|
      ensures !Misrouted(nodes, edges[k])
    {
      assert k == 0 || k == 1 || k == 2;
    }
    NoProtocolWarnings(KafkaETL);
  }

  /** An edge between the nodes at `i` and `j` is not misrouted when it is
      not Kafka or joins a service and a topic. */
  lemma WellRouted(nodes: seq<Node>, e: Edge, i: nat, j: nat)
    requires UniqueIds(nodes) && i < |nodes| && j < |nodes|
    requires nodes[i].id == e.from && nodes[j].id == e.to
    requires e.protocol != Kafka || KafkaPair(nodes[i].Type(), nodes[j].Type())
    ensures !Misrouted(nodes, e)
  {
    FindNodeUnique(nodes, i);
    FindNodeUnique(nodes, j);
  }

  /** No warning when no edge is misrouted. */
  lemma NoProtocolWarnings(g: Graph)
    requires forall k :: 0 <= k < |g.edges| ==> !Misrouted(g.nodes, g.edges[k])
    ensures ProtocolWarnings(g.nodes, g.edges) == []
  {
    var pw := ProtocolWarnings(g.nodes, g.edges);
    if pw != [] {
      var k := ProtocolWarningsSound(g.nodes, g.edges, pw[0]);
    }
  }

  /** No warning when no topic has a bad dial. */
  lemma NoTopicWarnings(nodes: seq<Node>)
    requires forall k :: 0 <= k < |nodes| ==> !BadPartitions(nodes[k]) && !BadThroughput(nodes[k])
    ensures TopicWarnings(nodes) == []
  {
    var tw := TopicWarnings(nodes);
    if tw != [] {
      TopicWarningsKinds(nodes, tw[0]);
      if tw[0].TopicPartitions? {
        var k := TopicPartitionsSound(nodes, tw[0].topicLabel);
      } else {
        var k := TopicThroughputSound(nodes, tw[0].topicLabel);
      }
    }
  }

  lemma FanInJoinAcyclic()
    ensures !HasCycle(Adjacency(FanInJoin))
  {
    var rank := map["svc" := 0, "api1" := 1, "api2" := 1, "api3" := 1];
    assert NodeIds(FanInJoin.nodes) == rank.Keys;
    EdgeRankingAcyclic(FanInJoin, rank);
  }

  lemma KafkaETLAcyclic()
    ensures !HasCycle(Adjacency(KafkaETL))
  {
    var rank := map["db" := 0, "svc2" := 1, "t" := 2, "svc1" := 3];
    assert NodeIds(KafkaETL.nodes) == rank.Keys;
    EdgeRankingAcyclic(KafkaETL, rank);
  }

  // ------------------------------------------- the fan-in join, computed

  /** What each API endpoint of the fan-in graph reports: 300 rps in and out. */
  const ApiOut := NodeStat(300.0, 300.0, 0.0, 0.0, 0.0, None, None, None, [], NoConstraint, None)

  const FanInApis: set<string> := {"api1", "api2", "api3"}

  /** The accumulators once the API endpoints listed in `done` have run:
      each has fed 300 rps into the joiner along its own edge. The seeded
      rates are 300 rps at each API endpoint and 0 at the joiner
      (`SeedValues`). */
  function AfterApis(seed: map<string, real>, edges: seq<Edge>, done: seq<string>): RunState
  {
    RunState(seed["svc" := 300.0 * (|done| as real)],
             ApiStats(done),
             map id | id in EdgeIdsFrom(edges, Elems(done)) :: FreshStat(300.0, 300.0),
             [])
  }

  /** The statistics of the API endpoints listed in `done`, one `ApiOut` each. */
  function ApiStats(done: seq<string>): (m: map<string, NodeStat>)
    ensures m.Keys == Elems(done)
    ensures forall a :: a in m ==> m[a] == ApiOut
  {
    if done == [] then map[] else ApiStats(done[..|done| - 1])[done[|done| - 1] := ApiOut]
  }

  lemma FanInNodes()
    ensures UniqueIds(FanInJoin.nodes)
    ensures NodeIds(FanInJoin.nodes) == FanInApis + {"svc"}
  {
    var nodes := FanInJoin.nodes;
    assert nodes[0].id == "api1" && nodes[1].id == "api2" && nodes[2].id == "api3" && nodes[3].id == "svc";
    assert NodeIds(nodes) == {nodes[0].id, nodes[1].id, nodes[2].id, nodes[3].id};
  }

  /** The run starts from the seeded accumulators. */
  lemma FanInSeeded()
    ensures Seeded(FanInJoin) == AfterApis(Seeded(FanInJoin).incoming, FanInJoin.edges, [])
  {
    var s := Seeded(FanInJoin).incoming;
    assert s["svc" := 0.0] == s by {
      SeedValues();
    }
    assert Elems<string>([]) == {};
    assert EdgeIdsFrom(FanInJoin.edges, {}) == {};
  }

  lemma SeedValues()
    ensures var s := Seeded(FanInJoin).incoming;
      "api1" in s && "api2" in s && "api3" in s && "svc" in s &&
      s["api1"] == 300.0 && s["api2"] == 300.0 && s["api3"] == 300.0 && s["svc"] == 0.0
  {
    var nodes := FanInJoin.nodes;
    FanInNodes();
    assert Seeded(FanInJoin).incoming["api1"] == 300.0 by { SeedSumUnique(nodes, 0); }
    assert Seeded(FanInJoin).incoming["api2"] == 300.0 by { SeedSumUnique(nodes, 1); }
    assert Seeded(FanInJoin).incoming["api3"] == 300.0 by { SeedSumUnique(nodes, 2); }
    assert Seeded(FanInJoin).incoming["svc"] == 0.0 by { SeedSumUnique(nodes, 3); }
  }


  /** The k-th API endpoint has no inbound edge and one outbound edge, the k-th. */
  lemma ApiEdges(k: nat)
    requires k < 3
    ensures FanInJoin.nodes[k].id in NodeIds(FanInJoin.nodes)
    ensures NodeById(FanInJoin.nodes, FanInJoin.nodes[k].id) == FanInJoin.nodes[k]
    ensures EdgesTo(FanInJoin.edges, FanInJoin.nodes[k].id) == []
    ensures EdgesFrom(FanInJoin.edges, FanInJoin.nodes[k].id) == [FanInJoin.edges[k]]
  {
    ApiNode(k);
    var u := FanInJoin.nodes[k].id;
    assert u != "svc" by {
      assert |u| == 4;
    }
    FanInEdgesTo(u);
    if k == 0 {
      FanInEdgesFrom(u, [FanInJoin.edges[0]], [], []);
    } else if k == 1 {
      FanInEdgesFrom(u, [], [FanInJoin.edges[1]], []);
    } else {
      FanInEdgesFrom(u, [], [], [FanInJoin.edges[2]]);
    }
  }

  lemma ApiNode(k: nat)
    requires k < 3
    ensures FanInJoin.nodes[k].id in NodeIds(FanInJoin.nodes)
    ensures NodeById(FanInJoin.nodes, FanInJoin.nodes[k].id) == FanInJoin.nodes[k]
  {
    FanInNodes();
    FindNodeUnique(FanInJoin.nodes, k);
  }

  /** Every edge of the fan-in graph enters the joiner. */
  lemma FanInEdgesTo(v: string)
    requires v != "svc"
    ensures EdgesTo(FanInJoin.edges, v) == []
  {
    var edges := FanInJoin.edges;
    assert EdgesTo(edges[..1], v) == [] by {
      assert edges[..1][..0] == [];
    }
    assert EdgesTo(edges[..2], v) == [] by {
      assert edges[..2][..1] == edges[..1];
    }
    assert edges[..2] == edges[..|edges| - 1];
  }

  /** The edges leaving `u`, one edge at a time. */
  lemma FanInEdgesFrom(u: string, a: seq<Edge>, b: seq<Edge>, c: seq<Edge>)
    requires a == (if FanInJoin.edges[0].from == u then [FanInJoin.edges[0]] else [])
    requires b == (if FanInJoin.edges[1].from == u then [FanInJoin.edges[1]] else [])
    requires c == (if FanInJoin.edges[2].from == u then [FanInJoin.edges[2]] else [])
    ensures EdgesFrom(FanInJoin.edges, u) == a + b + c
  {
    var edges := FanInJoin.edges;
    assert EdgesFrom(edges[..1], u) == a by {
      assert edges[..1][..0] == [];
    }
    assert EdgesFrom(edges[..2], u) == a + b by {
      assert edges[..2][..1] == edges[..1];
    }
    assert edges[..2] == edges[..|edges| - 1];
  }

  /** The seeded rate of every API endpoint is 300 rps. */
  predicate ApiSeeds(seed: map<string, real>)
  {
    "api1" in seed && "api2" in seed && "api3" in seed &&
    seed["api1"] == 300.0 && seed["api2"] == 300.0 && seed["api3"] == 300.0
  }

  /** `id` is an API endpoint of `g` with no inbound edge and one plain
      unweighted edge into the joiner. */
  predicate FeedsJoiner(g: Graph, id: string)
  {
    && id in NodeIds(g.nodes) && id != "svc"
    && NodeById(g.nodes, id) == Api(id, NodeById(g.nodes, id).labelText)
    && EdgesTo(g.edges, id) == [] && |EdgesFrom(g.edges, id)| == 1
    && var e := EdgesFrom(g.edges, id)[0];
       e.to == "svc" && e.weight == None && e.protocol == Generic
  }

  /** Running API endpoints that feed the joiner, in any order, from
      accumulators seeded at 300 rps for each: each feeds 300 rps into the joiner. */
  lemma {:induction false} ApisRun(g: Graph, seed: map<string, real>, p: seq<string>)
    requires FeedsJoiner(g, "api1") && FeedsJoiner(g, "api2") && FeedsJoiner(g, "api3") && ApiSeeds(seed)
    requires Elems(p) <= FanInApis
    ensures Elems(p) <= NodeIds(g.nodes)
    ensures RunNodes(g, p, DefaultConfig, AfterApis(seed, g.edges, [])) == AfterApis(seed, g.edges, p)
  {
    if p != [] {
      var q, id := p[..|p| - 1], p[|p| - 1];
      assert p == q + [id];
      assert Elems(q) <= Elems(p) && id in Elems(p);
      ApisRun(g, seed, q);
      ApiFacts(g, seed, id);
      ApisRunStep(g, seed, p, q, id);
    }
  }

  lemma ApiFacts(g: Graph, seed: map<string, real>, id: string)
    requires FeedsJoiner(g, "api1") && FeedsJoiner(g, "api2") && FeedsJoiner(g, "api3") && ApiSeeds(seed)
    requires id in FanInApis
    ensures FeedsJoiner(g, id) && id in seed && seed[id] == 300.0
  {
  }

  /** The induction step of `ApisRun`. */
  lemma ApisRunStep(g: Graph, seed: map<string, real>, p: seq<string>, q: seq<string>, id: string)
    requires p == q + [id]
    requires Elems(p) <= NodeIds(g.nodes) && Elems(q) <= NodeIds(g.nodes)
    requires FeedsJoiner(g, id) && id in seed && seed[id] == 300.0
    requires RunNodes(g, q, DefaultConfig, AfterApis(seed, g.edges, [])) == AfterApis(seed, g.edges, q)
    ensures RunNodes(g, p, DefaultConfig, AfterApis(seed, g.edges, [])) == AfterApis(seed, g.edges, p)
  {
    ApiStepG(g, seed, q, id);
    assert p[..|p| - 1] == q;
    RunNodesSnoc(g, p, DefaultConfig, AfterApis(seed, g.edges, []), AfterApis(seed, g.edges, q), AfterApis(seed, g.edges, p));
  }

  /** The main loop over one more id is one more node step. */
  lemma RunNodesSnoc(g: Graph, p: seq<string>, config: EngineConfig, s: RunState, prev: RunState, next: RunState)
    requires p != [] && Elems(p) <= NodeIds(g.nodes)
    requires Elems(p[..|p| - 1]) <= NodeIds(g.nodes) && p[|p| - 1] in NodeIds(g.nodes)
    requires RunNodes(g, p[..|p| - 1], config, s) == prev
    requires var id := p[|p| - 1];
      NodeStep(g.nodes, NodeById(g.nodes, id), EdgesTo(g.edges, id), EdgesFrom(g.edges, id), config, prev) == next
    ensures RunNodes(g, p, config, s) == next
  {
  }

  /** One API endpoint feeding the joiner, run after the endpoints in `q`. */
  lemma ApiStepG(g: Graph, seed: map<string, real>, q: seq<string>, id: string)
    requires FeedsJoiner(g, id) && id in seed && seed[id] == 300.0
    ensures NodeStep(g.nodes, NodeById(g.nodes, id), EdgesTo(g.edges, id), EdgesFrom(g.edges, id), DefaultConfig,
                     AfterApis(seed, g.edges, q)) == AfterApis(seed, g.edges, q + [id])
  {
    var e := EdgesFrom(g.edges, id)[0];
    assert EdgesFrom(g.edges, id) == [e];
    ApiStepAt(seed, g.edges, q, g.nodes, NodeById(g.nodes, id), e);
  }

  /** Each API endpoint of the fan-in graph feeds the joiner. */
  lemma ApiFeedsJoiner(k: nat)
    requires k < 3
    ensures FeedsJoiner(FanInJoin, FanInJoin.nodes[k].id)
  {
    var n, e := FanInJoin.nodes[k], FanInJoin.edges[k];
    ApiEdges(k);
    assert n == Api(n.id, n.labelText) && n.id != "svc" && e.to == "svc" && e.weight == None && e.protocol == Generic by {
      assert k == 0 || k == 1 || k == 2;
    }
  }

  lemma FanInFeeds()
    ensures FeedsJoiner(FanInJoin, "api1") && FeedsJoiner(FanInJoin, "api2") && FeedsJoiner(FanInJoin, "api3")
  {
    ApiFeedsJoiner(0);
    ApiFeedsJoiner(1);
    ApiFeedsJoiner(2);
  }

  /** In every evaluation order of the fan-in graph the joiner comes last,
      after the three API endpoints. */
  lemma FanInOrder(o: seq<string>)
    requires EvaluationOrder(FanInJoin, o)
    ensures |o| == 4 && o[3] == "svc" && Elems(o[..3]) == FanInApis
  {
    FanInOrderShape(o);
    assert "svc" in Elems(o);
    var j :| 0 <= j < 4 && o[j] == "svc";
    JoinerLast(o, j);
    ApisFirst(o);
  }

  lemma FanInOrderShape(o: seq<string>)
    requires EvaluationOrder(FanInJoin, o)
    ensures |o| == 4 && Distinct(o) && Elems(o) == FanInApis + {"svc"} && Forward(FanInJoin.edges, o)
  {
    FanInNodes();
    FanInJoinAcyclic();
    DistinctCard(o);
    assert |FanInApis + {"svc"}| == 4;
  }

  /** The joiner is preceded by the sources of its three inbound edges. */
  lemma JoinerLast(o: seq<string>, j: nat)
    requires |o| == 4 && Distinct(o) && Forward(FanInJoin.edges, o) && j < 4 && o[j] == "svc"
    ensures j == 3
  {
    var edges := FanInJoin.edges;
    assert FanInApis <= Elems(o[..j]) by {
      assert edges[0].to == o[j] && edges[1].to == o[j] && edges[2].to == o[j];
      assert edges[0].from in o[..j] && edges[1].from in o[..j] && edges[2].from in o[..j];
    }
    assert Distinct(o[..j]);
    DistinctCard(o[..j]);
    SubsetCard(FanInApis, Elems(o[..j]));
    assert |FanInApis| == 3;
  }

  lemma ApisFirst(o: seq<string>)
    requires |o| == 4 && Distinct(o) && Elems(o) == FanInApis + {"svc"} && o[3] == "svc"
    ensures Elems(o[..3]) == FanInApis
  {
    forall x | x in Elems(o[..3])
      ensures x in FanInApis
    {
      var i :| 0 <= i < 3 && o[i] == x;
      assert x in Elems(o) && x != o[3];
    }
    forall x | x in FanInApis
      ensures x in Elems(o[..3])
    {
      var i :| 0 <= i < 4 && o[i] == x;
      assert i != 3;
      assert o[..3][i] == x;
    }
  }

  /** The joiner of the fan-in graph. */
  const JoinerNode := Node("svc", "Joiner", NoPenalties, Service(Joiner))

  /** Three inbound streams of 300 rps each: the joiner's evaluation is the
      3-of-3 join of 300 rps against its 200 rps of capacity, and it reports
      itself as a bottleneck. */
  lemma JoinerEval(nodes: seq<Node>, stats: map<string, EdgeStat>)
    requires "e1" in stats && "e2" in stats && "e3" in stats
    requires stats["e1"].flowRps == 300.0 && stats["e2"].flowRps == 300.0 && stats["e3"].flowRps == 300.0
    ensures var ev := EvalNode(nodes, JoinerNode, FanInJoin.edges, [], stats, 900.0, DefaultConfig);
      ev.stat == ServiceStat(NoPenalties, Joiner, 300.0, 200.0, 3, 0.0, DefaultConfig) &&
      ev.bottleneck == Some(CapacityExceededReason)
  {
    var edges := FanInJoin.edges;
    assert InboundRates(stats, edges) == [300.0, 300.0, 300.0];
    FanInJoinRate();
    JoinerNoKafka();
    FanInJoinCapacity();
    FanInJoinBacklog();
  }

  lemma JoinerNoKafka()
    ensures KafkaOnly(FanInJoin.edges) == []
  {
    var edges := FanInJoin.edges;
    assert KafkaOnly(edges[..1]) == [] by {
      assert edges[..1][..0] == [];
    }
    assert KafkaOnly(edges[..2]) == [] by {
      assert edges[..2][..1] == edges[..1];
    }
    assert edges[..2] == edges[..|edges| - 1];
  }

  /** The joiner's step: it feeds nothing, records its statistics and its
      bottleneck, and annotates its inbound edges. */
  lemma JoinerStep(nodes: seq<Node>, s: RunState, ev: NodeEval)
    requires ev == EvalNode(nodes, JoinerNode, FanInJoin.edges, [], s.edgeStats, Get(s.incoming, "svc"), DefaultConfig)
    requires ev.bottleneck == Some(CapacityExceededReason)
    ensures var t := NodeStep(nodes, JoinerNode, FanInJoin.edges, [], DefaultConfig, s);
      && t.incoming == s.incoming && t.nodeStats == s.nodeStats["svc" := ev.stat]
      && t.edgeStats == AnnotateAll(s.edgeStats, FanInJoin.edges, ev.wants, Acceptance(ev.stat))
      && t.bottlenecks == s.bottlenecks + [Bottleneck("svc", CapacityExceededReason)]
  {
    NodeStepWith(nodes, JoinerNode, FanInJoin.edges, [], DefaultConfig, s, ev);
  }

  /** Where the joiner sits in the fan-in graph: all three edges enter it and none leaves it. */
  lemma JoinerEdges()
    ensures "svc" in NodeIds(FanInJoin.nodes) && NodeById(FanInJoin.nodes, "svc") == JoinerNode
    ensures EdgesTo(FanInJoin.edges, "svc") == FanInJoin.edges && EdgesFrom(FanInJoin.edges, "svc") == []
  {
    JoinerAt();
    FanInEdgesFrom("svc", [], [], []);
    JoinerEdgesTo();
  }

  lemma JoinerAt()
    ensures "svc" in NodeIds(FanInJoin.nodes) && NodeById(FanInJoin.nodes, "svc") == JoinerNode
  {
    FanInNodes();
    FindNodeUnique(FanInJoin.nodes, 3);
  }

  lemma JoinerEdgesTo()
    ensures EdgesTo(FanInJoin.edges, "svc") == FanInJoin.edges
  {
    var edges := FanInJoin.edges;
    assert EdgesTo(edges[..1], "svc") == edges[..1] by {
      assert edges[..1][..0] == [];
    }
    assert EdgesTo(edges[..2], "svc") == edges[..2] by {
      assert edges[..2][..1] == edges[..1];
    }
    assert edges[..2] == edges[..|edges| - 1];
  }

  /** Once all three API endpoints have run: 900 rps wait at the joiner, each
      edge carries 300 rps and each endpoint reports `ApiOut`. */
  lemma AfterThree(seed: map<string, real>, p: seq<string>)
    requires |p| == 3 && Elems(p) == FanInApis
    ensures var a := AfterApis(seed, FanInJoin.edges, p);
      && Get(a.incoming, "svc") == 900.0 && a.bottlenecks == []
      && a.nodeStats.Keys == FanInApis && (forall id :: id in FanInApis ==> a.nodeStats[id] == ApiOut)
      && "e1" in a.edgeStats && "e2" in a.edgeStats && "e3" in a.edgeStats
      && a.edgeStats["e1"].flowRps == 300.0 && a.edgeStats["e2"].flowRps == 300.0 && a.edgeStats["e3"].flowRps == 300.0
  {
    var edges := FanInJoin.edges;
    assert edges[0].from in FanInApis && edges[1].from in FanInApis && edges[2].from in FanInApis;
    assert edges[0] in edges && edges[1] in edges && edges[2] in edges;
    assert {"e1", "e2", "e3"} <= EdgeIdsFrom(edges, FanInApis);
  }

  /** The accumulators once the three API endpoints have run. */
  predicate ApisDone(a: RunState)
  {
    && Get(a.incoming, "svc") == 900.0 && a.bottlenecks == []
    && a.nodeStats.Keys == FanInApis && (forall id :: id in FanInApis ==> a.nodeStats[id] == ApiOut)
    && "e1" in a.edgeStats && "e2" in a.edgeStats && "e3" in a.edgeStats
    && a.edgeStats["e1"].flowRps == 300.0 && a.edgeStats["e2"].flowRps == 300.0 && a.edgeStats["e3"].flowRps == 300.0
  }

  /** The accumulators at the end of the fan-in run: the API endpoints
      report 300 rps each, every edge carries 300 rps, the joiner runs the
      3-of-3 join at 300 rps against 200 rps of capacity, and it is the one
      bottleneck. */
  predicate FanInResult(r: RunState)
  {
    && r.nodeStats.Keys == FanInApis + {"svc"}
    && r.nodeStats["svc"] == ServiceStat(NoPenalties, Joiner, 300.0, 200.0, 3, 0.0, DefaultConfig)
    && (forall id :: id in FanInApis ==> r.nodeStats[id] == ApiOut)
    && r.bottlenecks == [Bottleneck("svc", CapacityExceededReason)]
    && "e1" in r.edgeStats && "e2" in r.edgeStats && "e3" in r.edgeStats
    && r.edgeStats["e1"].flowRps == 300.0 && r.edgeStats["e2"].flowRps == 300.0 && r.edgeStats["e3"].flowRps == 300.0
  }

  /** The first three steps of any evaluation order of the fan-in graph run
      the three API endpoints. */
  lemma FanInPrefix(o: seq<string>)
    requires EvaluationOrder(FanInJoin, o)
    ensures |o| == 4 && o[3] == "svc" && Elems(o) <= NodeIds(FanInJoin.nodes)
    ensures Elems(o[..3]) <= NodeIds(FanInJoin.nodes)
    ensures ApisDone(RunNodes(FanInJoin, o[..3], DefaultConfig, Seeded(FanInJoin)))
  {
    FanInOrder(o);
    var seed := Seeded(FanInJoin).incoming;
    SeedValues();
    FanInSeeded();
    FanInFeeds();
    ApisRun(FanInJoin, seed, o[..3]);
    AfterThree(seed, o[..3]);
  }

  /** The joiner's step after the three API endpoints. */
  lemma JoinerRuns(nodes: seq<Node>, a: RunState)
    requires ApisDone(a)
    ensures FanInResult(NodeStep(nodes, JoinerNode, FanInJoin.edges, [], DefaultConfig, a))
  {
    var edges := FanInJoin.edges;
    var ev := EvalNode(nodes, JoinerNode, edges, [], a.edgeStats, Get(a.incoming, "svc"), DefaultConfig);
    JoinerEval(nodes, a.edgeStats);
    JoinerStep(nodes, a, ev);
    var ann := AnnotateAll(a.edgeStats, edges, ev.wants, Acceptance(ev.stat));
    AnnotateAllFacts(a.edgeStats, edges, ev.wants, Acceptance(ev.stat));
    ResultFrom(a, NodeStep(nodes, JoinerNode, edges, [], DefaultConfig, a), ev.stat, ann);
  }

  lemma ResultFrom(a: RunState, t: RunState, stat: NodeStat, ann: map<string, EdgeStat>)
    requires ApisDone(a) && stat == ServiceStat(NoPenalties, Joiner, 300.0, 200.0, 3, 0.0, DefaultConfig)
    requires t.nodeStats == a.nodeStats["svc" := stat] && t.edgeStats == ann
    requires t.bottlenecks == a.bottlenecks + [Bottleneck("svc", CapacityExceededReason)]
    requires ann.Keys == a.edgeStats.Keys && forall id :: id in a.edgeStats ==> ann[id].flowRps == a.edgeStats[id].flowRps
    ensures FanInResult(t)
  {
  }

  /** What `computeScenario`'s main loop produces on the fan-in graph, in
      any evaluation order. */
  lemma FanInRun(o: seq<string>)
    requires EvaluationOrder(FanInJoin, o)
    ensures Elems(o) <= NodeIds(FanInJoin.nodes)
    ensures FanInResult(RunNodes(FanInJoin, o, DefaultConfig, Seeded(FanInJoin)))
  {
    FanInPrefix(o);
    var a := RunNodes(FanInJoin, o[..3], DefaultConfig, Seeded(FanInJoin));
    JoinerEdges();
    JoinerRuns(FanInJoin.nodes, a);
    var t := NodeStep(FanInJoin.nodes, JoinerNode, FanInJoin.edges, [], DefaultConfig, a);
    assert o[..|o| - 1] == o[..3];
    RunNodesSnoc(FanInJoin, o, DefaultConfig, Seeded(FanInJoin), a, t);
  }

  /** Both ends of every edge of the fan-in graph are nodes of it. */
  lemma FanInWellFormed()
    ensures UniqueIds(FanInJoin.nodes) && EdgesWellFormed(FanInJoin)
  {
    FanInNodes();
  }

  /** `computeScenario` on the fan-in graph: the three API endpoints report
      300 rps each and every edge carries 300 rps; the joiner receives 900 rps,
      joins them into 300 rps against 200 rps of capacity, serves 200 rps,
      keeps 100 rps of backlog with a capacity warning, and is the one
      bottleneck. */
  method FanInJoinScenario() returns (r: ScenarioResult)
    ensures r.nodeStats.Keys == FanInApis + {"svc"}
    ensures forall id :: id in FanInApis ==> r.nodeStats[id].ingressRps == 300.0 && r.nodeStats[id].egressRps == 300.0
    ensures forall id :: id in FanInApis ==> r.nodeStats[id].backlogRps.None?
    ensures r.nodeStats["svc"].backlogRps == Some(100.0) && r.nodeStats["svc"].egressRps == 200.0
    ensures r.nodeStats["svc"].limiter == ServiceCompute && r.nodeStats["svc"].warnings == [CapacityExceeded(300.0, 200.0)]
    ensures "e1" in r.edgeStats && "e2" in r.edgeStats && "e3" in r.edgeStats
    ensures r.edgeStats["e1"].flowRps == 300.0 && r.edgeStats["e2"].flowRps == 300.0 && r.edgeStats["e3"].flowRps == 300.0
    ensures r.bottlenecks == [Bottleneck("svc", CapacityExceededReason)] && r.globalWarnings == []
  {
    FanInWellFormed();
    r := ComputeScenario(FanInJoin, DefaultConfig);
    ghost var o :| EvaluationOrder(FanInJoin, o) && r == Outcome(RunNodes(FanInJoin, o, DefaultConfig, Seeded(FanInJoin)));
    FanInRun(o);
    FanInOutcome(RunNodes(FanInJoin, o, DefaultConfig, Seeded(FanInJoin)));
  }

  /** What the result reports once the fan-in run has ended as `FanInResult` says. */
  lemma FanInOutcome(s: RunState)
    requires FanInResult(s)
    ensures var r := Outcome(s);
      && r.nodeStats.Keys == FanInApis + {"svc"}
      && (forall id :: id in FanInApis ==> r.nodeStats[id].ingressRps == 300.0 && r.nodeStats[id].egressRps == 300.0)
      && (forall id :: id in FanInApis ==> r.nodeStats[id].backlogRps.None?)
      && r.nodeStats["svc"].backlogRps == Some(100.0) && r.nodeStats["svc"].egressRps == 200.0
      && r.nodeStats["svc"].limiter == ServiceCompute && r.nodeStats["svc"].warnings == [CapacityExceeded(300.0, 200.0)]
      && "e1" in r.edgeStats && "e2" in r.edgeStats && "e3" in r.edgeStats
      && r.edgeStats["e1"].flowRps == 300.0 && r.edgeStats["e2"].flowRps == 300.0 && r.edgeStats["e3"].flowRps == 300.0
      && r.bottlenecks == [Bottleneck("svc", CapacityExceededReason)] && r.globalWarnings == []
  {
    FanInJoinBacklog();
  }

  /** The same step for any API endpoint `n` seeded at 300 rps whose one
      outbound edge `e` is a plain unweighted edge into the joiner. */
  lemma ApiStepAt(seed: map<string, real>, edges: seq<Edge>, done: seq<string>, nodes: seq<Node>, n: Node, e: Edge)
    requires n == Api(n.id, n.labelText) && n.id in seed && seed[n.id] == 300.0 && n.id != "svc"
    requires EdgesFrom(edges, n.id) == [e] && e.to == "svc" && e.weight == None && e.protocol == Generic
    ensures NodeStep(nodes, n, [], [e], DefaultConfig, AfterApis(seed, edges, done)) == AfterApis(seed, edges, done + [n.id])
  {
    var s := AfterApis(seed, edges, done);
    assert Get(s.incoming, n.id) == 300.0;
    ApiNodeStep(nodes, n, e, s);
    OneMoreEdge(edges, done, n.id, e);
    AfterEdge(seed, edges, done, n.id, e);
  }

  /** One step of an API endpoint with one plain outbound edge, from any
      accumulators holding 300 rps for it: the edge carries all 300 rps. */
  lemma ApiNodeStep(nodes: seq<Node>, n: Node, e: Edge, s: RunState)
    requires n == Api(n.id, n.labelText) && Get(s.incoming, n.id) == 300.0
    requires e.weight == None && e.protocol == Generic
    ensures NodeStep(nodes, n, [], [e], DefaultConfig, s) ==
      RunState(s.incoming[e.to := Get(s.incoming, e.to) + 300.0], s.nodeStats[n.id := ApiOut],
               s.edgeStats[e.id := FreshStat(300.0, 300.0)], s.bottlenecks)
  {
    ApiEvalAt(nodes, n, e, s.edgeStats);
    var ev := NodeEval(ApiOut, None, None);
    NodeStepWith(nodes, n, [], [e], DefaultConfig, s, ev);
    var acc := Acceptance(ev.stat);
    var f := DistributeAll(Flows(s.incoming, AnnotateAll(s.edgeStats, [], ev.wants, acc)),
                           nodes, [e], ev.stat.egressRps, Duplicates(n), TotalWeight([e]));
    FeedOne(nodes, n, e, s, ev, acc, f);
  }

  /** A node with no inbound edges that emits 300 rps down one plain edge:
      the edge carries all of it, and nothing else changes. */
  lemma FeedOne(nodes: seq<Node>, n: Node, e: Edge, s: RunState, ev: NodeEval, acc: real, f: Flows)
    requires ev.bottleneck == None && ev.stat.egressRps == 300.0 && !Duplicates(n)
    requires e.weight == None && e.protocol == Generic
    requires f == DistributeAll(Flows(s.incoming, AnnotateAll(s.edgeStats, [], ev.wants, acc)),
                                nodes, [e], ev.stat.egressRps, Duplicates(n), TotalWeight([e]))
    ensures RunState(f.incoming, s.nodeStats[n.id := ev.stat], f.edgeStats,
                     s.bottlenecks + (if ev.bottleneck.Some? then [Bottleneck(n.id, ev.bottleneck.value)] else [])) ==
      RunState(s.incoming[e.to := Get(s.incoming, e.to) + 300.0], s.nodeStats[n.id := ev.stat],
               s.edgeStats[e.id := FreshStat(300.0, 300.0)], s.bottlenecks)
  {
    assert AnnotateAll(s.edgeStats, [], ev.wants, acc) == s.edgeStats;
    ApiFeedAt(nodes, e, Flows(s.incoming, s.edgeStats));
    assert s.bottlenecks + [] == s.bottlenecks;
  }

  /** An API endpoint's evaluation: 300 rps in, 300 rps out, no bottleneck. */
  lemma ApiEvalAt(nodes: seq<Node>, n: Node, e: Edge, stats: map<string, EdgeStat>)
    requires n == Api(n.id, n.labelText)
    ensures EvalNode(nodes, n, [], [e], stats, 300.0, DefaultConfig) == NodeEval(ApiOut, None, None)
    ensures ApiOut.egressRps == 300.0 && !Duplicates(n)
  {
    ApiOutIs();
  }

  /** `ApiOut` is what an API endpoint without penalties reports at 300 rps. */
  lemma ApiOutIs()
    ensures ApiStat(NoPenalties, ApiDials(300.0, None, None, None), 300.0) == ApiOut
  {
    var s := ApiStat(NoPenalties, ApiDials(300.0, None, None, None), 300.0);
    assert s.ingressRps == 300.0 && s.egressRps == 300.0 && s.utilization == 0.0;
    assert s.p50Ms == 0.0 && s.p95Ms == 0.0;
    assert s.backlogRps == None && s.consumerLagRps == None && s.wastedConcurrency == None;
    assert s.warnings == [] && s.limiter == NoConstraint && s.upstreamConstraint == None;
  }

  /** The endpoint's 300 rps all go down its one plain edge. */
  lemma ApiFeedAt(nodes: seq<Node>, e: Edge, f: Flows)
    requires e.weight == None && e.protocol == Generic
    ensures DistributeAll(f, nodes, [e], 300.0, false, TotalWeight([e])) == Feed(f, e, 300.0, 300.0)
  {
    assert [e][..0] == [];
    assert WeightSum([e]) == WeightSum([]) + 1.0;
  }

  /** Running the endpoint `id`, whose one edge `e` enters the joiner. */
  lemma AfterEdge(seed: map<string, real>, edges: seq<Edge>, done: seq<string>, id: string, e: Edge)
    requires EdgeIdsFrom(edges, Elems(done + [id])) == EdgeIdsFrom(edges, Elems(done)) + {e.id} && e.to == "svc"
    ensures var s := AfterApis(seed, edges, done);
      AfterApis(seed, edges, done + [id]) ==
      RunState(s.incoming[e.to := Get(s.incoming, e.to) + 300.0], s.nodeStats[id := ApiOut],
               s.edgeStats[e.id := FreshStat(300.0, 300.0)], [])
  {
    AfterFields(seed, edges, done, id, e.id, EdgeIdsFrom(edges, Elems(done)));
  }

  /** An endpoint with one outbound edge adds that edge's id to the fed edges. */
  lemma OneMoreEdge(edges: seq<Edge>, done: seq<string>, id: string, e: Edge)
    requires EdgesFrom(edges, id) == [e]
    ensures EdgeIdsFrom(edges, Elems(done + [id])) == EdgeIdsFrom(edges, Elems(done)) + {e.id}
  {
    EdgeIdsStep(Graph([], edges), Elems(done), id);
    assert (set x | x in [e] :: x.id) == {e.id};
    assert Elems(done + [id]) == Elems(done) + {id};
  }

  /** One more endpoint in `done`: its stat, its edge's stat and 300 rps more at the joiner. */
  lemma AfterFields(seed: map<string, real>, edges: seq<Edge>, done: seq<string>, id: string, eid: string, before: set<string>)
    requires before == EdgeIdsFrom(edges, Elems(done))
    requires EdgeIdsFrom(edges, Elems(done + [id])) == before + {eid}
    ensures var s := AfterApis(seed, edges, done);
      AfterApis(seed, edges, done + [id]) ==
      RunState(s.incoming["svc" := Get(s.incoming, "svc") + 300.0], s.nodeStats[id := ApiOut],
               s.edgeStats[eid := FreshStat(300.0, 300.0)], [])
  {
    AfterIncoming(seed, edges, done, id);
    AfterNodeStats(seed, edges, done, id);
    AfterEdgeStats(seed, edges, done, id, eid, before);
  }

  lemma AfterIncoming(seed: map<string, real>, edges: seq<Edge>, done: seq<string>, id: string)
    ensures var s := AfterApis(seed, edges, done);
      AfterApis(seed, edges, done + [id]).incoming == s.incoming["svc" := Get(s.incoming, "svc") + 300.0]
  {
  }

  lemma AfterNodeStats(seed: map<string, real>, edges: seq<Edge>, done: seq<string>, id: string)
    ensures AfterApis(seed, edges, done + [id]).nodeStats == AfterApis(seed, edges, done).nodeStats[id := ApiOut]
  {
    assert (done + [id])[..|done|] == done;
  }

  lemma AfterEdgeStats(seed: map<string, real>, edges: seq<Edge>, done: seq<string>, id: string, eid: string, before: set<string>)
    requires before == EdgeIdsFrom(edges, Elems(done))
    requires EdgeIdsFrom(edges, Elems(done + [id])) == before + {eid}
    ensures AfterApis(seed, edges, done + [id]).edgeStats == AfterApis(seed, edges, done).edgeStats[eid := FreshStat(300.0, 300.0)]
  {
    MapGrow(before, eid, FreshStat(300.0, 300.0));
  }

  /** A constant map over one more key is the old map updated at that key. */
  lemma MapGrow<K, V>(keys: set<K>, k: K, v: V)
    ensures (map x | x in keys + {k} :: v) == (map x | x in keys :: v)[k := v]
  {
  }

  /** An edge x -> z and an isolated y, beside two endpoints p and q feeding each other. */
  const ChainAndLoop := Graph(
    [Api("x", "X"), Api("y", "Y"), Api("z", "Z"), Api("p", "P"), Api("q", "Q")],
    [Edge("xz", "x", "z", Generic, None, None, None),
     Edge("pq", "p", "q", Generic, None, None, None),
     Edge("qp", "q", "p", Generic, None, None, None)])

  /** On `ChainAndLoop` the queue starts as [x, y]; z, released by x, joins
      it behind y, so the order is first-in first-out rather than depth
      first. p and q are never released and follow in node order. */
  lemma ChainAndLoopSchedule()
    ensures Schedule(ChainAndLoop) == ["x", "y", "z", "p", "q"]
  {
    KahnOnChainAndLoop();
    ScheduleFrom(ChainAndLoop, ["x", "y", "z"]);
    MissingOnChainAndLoop();
  }

  lemma KahnOnChainAndLoop()
    ensures KahnFrom(Adjacency(ChainAndLoop), InDegrees(ChainAndLoop),
                     ZeroIn(ChainAndLoop.nodes, InDegrees(ChainAndLoop)), |ChainAndLoop.nodes|) == ["x", "y", "z"]
  {
    var inDeg := InDegrees(ChainAndLoop);
    ChainAndLoopDegrees();
    ChainAndLoopQueue(inDeg);
    ChainAndLoopIds();
    ChainAndLoopTargets();
    KahnRun(Adjacency(ChainAndLoop), inDeg);
  }

  lemma ChainAndLoopIds()
    ensures NodeIds(ChainAndLoop.nodes) == {"x", "y", "z", "p", "q"}
  {
    var nodes := ChainAndLoop.nodes;
    assert nodes[0].id == "x" && nodes[1].id == "y" && nodes[2].id == "z" && nodes[3].id == "p" && nodes[4].id == "q";
    assert NodeIds(nodes) == {nodes[0].id, nodes[1].id, nodes[2].id, nodes[3].id, nodes[4].id};
  }

  lemma ChainAndLoopDegrees()
    ensures InDegrees(ChainAndLoop) == map["x" := 0, "y" := 0, "z" := 1, "p" := 1, "q" := 1]
  {
    ChainAndLoopIds();
    forall v | v in {"x", "y", "z", "p", "q"}
      ensures InCount(ChainAndLoop.edges, v, {}) == if v == "z" || v == "p" || v == "q" then 1 else 0
    {
      ChainAndLoopCount(v);
    }
  }

  lemma ChainAndLoopCount(v: string)
    ensures InCount(ChainAndLoop.edges, v, {}) == if v == "z" || v == "p" || v == "q" then 1 else 0
  {
    var edges := ChainAndLoop.edges;
    assert edges[..1][..0] == [] && edges[..2][..1] == edges[..1] && edges[..3][..2] == edges[..2] && edges[..3] == edges;
    assert InCount(edges[..1], v, {}) == if v == "z" then 1 else 0;
    assert InCount(edges[..2], v, {}) == if v == "z" || v == "q" then 1 else 0;
  }

  lemma ChainAndLoopQueue(inDeg: map<string, int>)
    requires inDeg == map["x" := 0, "y" := 0, "z" := 1, "p" := 1, "q" := 1]
    ensures ZeroIn(ChainAndLoop.nodes, inDeg) == ["x", "y"]
  {
    var nodes := ChainAndLoop.nodes;
    assert nodes[..1][..0] == [] && nodes[..2][..1] == nodes[..1] && nodes[..3][..2] == nodes[..2];
    assert nodes[..4][..3] == nodes[..3] && nodes[..5][..4] == nodes[..4] && nodes[..5] == nodes;
    assert ZeroIn(nodes[..1], inDeg) == ["x"];
    assert ZeroIn(nodes[..2], inDeg) == ["x", "y"];
    assert ZeroIn(nodes[..3], inDeg) == ["x", "y"];
    assert ZeroIn(nodes[..4], inDeg) == ["x", "y"];
  }

  lemma ChainAndLoopTargets()
    ensures Targets(ChainAndLoop.edges, "x") == ["z"]
    ensures Targets(ChainAndLoop.edges, "y") == [] && Targets(ChainAndLoop.edges, "z") == []
  {
    var edges := ChainAndLoop.edges;
    assert edges[..1][..0] == [] && edges[..2][..1] == edges[..1] && edges[..3][..2] == edges[..2] && edges[..3] == edges;
    forall u | u in {"x", "y", "z"}
      ensures Targets(edges, u) == if u == "x" then ["z"] else []
    {
      assert Targets(edges[..1], u) == if u == "x" then ["z"] else [];
      assert Targets(edges[..2], u) == if u == "x" then ["z"] else [];
    }
  }

  /** Kahn's loop from the queue [x, y] when x's only arc goes to z, of in-degree one. */
  lemma KahnRun(adj: map<string, seq<string>>, inDeg: map<string, int>)
    requires "x" in adj && "y" in adj && "z" in adj
    requires adj["x"] == ["z"] && adj["y"] == [] && adj["z"] == []
    requires "z" in inDeg && inDeg["z"] == 1
    ensures KahnFrom(adj, inDeg, ["x", "y"], 5) == ["x", "y", "z"]
  {
    var inDeg' := inDeg["z" := 0];
    assert ["z"][1..] == [] && ["x", "y"][1..] == ["y"] && ["y", "z"][1..] == ["z"] && ["z"][1..] == [];
    assert Released(["z"], inDeg, ["y"]) == (inDeg', ["y", "z"]) by {
      assert ["y"] + ["z"] == ["y", "z"];
      assert Released([], inDeg', ["y", "z"]) == (inDeg', ["y", "z"]);
    }
    assert Released([], inDeg', ["z"]) == (inDeg', ["z"]);
    assert Released([], inDeg', []) == (inDeg', []);
    assert KahnFrom(adj, inDeg', [], 2) == [];
    assert KahnFrom(adj, inDeg', ["z"], 3) == ["z"];
    assert KahnFrom(adj, inDeg', ["y", "z"], 4) == ["y", "z"];
  }

  lemma MissingOnChainAndLoop()
    ensures Missing(ChainAndLoop.nodes, Elems(["x", "y", "z"])) == ["p", "q"]
  {
    var nodes := ChainAndLoop.nodes;
    var done := Elems(["x", "y", "z"]);
    assert done == {"x", "y", "z"};
    assert nodes[1..][1..] == nodes[2..] && nodes[2..][1..] == nodes[3..] && nodes[3..][1..] == nodes[4..] && nodes[4..][1..] == [];
    assert nodes[0].id == "x" && nodes[1..][0].id == "y" && nodes[2..][0].id == "z";
    assert nodes[3..][0].id == "p" && nodes[4..][0].id == "q";
    assert Missing(nodes[4..], done + {"p"}) == ["q"];
    assert Missing(nodes[3..], done) == ["p", "q"];
    assert Missing(nodes[2..], done) == ["p", "q"];
    assert Missing(nodes[1..], done) == ["p", "q"];
  }
}
