/** The graph snapshot the editor builds and the engine reads
    (src/graph/types.ts): nodes of four kinds, edges between them, and the
    lookups every part of the system performs on them. */
module Types {
  import opened Util

  datatype Protocol = Generic | Kafka

  /** The operation hint an edge carries to a datastore. */
  datatype OpType = Read | Write | Bulk | Stream

  /** Node-level adjustments; a node without penalties has every field absent. */
  datatype Penalties = Penalties(
    capacityMultiplier: Option<real>,
    throughputMultiplier: Option<real>,
    latencyMsAdd: Option<real>,
    latencyMultiplier: Option<real>,
    fixedRpsCap: Option<real>)

  const NoPenalties := Penalties(None, None, None, None, None)

  /** Fan-in semantics of a service. The engine tests the tags `none`, `all`,
      `kOfN` and `window`; any other tag (the `waitAll` and `windowed` variants
      the type declarations list) is `JoinOther`. An absent join is `JoinNone`. */
  datatype Join =
    | JoinNone
    | JoinAll(efficiency: Option<real>)
    | KOfN(requiredStreams: int, efficiency: Option<real>)
    | Window(requiredStreams: int, matchRate: real, efficiency: Option<real>)
    | JoinOther

  /** An absent fan-out behaves as `Split`. */
  datatype FanOut = Split | Duplicate

  datatype ServiceDials = ServiceDials(
    concurrency: real,
    parallelEfficiency: Option<real>,
    serviceTimeMs: real,
    cacheHitRate: Option<real>,
    cacheHitMs: Option<real>,
    maxInFlight: Option<real>,
    join: Join,
    fanOut: FanOut)

  datatype TopicDials = TopicDials(partitions: real, perPartitionThroughput: real)

  datatype ApiDials = ApiDials(
    targetQps: real,
    p50Ms: Option<real>,
    p95Ms: Option<real>,
    burstFactor: Option<real>)

  datatype DatastoreDials = DatastoreDials(
    maxQps: real,
    p95Ms: real,
    writeAmplification: Option<real>,
    lockContentionFactor: Option<real>,
    poolSize: Option<real>,
    maxConcurrent: Option<real>)

  datatype NodeKind =
    | Service(svc: ServiceDials)
    | QueueTopic(topic: TopicDials)
    | ApiEndpoint(api: ApiDials)
    | Datastore(store: DatastoreDials)

  /** The `type` tag of a node, as validation warnings report it. */
  datatype NodeType = ServiceType | QueueTopicType | ApiEndpointType | DatastoreType

  datatype Node = Node(id: string, labelText: string, penalties: Penalties, kind: NodeKind)
  {
    function Type(): NodeType {
      match kind
      case Service(_) => ServiceType
      case QueueTopic(_) => QueueTopicType
      case ApiEndpoint(_) => ApiEndpointType
      case Datastore(_) => DatastoreType
    }
  }

  datatype Edge = Edge(
    id: string,
    from: string,
    to: string,
    protocol: Protocol,
    opType: Option<OpType>,
    weight: Option<real>,
    keySkew: Option<real>)

  datatype Graph = Graph(nodes: seq<Node>, edges: seq<Edge>)

  function NodeIds(nodes: seq<Node>): set<string>
  {
    set n | n in nodes :: n.id
  }

  predicate UniqueIds(nodes: seq<Node>)
  {
    forall i, j :: 0 <= i < j < |nodes| ==> nodes[i].id != nodes[j].id
  }

  /** Every edge starts and ends at a node of the graph. */
  predicate EdgesWellFormed(g: Graph)
  {
    forall k :: 0 <= k < |g.edges| ==>
      g.edges[k].from in NodeIds(g.nodes) && g.edges[k].to in NodeIds(g.nodes)
  }

  /** Index of the first node with the given id, or |nodes| when there is none. */
  function FirstNodeIndex(nodes: seq<Node>, id: string): (k: nat)
    ensures k <= |nodes|
    ensures k < |nodes| ==> nodes[k].id == id
    ensures forall j :: 0 <= j < k ==> nodes[j].id != id
  {
    if nodes == [] then 0
    else if nodes[0].id == id then 0
    else 1 + FirstNodeIndex(nodes[1..], id)
  }

  /** Index of the first edge with the given id, or |edges| when there is none. */
  function FirstEdgeIndex(edges: seq<Edge>, id: string): (k: nat)
    ensures k <= |edges|
    ensures k < |edges| ==> edges[k].id == id
    ensures forall j :: 0 <= j < k ==> edges[j].id != id
  {
    if edges == [] then 0
    else if edges[0].id == id then 0
    else 1 + FirstEdgeIndex(edges[1..], id)
  }

  /** `nodes.find((x) => x.id === id)` */
  function FindNode(nodes: seq<Node>, id: string): (r: Option<Node>)
    ensures r.None? <==> id !in NodeIds(nodes)
    ensures r.Some? ==> r.value in nodes && r.value.id == id
  {
    var k := FirstNodeIndex(nodes, id);
    if k < |nodes| then Some(nodes[k]) else None
  }

  /** With unique ids, a node is found by its own id. */
  lemma FindNodeUnique(nodes: seq<Node>, k: nat)
    requires UniqueIds(nodes) && k < |nodes|
    ensures FindNode(nodes, nodes[k].id) == Some(nodes[k])
  {
    var i := FirstNodeIndex(nodes, nodes[k].id);
    assert i <= k;
  }

  /** The node with a given id, when it is known to exist. */
  function NodeById(nodes: seq<Node>, id: string): (n: Node)
    requires id in NodeIds(nodes)
    ensures n in nodes && n.id == id
  {
    FindNode(nodes, id).value
  }

  /** With unique ids there are exactly as many ids as nodes. */
  lemma {:induction false} UniqueIdsCard(nodes: seq<Node>)
    requires UniqueIds(nodes)
    ensures |NodeIds(nodes)| == |nodes|
  {
    if nodes != [] {
      var p := nodes[..|nodes| - 1];
      var last := nodes[|nodes| - 1];
      assert UniqueIds(p);
      UniqueIdsCard(p);
      assert NodeIds(nodes) == NodeIds(p) + {last.id};
      assert last.id !in NodeIds(p);
    }
  }

  /** An optional dial that is absent or not negative. */
  predicate NonNegOpt(x: Option<real>)
  {
    x.None? || x.value >= 0.0
  }

  /** The dials that scale or bound a rate are not negative. */
  predicate NodeNonNegative(n: Node)
  {
    NonNegOpt(n.penalties.capacityMultiplier) &&
    NonNegOpt(n.penalties.throughputMultiplier) &&
    NonNegOpt(n.penalties.fixedRpsCap) &&
    match n.kind
    case Service(d) => d.concurrency >= 0.0 && NonNegOpt(d.maxInFlight)
    case QueueTopic(t) => t.partitions >= 0.0 && t.perPartitionThroughput >= 0.0
    case ApiEndpoint(a) => a.targetQps >= 0.0 && NonNegOpt(a.burstFactor)
    case Datastore(d) => d.maxQps >= 0.0
  }

  /** Every rate, weight, partition count and multiplier of the graph is non-negative. */
  predicate NonNegative(g: Graph)
  {
    (forall n :: n in g.nodes ==> NodeNonNegative(n)) &&
    (forall e :: e in g.edges ==> NonNegOpt(e.weight))
  }
}
