/** Edge-level flow of `computeScenario`: how a node's egress is spread over
    its outbound edges (src/engine/compute.ts:416-444) and how its inbound
    edges are annotated with delivered and blocked rates once the node is
    evaluated (src/engine/compute.ts:283-299, 400-414). The functions here
    are the specifications the engine's loops are proved against. */
module Flow {
  import opened Util
  import opened Types
  import opened EngineHelpers

  /** An edge warning, carrying the blocked rate the message prints. */
  datatype EdgeWarning = TargetConstrained(blockedRps: real)

  /** Per-edge statistics; `producerLimited` is the `producer-partitions` limiter. */
  datatype EdgeStat = EdgeStat(
    flowRps: real,
    latencyMs: real,
    deliveredRps: real,
    blockedRps: real,
    warnings: seq<EdgeWarning>,
    producerLimited: bool)

  /** `incoming[k] || 0` */
  function Get(m: map<string, real>, k: string): real
  {
    if k in m then m[k] else 0.0
  }

  /** A consistent edge: nothing negative and no more delivered than carried. */
  predicate Sane(es: EdgeStat)
  {
    es.flowRps >= 0.0 && 0.0 <= es.deliveredRps <= es.flowRps && es.blockedRps >= 0.0
  }

  predicate AllSane(stats: map<string, EdgeStat>)
  {
    forall id :: id in stats ==> Sane(stats[id])
  }

  // ------------------------------------------------------------ annotation

  /** Back-annotation of one inbound edge: the target delivers the smaller of
      what it wants and what arrives, scaled by its acceptance ratio; the rest
      is added to the blocked rate, with a warning when it is positive. */
  function AnnotateEdge(es: EdgeStat, desired: real, acceptance: real): (r: EdgeStat)
    ensures r.flowRps == es.flowRps && r.latencyMs == es.latencyMs && r.producerLimited == es.producerLimited
    ensures es.flowRps >= 0.0 && desired >= 0.0 && 0.0 <= acceptance <= 1.0 ==>
      0.0 <= r.deliveredRps <= es.flowRps && r.deliveredRps <= desired &&
      r.blockedRps == es.blockedRps + (es.flowRps - r.deliveredRps)
    ensures acceptance == 1.0 && desired >= es.flowRps ==> r.deliveredRps == es.flowRps
    ensures r.blockedRps >= es.blockedRps
    ensures r.warnings ==
      es.warnings + (if r.blockedRps > es.blockedRps then [TargetConstrained(r.blockedRps - es.blockedRps)] else [])
    ensures Sane(es) && desired >= 0.0 && 0.0 <= acceptance <= 1.0 ==> Sane(r)
  {
    var base := Min(desired, es.flowRps);
    var delivered := Fraction(base, acceptance);
    var blocked := Max(0.0, es.flowRps - delivered);
    EdgeStat(es.flowRps, es.latencyMs, delivered, es.blockedRps + blocked,
             es.warnings + (if blocked > 0.0 then [TargetConstrained(blocked)] else []), es.producerLimited)
  }

  /** What the target wants from its i-th inbound edge: its join consumption
      for a service, the edge's own flow otherwise. */
  function Desired(es: EdgeStat, i: nat, wants: Option<seq<real>>): real
  {
    if wants.Some? && i < |wants.value| then wants.value[i] else es.flowRps
  }

  /** The inbound edges annotated in order; an edge without statistics is
      skipped, though it still takes its position in the consumption list. */
  function AnnotateAll(stats: map<string, EdgeStat>, inEdges: seq<Edge>, wants: Option<seq<real>>,
                       acceptance: real): map<string, EdgeStat>
  {
    if inEdges == [] then stats
    else
      var i := |inEdges| - 1;
      var prev := AnnotateAll(stats, inEdges[..i], wants, acceptance);
      var id := inEdges[i].id;
      if id in prev then prev[id := AnnotateEdge(prev[id], Desired(prev[id], i, wants), acceptance)] else prev
  }

  /** Annotation adds no edge statistics, keeps every flow, touches only the
      inbound edges and never lowers a blocked rate. */
  lemma {:induction false} AnnotateAllFacts(stats: map<string, EdgeStat>, inEdges: seq<Edge>,
                                            wants: Option<seq<real>>, acceptance: real)
    ensures AnnotateAll(stats, inEdges, wants, acceptance).Keys == stats.Keys
    ensures forall id :: id in stats ==> AnnotateAll(stats, inEdges, wants, acceptance)[id].flowRps == stats[id].flowRps
    ensures forall id :: id in stats && (forall e :: e in inEdges ==> e.id != id) ==>
      AnnotateAll(stats, inEdges, wants, acceptance)[id] == stats[id]
    ensures forall id :: id in stats ==>
      AnnotateAll(stats, inEdges, wants, acceptance)[id].blockedRps >= stats[id].blockedRps
  {
    if inEdges != [] {
      var p := inEdges[..|inEdges| - 1];
      AnnotateAllFacts(stats, p, wants, acceptance);
      assert forall e :: e in p ==> e in inEdges;
    }
  }

  /** Annotation keeps consistent statistics consistent when the consumption
      is non-negative and the acceptance ratio lies in [0, 1]. */
  lemma {:induction false} AnnotateAllSane(stats: map<string, EdgeStat>, inEdges: seq<Edge>,
                                           wants: Option<seq<real>>, acceptance: real)
    ensures (AllSane(stats) && 0.0 <= acceptance <= 1.0 &&
      (wants.Some? ==> forall i :: 0 <= i < |wants.value| ==> wants.value[i] >= 0.0)) ==>
      AllSane(AnnotateAll(stats, inEdges, wants, acceptance))
  {
    if inEdges != [] {
      var i := |inEdges| - 1;
      AnnotateAllSane(stats, inEdges[..i], wants, acceptance);
      var prev := AnnotateAll(stats, inEdges[..i], wants, acceptance);
      var id := inEdges[i].id;
      if id in prev && AllSane(stats) && 0.0 <= acceptance <= 1.0 &&
         (wants.Some? ==> forall j :: 0 <= j < |wants.value| ==> wants.value[j] >= 0.0) {
        assert Sane(prev[id]);
        assert Desired(prev[id], i, wants) >= 0.0;
      }
    }
  }

  // ---------------------------------------------------------- distribution

  /** Sum of the edge weights, an absent weight counting as 1. */
  function WeightSum(outs: seq<Edge>): real
  {
    if outs == [] then 0.0 else WeightSum(outs[..|outs| - 1]) + outs[|outs| - 1].weight.GetOr(1.0)
  }

  /** `totalWeight`: the weight sum, or 1 when it is 0. */
  function TotalWeight(outs: seq<Edge>): (t: real)
    ensures t != 0.0
    ensures WeightSum(outs) != 0.0 ==> t == WeightSum(outs)
  {
    if WeightSum(outs) == 0.0 then 1.0 else WeightSum(outs)
  }

  lemma {:induction false} WeightSumNonNegative(outs: seq<Edge>)
    requires forall e :: e in outs ==> NonNegOpt(e.weight)
    ensures WeightSum(outs) >= 0.0
  {
    if outs != [] {
      assert forall e :: e in outs[..|outs| - 1] ==> e in outs;
      WeightSumNonNegative(outs[..|outs| - 1]);
      assert outs[|outs| - 1] in outs;
    }
  }

  /** The rate an edge receives before any producer bound: all of the egress
      under duplicate fan-out, the edge's weighted share otherwise. */
  function Share(egress: real, duplicate: bool, e: Edge, total: real): real
    requires total != 0.0
  {
    if duplicate then egress else egress * (e.weight.GetOr(1.0) / total)
  }

  /** The producer bound of a Kafka edge into a topic: the skew-reduced
      partitions times the per-partition throughput, further bounded by the
      producing service's concurrency times that throughput. Other edges are unbounded. */
  function ProducerBound(nodes: seq<Node>, e: Edge): (b: Option<real>)
    ensures b.Some? <==> e.protocol == Kafka && FindNode(nodes, e.to).Some? && FindNode(nodes, e.to).value.kind.QueueTopic?
  {
    if e.protocol != Kafka then None
    else
      match FindNode(nodes, e.to)
      case Some(target) =>
        if !target.kind.QueueTopic? then None
        else
          var t := target.kind.topic;
          var producerCap := EffectivePartitions(t.partitions, e.keySkew) as real * t.perPartitionThroughput;
          var producerPar :=
            match FindNode(nodes, e.from)
            case Some(source) =>
              if source.kind.Service? then Some(source.kind.svc.concurrency * t.perPartitionThroughput) else None
            case None => None;
          Some(if producerPar.Some? then Min(producerCap, producerPar.value) else producerCap)
      case None => None
  }

  /** The producer bound never exceeds what the usable partitions carry, nor,
      for a producing service, its concurrency times the per-partition
      throughput; it is non-negative when the topic's throughput and the
      producer's concurrency are. */
  lemma ProducerBoundLimits(nodes: seq<Node>, e: Edge)
    ensures var b := ProducerBound(nodes, e);
      b.Some? ==> b.value <= EffectivePartitions(FindNode(nodes, e.to).value.kind.topic.partitions, e.keySkew) as real *
                             FindNode(nodes, e.to).value.kind.topic.perPartitionThroughput
    ensures var b := ProducerBound(nodes, e);
      (b.Some? && FindNode(nodes, e.to).value.kind.topic.perPartitionThroughput >= 0.0 &&
      (FindNode(nodes, e.from).Some? && FindNode(nodes, e.from).value.kind.Service? ==>
        FindNode(nodes, e.from).value.kind.svc.concurrency >= 0.0)) ==> b.value >= 0.0
    ensures var b := ProducerBound(nodes, e);
      b.Some? && FindNode(nodes, e.from).Some? && FindNode(nodes, e.from).value.kind.Service? ==>
        b.value <= FindNode(nodes, e.from).value.kind.svc.concurrency *
                   FindNode(nodes, e.to).value.kind.topic.perPartitionThroughput
  {
    if ProducerBound(nodes, e).Some? {
      ProducerBoundShape(nodes, e);
      var t := FindNode(nodes, e.to).value.kind.topic;
      ProductBounds(EffectivePartitions(t.partitions, e.keySkew) as real, t.perPartitionThroughput);
      var from := FindNode(nodes, e.from);
      if from.Some? && from.value.kind.Service? {
        ProductBounds(from.value.kind.svc.concurrency, t.perPartitionThroughput);
      }
    }
  }

  /** A producer bound is the usable partitions' throughput, lowered to the
      producing service's concurrency times the per-partition throughput
      when the producer is a service. */
  lemma ProducerBoundShape(nodes: seq<Node>, e: Edge)
    requires ProducerBound(nodes, e).Some?
    ensures var t := FindNode(nodes, e.to).value.kind.topic;
      var cap := EffectivePartitions(t.partitions, e.keySkew) as real * t.perPartitionThroughput;
      var from := FindNode(nodes, e.from);
      ProducerBound(nodes, e).value ==
        if from.Some? && from.value.kind.Service? then Min(cap, from.value.kind.svc.concurrency * t.perPartitionThroughput)
        else cap
  {
  }

  /** The rate an outbound edge finally carries: its share of the egress,
      clamped to the producer bound when there is one. */
  function EdgeFlow(nodes: seq<Node>, egress: real, duplicate: bool, e: Edge, total: real): (f: real)
    requires total != 0.0
    ensures f <= Share(egress, duplicate, e, total)
    ensures ProducerBound(nodes, e).None? ==> f == Share(egress, duplicate, e, total)
    ensures ProducerBound(nodes, e).Some? ==> f <= ProducerBound(nodes, e).value
    ensures f == Share(egress, duplicate, e, total) || (ProducerBound(nodes, e).Some? && f == ProducerBound(nodes, e).value)
  {
    if ProducerBound(nodes, e).Some? then Min(Share(egress, duplicate, e, total), ProducerBound(nodes, e).value)
    else Share(egress, duplicate, e, total)
  }

  /** Fresh statistics of an edge just fed: everything it carries is delivered. */
  function FreshStat(flow: real, preClamp: real): (es: EdgeStat)
    ensures es.flowRps == flow && es.deliveredRps == flow && es.blockedRps == 0.0 && es.warnings == []
    ensures es.latencyMs == 0.0
    ensures es.producerLimited <==> flow + Epsilon < preClamp
    ensures flow >= 0.0 ==> Sane(es)
  {
    EdgeStat(flow, 0.0, flow, 0.0, [], flow + Epsilon < preClamp)
  }

  /** The accumulators the distribution updates. */
  datatype Flows = Flows(incoming: map<string, real>, edgeStats: map<string, EdgeStat>)

  /** Distribution of one node's egress over its outbound edges, in order. */
  function DistributeAll(f: Flows, nodes: seq<Node>, outs: seq<Edge>, egress: real, duplicate: bool, total: real): Flows
    requires total != 0.0
  {
    if outs == [] then f
    else
      var e := outs[|outs| - 1];
      Feed(DistributeAll(f, nodes, outs[..|outs| - 1], egress, duplicate, total), e,
           EdgeFlow(nodes, egress, duplicate, e, total), Share(egress, duplicate, e, total))
  }

  /** Feeding one edge: its target's incoming rate grows by the flow, and the
      edge gets fresh statistics. */
  function Feed(f: Flows, e: Edge, flow: real, preClamp: real): Flows
  {
    Flows(f.incoming[e.to := Get(f.incoming, e.to) + flow], f.edgeStats[e.id := FreshStat(flow, preClamp)])
  }

  /** The total flow the given outbound edges carry into `v`. */
  function FlowInto(nodes: seq<Node>, outs: seq<Edge>, v: string, egress: real, duplicate: bool, total: real): real
    requires total != 0.0
  {
    if outs == [] then 0.0
    else
      var e := outs[|outs| - 1];
      FlowInto(nodes, outs[..|outs| - 1], v, egress, duplicate, total) +
        (if e.to == v then EdgeFlow(nodes, egress, duplicate, e, total) else 0.0)
  }

  /** Every node's incoming rate grows by exactly the flow the outbound edges
      carry into it. */
  lemma {:induction false} DistributeIncoming(f: Flows, nodes: seq<Node>, outs: seq<Edge>, egress: real,
                                              duplicate: bool, total: real, v: string)
    requires total != 0.0
    ensures Get(DistributeAll(f, nodes, outs, egress, duplicate, total).incoming, v) ==
      Get(f.incoming, v) + FlowInto(nodes, outs, v, egress, duplicate, total)
  {
    if outs != [] {
      DistributeIncoming(f, nodes, outs[..|outs| - 1], egress, duplicate, total, v);
    }
  }

  /** The distribution feeds exactly the targets of the outbound edges. */
  lemma {:induction false} DistributeTargets(f: Flows, nodes: seq<Node>, outs: seq<Edge>, egress: real,
                                             duplicate: bool, total: real)
    requires total != 0.0
    ensures DistributeAll(f, nodes, outs, egress, duplicate, total).incoming.Keys ==
      f.incoming.Keys + set e | e in outs :: e.to
  {
    if outs != [] {
      var p := outs[..|outs| - 1];
      var e := outs[|outs| - 1];
      DistributeTargets(f, nodes, p, egress, duplicate, total);
      assert outs == p + [e];
      assert (set x | x in outs :: x.to) == (set x | x in p :: x.to) + {e.to};
    }
  }

  /** The distribution records statistics for exactly the outbound edges. */
  lemma {:induction false} DistributeEdgeIds(f: Flows, nodes: seq<Node>, outs: seq<Edge>, egress: real,
                                             duplicate: bool, total: real)
    requires total != 0.0
    ensures DistributeAll(f, nodes, outs, egress, duplicate, total).edgeStats.Keys ==
      f.edgeStats.Keys + set e | e in outs :: e.id
  {
    if outs != [] {
      var p := outs[..|outs| - 1];
      var e := outs[|outs| - 1];
      DistributeEdgeIds(f, nodes, p, egress, duplicate, total);
      assert outs == p + [e];
      assert (set x | x in outs :: x.id) == (set x | x in p :: x.id) + {e.id};
    }
  }

  /** The statistics of an edge that is not among the outbound edges are left as they were. */
  lemma {:induction false} DistributeKeepsOthers(f: Flows, nodes: seq<Node>, outs: seq<Edge>, egress: real,
                                                 duplicate: bool, total: real, id: string)
    requires total != 0.0
    requires id in f.edgeStats && forall e :: e in outs ==> e.id != id
    ensures id in DistributeAll(f, nodes, outs, egress, duplicate, total).edgeStats
    ensures DistributeAll(f, nodes, outs, egress, duplicate, total).edgeStats[id] == f.edgeStats[id]
  {
    if outs != [] {
      var p := outs[..|outs| - 1];
      assert forall x :: x in p ==> x in outs;
      DistributeKeepsOthers(f, nodes, p, egress, duplicate, total, id);
      assert outs[|outs| - 1] in outs;
    }
  }

  /** With non-negative egress, weights and node dials, every edge statistic
      the distribution writes is consistent. */
  lemma {:induction false} DistributeSane(f: Flows, nodes: seq<Node>, outs: seq<Edge>, egress: real,
                                          duplicate: bool, total: real)
    requires forall n :: n in nodes ==> NodeNonNegative(n)
    requires forall e :: e in outs ==> NonNegOpt(e.weight)
    requires egress >= 0.0 && total > 0.0
    ensures AllSane(f.edgeStats) ==> AllSane(DistributeAll(f, nodes, outs, egress, duplicate, total).edgeStats)
  {
    if outs != [] {
      var p := outs[..|outs| - 1];
      var e := outs[|outs| - 1];
      assert forall x :: x in p ==> x in outs;
      DistributeSane(f, nodes, p, egress, duplicate, total);
      EdgeFlowNonNegative(nodes, egress, duplicate, e, total);
    }
  }

  /** With non-negative egress, weights and node dials, the distribution keeps every incoming rate non-negative. */
  lemma {:induction false} DistributeNonNegative(f: Flows, nodes: seq<Node>, outs: seq<Edge>, egress: real,
                                                 duplicate: bool, total: real)
    requires forall n :: n in nodes ==> NodeNonNegative(n)
    requires forall e :: e in outs ==> NonNegOpt(e.weight)
    requires egress >= 0.0 && total > 0.0
    ensures (forall v :: v in f.incoming ==> f.incoming[v] >= 0.0) ==>
      forall v :: v in DistributeAll(f, nodes, outs, egress, duplicate, total).incoming ==>
        DistributeAll(f, nodes, outs, egress, duplicate, total).incoming[v] >= 0.0
  {
    if outs != [] {
      var p := outs[..|outs| - 1];
      assert forall x :: x in p ==> x in outs;
      DistributeNonNegative(f, nodes, p, egress, duplicate, total);
      EdgeFlowNonNegative(nodes, egress, duplicate, outs[|outs| - 1], total);
    }
  }

  lemma ShareNonNegative(egress: real, duplicate: bool, e: Edge, total: real)
    requires total != 0.0
    ensures (NonNegOpt(e.weight) && egress >= 0.0 && total > 0.0) ==> Share(egress, duplicate, e, total) >= 0.0
  {
    var w := e.weight.GetOr(1.0);
    DivNonNegative(w, total);
    ProductBounds(egress, w / total);
  }

  lemma EdgeFlowNonNegative(nodes: seq<Node>, egress: real, duplicate: bool, e: Edge, total: real)
    requires forall n :: n in nodes ==> NodeNonNegative(n)
    requires NonNegOpt(e.weight) && egress >= 0.0 && total > 0.0
    ensures EdgeFlow(nodes, egress, duplicate, e, total) >= 0.0
  {
    ShareNonNegative(egress, duplicate, e, total);
    ProducerBoundLimits(nodes, e);
    var to := FindNode(nodes, e.to);
    if to.Some? {
      assert NodeNonNegative(to.value);
    }
    var from := FindNode(nodes, e.from);
    if from.Some? {
      assert NodeNonNegative(from.value);
    }
  }

  /** The sum of the weighted shares over the given edges. */
  function ShareSum(outs: seq<Edge>, egress: real, total: real): real
    requires total != 0.0
  {
    if outs == [] then 0.0 else ShareSum(outs[..|outs| - 1], egress, total) + Share(egress, false, outs[|outs| - 1], total)
  }

  lemma {:induction false} ShareSumScales(outs: seq<Edge>, egress: real, total: real)
    requires total != 0.0
    ensures ShareSum(outs, egress, total) == egress * (WeightSum(outs) / total)
  {
    if outs != [] {
      var p := outs[..|outs| - 1];
      var w := outs[|outs| - 1].weight.GetOr(1.0);
      ShareSumScales(p, egress, total);
      var a, b := WeightSum(p) / total, w / total;
      calc {
        ShareSum(outs, egress, total);
        ShareSum(p, egress, total) + Share(egress, false, outs[|outs| - 1], total);
        egress * a + egress * b;
        egress * (a + b);
        { assert a + b == (WeightSum(p) + w) / total; }
        egress * ((WeightSum(p) + w) / total);
      }
    }
  }

  /** Split fan-out conserves the egress: when the weights do not sum to
      zero, the shares of the outbound edges add up to the whole egress. */
  lemma SplitConservesEgress(outs: seq<Edge>, egress: real)
    requires WeightSum(outs) != 0.0
    ensures ShareSum(outs, egress, TotalWeight(outs)) == egress
  {
    ShareSumScales(outs, egress, TotalWeight(outs));
    assert WeightSum(outs) / TotalWeight(outs) == 1.0;
  }
}
