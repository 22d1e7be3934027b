/** Per-node evaluation of `computeScenario` (src/engine/compute.ts:175-397):
    the statistics of a service, a topic, an API endpoint and a datastore,
    given the rates that reach the node. The loops that aggregate over the
    node's neighbours are methods, each proved equal to a recursive
    definition; everything else is arithmetic on those aggregates. */
module Evaluate {
  import opened Util
  import opened Types
  import opened EngineHelpers

  /** The limiter a node reports; the human-readable reason is not modelled. */
  datatype Limiter =
    | NoConstraint
    | ServiceCompute
    | JoinAllLimit
    | JoinKOfNLimit
    | WindowCorrelation
    | ProducerPartitions
    | PartitionsLimit
    | ConsumerParallelism
    | DatastoreCapacity

  /** The utilization warnings of a service, carrying the numbers the message prints. */
  datatype NodeWarning =
    | CapacityExceeded(ingressRps: real, capacity: real)
    | HighUtilization
    | ElevatedUtilization

  datatype NodeStat = NodeStat(
    ingressRps: real,
    egressRps: real,
    utilization: real,
    p50Ms: real,
    p95Ms: real,
    backlogRps: Option<real>,
    consumerLagRps: Option<real>,
    wastedConcurrency: Option<real>,
    warnings: seq<NodeWarning>,
    limiter: Limiter,
    upstreamConstraint: Option<real>)

  /** `x × (m ?? 1)`: scaling by an optional multiplier, absent meaning 1. */
  function Scale(x: real, m: Option<real>): (r: real)
    ensures m.None? ==> r == x
    ensures x >= 0.0 && NonNegOpt(m) ==> r >= 0.0
  {
    ProductBounds(x, m.GetOr(1.0));
    x * m.GetOr(1.0)
  }

  /** `Math.min(x, cap ?? Infinity)`: the smaller of the two, an absent cap bounding nothing. */
  function CapAt(x: real, cap: Option<real>): (r: real)
    ensures r <= x
    ensures cap.Some? ==> r <= cap.value
    ensures r == x || (cap.Some? && r == cap.value)
  {
    if cap.Some? then Min(x, cap.value) else x
  }

  /** Node latency penalties: `p50 × (latencyMultiplier ?? 1) + (latencyMsAdd ?? 0)`. */
  function Latency(p50: real, p: Penalties): real
  {
    p50 * p.latencyMultiplier.GetOr(1.0) + p.latencyMsAdd.GetOr(0.0)
  }

  /** The unserved part of an ingress: reported only when positive, and what
      the capacity serves plus the backlog is the whole ingress. */
  function Backlog(ingress: real, capacity: real): (b: Option<real>)
    ensures b.Some? <==> ingress > capacity
    ensures b.Some? ==> b.value > 0.0 && b.value == ingress - capacity
    ensures Min(ingress, capacity) + b.GetOr(0.0) == ingress
  {
    var backlog := Max(0.0, ingress - capacity);
    if backlog > 0.0 then Some(backlog) else None
  }

  // ---------------------------------------------------------------- services

  /** The topic an edge starts from, when it starts at a topic. */
  function SourceTopic(nodes: seq<Node>, e: Edge): Option<TopicDials>
  {
    match FindNode(nodes, e.from)
    case Some(m) => if m.kind.QueueTopic? then Some(m.kind.topic) else None
    case None => None
  }

  /** The Kafka edges among a node's inbound edges, in order. */
  function KafkaOnly(edges: seq<Edge>): (r: seq<Edge>)
    ensures forall e :: e in r <==> e in edges && e.protocol == Kafka
  {
    if edges == [] then []
    else
      var last := edges[|edges| - 1];
      assert edges == edges[..|edges| - 1] + [last];
      KafkaOnly(edges[..|edges| - 1]) + (if last.protocol == Kafka then [last] else [])
  }

  /** Partitions of the topics a service consumes over Kafka: the sum over its
      Kafka inputs that start at a topic. */
  function AvailablePartitions(nodes: seq<Node>, kin: seq<Edge>): real
  {
    if kin == [] then 0.0
    else
      var last := kin[|kin| - 1];
      var t := SourceTopic(nodes, last);
      AvailablePartitions(nodes, kin[..|kin| - 1]) + (if t.Some? then t.value.partitions else 0.0)
  }

  /** `availablePartitions` (src/engine/compute.ts:179-183). */
  method SumAvailablePartitions(nodes: seq<Node>, kin: seq<Edge>) returns (total: real)
    ensures total == AvailablePartitions(nodes, kin)
  {
    total := 0.0;
    var i := 0;
    while i < |kin|
      invariant 0 <= i <= |kin|
      invariant total == AvailablePartitions(nodes, kin[..i])
    {
      assert kin[..i + 1][..i] == kin[..i];
      var t := SourceTopic(nodes, kin[i]);
      if t.Some? {
        total := total + t.value.partitions;
      }
      i := i + 1;
    }
    assert kin[..i] == kin;
  }

  /** What one topic lets a consumer of the given concurrency read:
      `min(partitions, concurrency) × perPartitionThroughput`. */
  function ConsumerBoundOf(t: TopicDials, concurrency: real): real
  {
    Min(t.partitions, concurrency) * t.perPartitionThroughput
  }

  /** The consumer cap of a service: the smallest bound over the topics it
      consumes over Kafka; `None` stands for the initial `Infinity`. */
  function ConsumerCap(nodes: seq<Node>, concurrency: real, kin: seq<Edge>): Option<real>
  {
    if kin == [] then None
    else
      var rest := ConsumerCap(nodes, concurrency, kin[..|kin| - 1]);
      match SourceTopic(nodes, kin[|kin| - 1])
      case None => rest
      case Some(t) =>
        var b := ConsumerBoundOf(t, concurrency);
        Some(if rest.None? then b else Min(rest.value, b))
  }

  /** `consumerCap` (src/engine/compute.ts:196-206). */
  method MinConsumerCap(nodes: seq<Node>, concurrency: real, kin: seq<Edge>) returns (cap: Option<real>)
    ensures cap == ConsumerCap(nodes, concurrency, kin)
  {
    cap := None;
    var i := 0;
    while i < |kin|
      invariant 0 <= i <= |kin|
      invariant cap == ConsumerCap(nodes, concurrency, kin[..i])
    {
      assert kin[..i + 1][..i] == kin[..i];
      var t := SourceTopic(nodes, kin[i]);
      if t.Some? {
        var b := ConsumerBoundOf(t.value, concurrency);
        cap := Some(if cap.None? then b else Min(cap.value, b));
      }
      i := i + 1;
    }
    assert kin[..i] == kin;
  }

  /** The consumer cap is absent exactly when no Kafka input starts at a topic. */
  lemma {:induction false} ConsumerCapAbsent(nodes: seq<Node>, concurrency: real, kin: seq<Edge>)
    ensures ConsumerCap(nodes, concurrency, kin).None? <==>
      forall k :: 0 <= k < |kin| ==> SourceTopic(nodes, kin[k]).None?
  {
    if kin != [] {
      var p := kin[..|kin| - 1];
      ConsumerCapAbsent(nodes, concurrency, p);
      assert forall k :: 0 <= k < |p| ==> p[k] == kin[k];
    }
  }

  /** The consumer cap is at most the bound of every topic consumed. */
  lemma {:induction false} ConsumerCapBelow(nodes: seq<Node>, concurrency: real, kin: seq<Edge>)
    ensures forall k :: 0 <= k < |kin| && SourceTopic(nodes, kin[k]).Some? ==>
      ConsumerCap(nodes, concurrency, kin).Some? &&
      ConsumerCap(nodes, concurrency, kin).value <= ConsumerBoundOf(SourceTopic(nodes, kin[k]).value, concurrency)
  {
    if kin != [] {
      var p := kin[..|kin| - 1];
      ConsumerCapBelow(nodes, concurrency, p);
      assert forall k :: 0 <= k < |p| ==> p[k] == kin[k];
    }
  }

  /** A present consumer cap is the bound of one of the topics consumed. */
  lemma {:induction false} ConsumerCapAttained(nodes: seq<Node>, concurrency: real, kin: seq<Edge>)
    ensures ConsumerCap(nodes, concurrency, kin).Some? ==>
      exists k :: 0 <= k < |kin| && SourceTopic(nodes, kin[k]).Some? &&
        ConsumerCap(nodes, concurrency, kin).value == ConsumerBoundOf(SourceTopic(nodes, kin[k]).value, concurrency)
  {
    if kin != [] {
      var p := kin[..|kin| - 1];
      var last := |kin| - 1;
      ConsumerCapAttained(nodes, concurrency, p);
      var rest := ConsumerCap(nodes, concurrency, p);
      if rest.Some? {
        var k :| 0 <= k < |p| && SourceTopic(nodes, p[k]).Some? &&
          rest.value == ConsumerBoundOf(SourceTopic(nodes, p[k]).value, concurrency);
        assert kin[k] == p[k];
        if SourceTopic(nodes, kin[last]).Some? {
          var b := ConsumerBoundOf(SourceTopic(nodes, kin[last]).value, concurrency);
          if rest.value <= b {
            assert ConsumerCap(nodes, concurrency, kin).value == rest.value;
          } else {
            assert ConsumerCap(nodes, concurrency, kin).value == b;
          }
        }
      } else if SourceTopic(nodes, kin[last]).Some? {
        assert ConsumerCap(nodes, concurrency, kin).value ==
          ConsumerBoundOf(SourceTopic(nodes, kin[last]).value, concurrency);
      }
    }
  }

  /** With non-negative dials every consumer bound, and so the consumer cap, is non-negative. */
  lemma {:induction false} ConsumerCapNonNegative(nodes: seq<Node>, concurrency: real, kin: seq<Edge>)
    requires forall n :: n in nodes ==> NodeNonNegative(n)
    requires concurrency >= 0.0
    ensures NonNegOpt(ConsumerCap(nodes, concurrency, kin))
  {
    if kin != [] {
      ConsumerCapNonNegative(nodes, concurrency, kin[..|kin| - 1]);
      var t := SourceTopic(nodes, kin[|kin| - 1]);
      if t.Some? {
        assert NodeNonNegative(FindNode(nodes, kin[|kin| - 1].from).value);
        ConsumerBoundNonNegative(t.value, concurrency);
      }
    }
  }

  lemma ConsumerBoundNonNegative(t: TopicDials, concurrency: real)
    ensures (t.partitions >= 0.0 && t.perPartitionThroughput >= 0.0 && concurrency >= 0.0) ==>
      ConsumerBoundOf(t, concurrency) >= 0.0
  {
    ProductBounds(Min(t.partitions, concurrency), t.perPartitionThroughput);
  }

  /** The largest partition count among the topics a service consumes, 0 when none. */
  function MaxPartitions(nodes: seq<Node>, kin: seq<Edge>): real
  {
    if kin == [] then 0.0
    else
      var rest := MaxPartitions(nodes, kin[..|kin| - 1]);
      var t := SourceTopic(nodes, kin[|kin| - 1]);
      if t.Some? then Max(rest, t.value.partitions) else rest
  }

  /** `maxPartitions` (src/engine/compute.ts:223-229). */
  method LargestPartitions(nodes: seq<Node>, kin: seq<Edge>) returns (m: real)
    ensures m == MaxPartitions(nodes, kin)
  {
    m := 0.0;
    var i := 0;
    while i < |kin|
      invariant 0 <= i <= |kin|
      invariant m == MaxPartitions(nodes, kin[..i])
    {
      assert kin[..i + 1][..i] == kin[..i];
      var t := SourceTopic(nodes, kin[i]);
      if t.Some? {
        m := Max(m, t.value.partitions);
      }
      i := i + 1;
    }
    assert kin[..i] == kin;
  }

  /** With non-negative partition counts, the available partitions are at
      least the largest single topic's, and neither is negative. */
  lemma {:induction false} PartitionsBounds(nodes: seq<Node>, kin: seq<Edge>)
    requires forall n :: n in nodes ==> NodeNonNegative(n)
    ensures 0.0 <= MaxPartitions(nodes, kin) <= AvailablePartitions(nodes, kin)
  {
    if kin != [] {
      PartitionsBounds(nodes, kin[..|kin| - 1]);
      var t := SourceTopic(nodes, kin[|kin| - 1]);
      if t.Some? {
        var m := FindNode(nodes, kin[|kin| - 1].from).value;
        assert NodeNonNegative(m);
      }
    }
  }

  /** Workers a service can run: its concurrency, limited by the available
      partitions when it has Kafka inputs. */
  function Workers(d: ServiceDials, kafkaInputs: nat, availablePartitions: real): (w: real)
    ensures kafkaInputs == 0 ==> w == d.concurrency
    ensures w <= d.concurrency
    ensures kafkaInputs > 0 ==> w <= availablePartitions && (w == d.concurrency || w == availablePartitions)
  {
    if kafkaInputs > 0 then Min(d.concurrency, availablePartitions) else d.concurrency
  }

  /** Service capacity (src/engine/compute.ts:185-209): workers × clamped
      parallel efficiency × 1000 / effective time, scaled by the capacity
      multiplier, then bounded by the fixed cap, the in-flight limit and the
      consumer cap, each only when present. */
  function ServiceCapacity(p: Penalties, d: ServiceDials, workers: real, consumerCap: Option<real>): (c: real)
    ensures p.fixedRpsCap.Some? ==> c <= p.fixedRpsCap.value
    ensures d.maxInFlight.Some? ==> c <= d.maxInFlight.value
    ensures consumerCap.Some? ==> c <= consumerCap.value
    ensures (workers >= 0.0 && NonNegOpt(p.capacityMultiplier) && NonNegOpt(p.fixedRpsCap) &&
      NonNegOpt(d.maxInFlight) && NonNegOpt(consumerCap)) ==> c >= 0.0
  {
    var eff := Clamp01(d.parallelEfficiency.GetOr(1.0));
    var perWorker := 1000.0 / Max(ServiceEffectiveTimeMs(d), Epsilon);
    ProductBounds(workers, eff);
    ProductBounds(workers * eff, perWorker);
    var scaled := Scale(workers * eff * perWorker, p.capacityMultiplier);
    CapAt(CapAt(CapAt(scaled, p.fixedRpsCap), d.maxInFlight), consumerCap)
  }

  /** The utilization tier (src/engine/compute.ts:237-240): at most one
      warning, none below 0.7. */
  function UtilizationWarnings(rho: real, ingress: real, capacity: real): (w: seq<NodeWarning>)
    ensures |w| <= 1
    ensures w == [] <==> rho < 0.7
    ensures w == [CapacityExceeded(ingress, capacity)] <==> rho >= 1.0
    ensures w == [HighUtilization] <==> 0.85 <= rho < 1.0
    ensures w == [ElevatedUtilization] <==> 0.7 <= rho < 0.85
  {
    if rho >= 1.0 then [CapacityExceeded(ingress, capacity)]
    else if rho >= 0.85 then [HighUtilization]
    else if rho >= 0.7 then [ElevatedUtilization]
    else []
  }

  /** The limiter a join reports when the capacity does not bind. */
  function JoinLimiter(join: Join, inbound: nat): (l: Limiter)
    ensures l != ServiceCompute
  {
    if inbound == 0 then NoConstraint
    else
      match join
      case JoinAll(_) => JoinAllLimit
      case KOfN(_, _) => JoinKOfNLimit
      case Window(_, _, _) => WindowCorrelation
      case _ => NoConstraint
  }

  /** Concurrency beyond what the largest consumed topic can keep busy. */
  function WastedConcurrency(d: ServiceDials, maxPartitions: real): (r: Option<real>)
    ensures r.Some? <==>
      maxPartitions > 0.0 && d.concurrency > maxPartitions * Clamp01(d.parallelEfficiency.GetOr(1.0))
    ensures r.Some? ==> r.value > 0.0
  {
    if maxPartitions > 0.0 then
      var wasted := d.concurrency - maxPartitions * Clamp01(d.parallelEfficiency.GetOr(1.0));
      if wasted > 0.0 then Some(wasted) else None
    else None
  }

  /** A positive divisor no larger than the dividend gives a quotient of at least 1. */
  lemma DivAtLeastOne(a: real, c: real)
    ensures c > 0.0 && a >= c ==> a / c >= 1.0
  {
    if c > 0.0 {
      var q := a / c;
      assert q * c == a;
      if q < 1.0 {
        MulPos(1.0 - q, c);
      }
    }
  }

  /** The rate a node lets through before its throughput multiplier: the
      ingress, bounded by the capacity and by the fixed cap. */
  function Served(ingress: real, capacity: real, p: Penalties): (r: real)
    ensures r <= ingress && r <= capacity
    ensures p.fixedRpsCap.Some? ==> r <= p.fixedRpsCap.value
    ensures r == ingress || r == capacity || (p.fixedRpsCap.Some? && r == p.fixedRpsCap.value)
    ensures ingress >= 0.0 && capacity >= 0.0 && NonNegOpt(p.fixedRpsCap) ==> r >= 0.0
  {
    CapAt(Min(ingress, capacity), p.fixedRpsCap)
  }

  /** Service statistics (src/engine/compute.ts:211-281). */
  function ServiceStat(p: Penalties, d: ServiceDials, effIngress: real, capacity: real,
                       inbound: nat, maxPartitions: real, config: EngineConfig): (s: NodeStat)
    ensures s.ingressRps == effIngress
    ensures s.utilization == effIngress / Max(capacity, Epsilon)
    ensures s.egressRps == Scale(Served(effIngress, capacity, p), p.throughputMultiplier)
    ensures s.backlogRps == Backlog(effIngress, capacity)
    ensures p.throughputMultiplier.None? && p.fixedRpsCap.None? ==>
      s.egressRps + s.backlogRps.GetOr(0.0) == effIngress
    ensures s.warnings == UtilizationWarnings(s.utilization, effIngress, capacity)
    ensures capacity >= Epsilon && s.backlogRps.Some? ==> s.warnings == [CapacityExceeded(effIngress, capacity)]
    ensures s.limiter == ServiceCompute <==> capacity <= effIngress + Epsilon
    ensures s.limiter != ServiceCompute ==> s.limiter == JoinLimiter(d.join, inbound)
    ensures s.p95Ms == 2.0 * s.p50Ms
    ensures s.consumerLagRps.None? && s.upstreamConstraint.None?
    ensures s.wastedConcurrency == WastedConcurrency(d, maxPartitions)
    ensures (effIngress >= 0.0 && capacity >= 0.0 && NonNegOpt(p.throughputMultiplier) &&
      NonNegOpt(p.fixedRpsCap)) ==> s.egressRps >= 0.0
  {
    var rho := effIngress / Max(capacity, Epsilon);
    var baseMs := ServiceEffectiveTimeMs(d);
    var p50 := Latency(baseMs + QueuePenaltyMs(rho, baseMs, config), p);
    var served := Served(effIngress, capacity, p);
    DivAtLeastOne(effIngress, capacity);
    var lim := if capacity <= effIngress + Epsilon then ServiceCompute else JoinLimiter(d.join, inbound);
    NodeStat(effIngress, Scale(served, p.throughputMultiplier), rho, p50, p50 * DefaultConfig.p95Multiplier,
             Backlog(effIngress, capacity), None, WastedConcurrency(d, maxPartitions),
             UtilizationWarnings(rho, effIngress, capacity), lim, None)
  }

  // ------------------------------------------------------------------ topics

  /** The service an edge leads to, when it leads to a service. */
  function TargetService(nodes: seq<Node>, e: Edge): Option<ServiceDials>
  {
    match FindNode(nodes, e.to)
    case Some(m) => if m.kind.Service? then Some(m.kind.svc) else None
    case None => None
  }

  /** The consumer capacity of a topic: the sum, over its outbound edges into
      services, of what each consuming service can read. */
  function ConsumerCapTotal(nodes: seq<Node>, t: TopicDials, outs: seq<Edge>): real
  {
    if outs == [] then 0.0
    else
      var down := TargetService(nodes, outs[|outs| - 1]);
      ConsumerCapTotal(nodes, t, outs[..|outs| - 1]) +
        (if down.Some? then ConsumerBoundOf(t, down.value.concurrency) else 0.0)
  }

  /** `consumerCapTotal` (src/engine/compute.ts:306-314). */
  method SumConsumerCaps(nodes: seq<Node>, t: TopicDials, outs: seq<Edge>) returns (total: real)
    ensures total == ConsumerCapTotal(nodes, t, outs)
  {
    total := 0.0;
    var i := 0;
    while i < |outs|
      invariant 0 <= i <= |outs|
      invariant total == ConsumerCapTotal(nodes, t, outs[..i])
    {
      assert outs[..i + 1][..i] == outs[..i];
      var down := TargetService(nodes, outs[i]);
      if down.Some? {
        total := total + ConsumerBoundOf(t, down.value.concurrency);
      }
      i := i + 1;
    }
    assert outs[..i] == outs;
  }

  /** With non-negative dials the consumer capacity of a topic is non-negative. */
  lemma {:induction false} ConsumerCapTotalNonNegative(nodes: seq<Node>, t: TopicDials, outs: seq<Edge>)
    requires forall n :: n in nodes ==> NodeNonNegative(n)
    requires t.partitions >= 0.0 && t.perPartitionThroughput >= 0.0
    ensures ConsumerCapTotal(nodes, t, outs) >= 0.0
  {
    if outs != [] {
      ConsumerCapTotalNonNegative(nodes, t, outs[..|outs| - 1]);
      var down := TargetService(nodes, outs[|outs| - 1]);
      if down.Some? {
        assert NodeNonNegative(FindNode(nodes, outs[|outs| - 1].to).value);
        ConsumerBoundNonNegative(t, down.value.concurrency);
      }
    }
  }

  /** `consumerCapTotal || Infinity`: a total of zero bounds nothing. */
  function ConsumerLimit(total: real): (r: Option<real>)
    ensures r.None? <==> total == 0.0
    ensures r.Some? ==> r.value == total
  {
    if total == 0.0 then None else Some(total)
  }

  /** Topic capacity: partitions × per-partition throughput, scaled by the
      capacity multiplier and bounded by the fixed cap. */
  function TopicCapacity(p: Penalties, t: TopicDials): (c: real)
    ensures p.fixedRpsCap.Some? ==> c <= p.fixedRpsCap.value
    ensures (t.partitions >= 0.0 && t.perPartitionThroughput >= 0.0 && NonNegOpt(p.capacityMultiplier) &&
      NonNegOpt(p.fixedRpsCap)) ==> c >= 0.0
  {
    CapAt(Scale(TopicCapacityRps(t), p.capacityMultiplier), p.fixedRpsCap)
  }

  /** The first of producer, partitions and consumer bounds that attains the
      minimum (src/engine/compute.ts:320-330): ties go to the producer, then
      to the partitions. */
  function TopicLimiter(ingress: real, capacity: real, consumer: Option<real>): (l: Limiter)
    ensures l == ProducerPartitions <==> ingress <= capacity && (consumer.None? || ingress <= consumer.value)
    ensures l == PartitionsLimit <==> capacity < ingress && (consumer.None? || capacity <= consumer.value)
    ensures l == ConsumerParallelism <==> consumer.Some? && consumer.value < ingress && consumer.value < capacity
  {
    var m := CapAt(Min(ingress, capacity), consumer);
    if ingress == m then ProducerPartitions
    else if capacity == m then PartitionsLimit
    else ConsumerParallelism
  }

  /** Topic statistics (src/engine/compute.ts:300-347). The upstream
      constraint the source computes is always absent: its condition already
      makes the producer the limiter. */
  function TopicStat(p: Penalties, t: TopicDials, ingress: real, consumerTotal: real): (s: NodeStat)
    ensures s.ingressRps == ingress
    ensures s.egressRps ==
      Scale(CapAt(Served(ingress, TopicCapacity(p, t), p), ConsumerLimit(consumerTotal)), p.throughputMultiplier)
    ensures s.consumerLagRps.Some? <==> ingress > s.egressRps
    ensures s.consumerLagRps.Some? ==> s.consumerLagRps.value == ingress - s.egressRps
    ensures p.throughputMultiplier.None? ==> s.egressRps <= ingress && s.egressRps <= TopicCapacity(p, t)
    ensures p.throughputMultiplier.None? && consumerTotal != 0.0 ==> s.egressRps <= consumerTotal
    ensures s.limiter == TopicLimiter(ingress, TopicCapacity(p, t), ConsumerLimit(consumerTotal))
    ensures s.upstreamConstraint.None?
    ensures s.backlogRps.None? && s.warnings == [] && s.p50Ms == 0.0 && s.p95Ms == 0.0
    ensures (ingress >= 0.0 && consumerTotal >= 0.0 && TopicCapacity(p, t) >= 0.0 &&
      NonNegOpt(p.throughputMultiplier) && NonNegOpt(p.fixedRpsCap)) ==> s.egressRps >= 0.0
  {
    var capacity := TopicCapacity(p, t);
    var consumer := ConsumerLimit(consumerTotal);
    var served := CapAt(Served(ingress, capacity, p), consumer);
    var egress := Scale(served, p.throughputMultiplier);
    var lag := Max(0.0, ingress - egress);
    var limiter := TopicLimiter(ingress, capacity, consumer);
    var upstream :=
      if ingress < capacity - Epsilon && (consumer.None? || ingress < consumer.value - Epsilon) &&
         limiter != ProducerPartitions
      then Some(ingress) else None;
    NodeStat(ingress, egress, ingress / Max(capacity, Epsilon), 0.0, 0.0, None,
             if lag > 0.0 then Some(lag) else None, None, [], limiter, upstream)
  }

  // ---------------------------------------------------------- API endpoints

  /** The rate an entry point injects: `targetQps × (burstFactor ?? 1)`. */
  function EntryRate(a: ApiDials): (r: real)
    ensures a.burstFactor.None? ==> r == a.targetQps
    ensures a.targetQps >= 0.0 && NonNegOpt(a.burstFactor) ==> r >= 0.0
  {
    Scale(a.targetQps, a.burstFactor)
  }

  /** API endpoint statistics (src/engine/compute.ts:348-355): an explicit
      p95 wins over the default multiple of the p50. */
  function ApiStat(p: Penalties, a: ApiDials, ingress: real): (s: NodeStat)
    ensures s.ingressRps == ingress && s.utilization == 0.0
    ensures s.egressRps == Scale(CapAt(ingress, p.fixedRpsCap), p.throughputMultiplier)
    ensures p.throughputMultiplier.None? ==> s.egressRps <= ingress
    ensures s.p50Ms == Latency(a.p50Ms.GetOr(0.0), p)
    ensures s.p95Ms == if a.p95Ms.Some? then a.p95Ms.value else 2.0 * s.p50Ms
    ensures s.backlogRps.None? && s.limiter == NoConstraint && s.warnings == []
    ensures (ingress >= 0.0 && NonNegOpt(p.throughputMultiplier) && NonNegOpt(p.fixedRpsCap)) ==>
      s.egressRps >= 0.0
  {
    var served := CapAt(ingress, p.fixedRpsCap);
    var p50 := Latency(a.p50Ms.GetOr(0.0), p);
    var p95 := if a.p95Ms.Some? then a.p95Ms.value else p50 * DefaultConfig.p95Multiplier;
    NodeStat(ingress, Scale(served, p.throughputMultiplier), 0.0, p50, p95, None, None, None, [], NoConstraint, None)
  }

  // -------------------------------------------------------------- datastores

  /** The connection-pool clamp: pool size × max concurrency when both are
      set, either one alone, each raised to at least 1; absent when neither is set. */
  function PoolClamp(d: DatastoreDials): (r: Option<real>)
    ensures r.None? <==> d.poolSize.None? && d.maxConcurrent.None?
    ensures r.Some? ==> r.value >= 1.0
  {
    match (d.poolSize, d.maxConcurrent)
    case (Some(ps), Some(mc)) =>
      ProductBounds(Max(1.0, mc), Max(1.0, ps));
      Some(Max(1.0, ps) * Max(1.0, mc))
    case (Some(ps), None) => Some(Max(1.0, ps))
    case (None, Some(mc)) => Some(Max(1.0, mc))
    case (None, None) => None
  }

  /** Datastore capacity in cost units per second (src/engine/compute.ts:363-369). */
  function DatastoreCapacityOf(p: Penalties, d: DatastoreDials): (c: real)
    ensures p.fixedRpsCap.Some? ==> c <= p.fixedRpsCap.value
    ensures p.capacityMultiplier.None? ==> c <= d.maxQps
    ensures d.maxQps >= 0.0 && NonNegOpt(p.capacityMultiplier) && NonNegOpt(p.fixedRpsCap) ==> c >= 0.0
  {
    var pooled := CapAt(d.maxQps, PoolClamp(d));
    CapAt(Scale(pooled, p.capacityMultiplier), p.fixedRpsCap)
  }

  /** The share of the ingress a datastore serves: `min(1, capacity / cost)`. */
  function CapacityShare(capacity: real, cost: real): (r: real)
    ensures r <= 1.0
    ensures capacity >= 0.0 ==> r >= 0.0
    ensures cost >= Epsilon && capacity >= cost ==> r == 1.0
  {
    var q := capacity / Max(cost, Epsilon);
    DivAtLeastOne(capacity, Max(cost, Epsilon));
    Min(1.0, q)
  }

  /** The datastore p50 before node penalties: two thirds of its p95,
      inflated by the write share times the lock contention factor when both are positive. */
  function DatastoreBaseP50(d: DatastoreDials, c: CostedIngress): (r: real)
    ensures c.writeRate <= 0.0 || d.lockContentionFactor.GetOr(0.0) <= 0.0 ==> r == d.p95Ms / 1.5
  {
    var lcf := d.lockContentionFactor.GetOr(0.0);
    var p50 := d.p95Ms / 1.5;
    if c.writeRate > 0.0 && lcf > 0.0
    then p50 * (1.0 + (c.writeRate / Max(c.costUnits, Epsilon)) * lcf)
    else p50
  }

  /** Datastore statistics (src/engine/compute.ts:363-397), given the costed
      ingress of its inbound streams. Lock contention only inflates the p50
      when there are writes and a positive contention factor. */
  function DatastoreStat(p: Penalties, d: DatastoreDials, ingress: real, c: CostedIngress): (s: NodeStat)
    ensures s.ingressRps == ingress
    ensures s.utilization == c.costUnits / Max(DatastoreCapacityOf(p, d), Epsilon)
    ensures s.backlogRps == Backlog(c.costUnits, DatastoreCapacityOf(p, d))
    ensures s.limiter == DatastoreCapacity <==> CapacityShare(DatastoreCapacityOf(p, d), c.costUnits) < 1.0
    ensures s.limiter != DatastoreCapacity ==> s.limiter == NoConstraint
    ensures s.egressRps ==
      Scale(CapAt(Fraction(ingress, CapacityShare(DatastoreCapacityOf(p, d), c.costUnits)), p.fixedRpsCap),
            p.throughputMultiplier)
    ensures (p.throughputMultiplier.None? && ingress >= 0.0 && DatastoreCapacityOf(p, d) >= 0.0) ==>
      s.egressRps <= ingress
    ensures c.writeRate <= 0.0 || d.lockContentionFactor.GetOr(0.0) <= 0.0 ==> s.p50Ms == Latency(d.p95Ms / 1.5, p)
    ensures s.p95Ms == 2.0 * s.p50Ms
    ensures s.warnings == [] && s.consumerLagRps.None?
    ensures (ingress >= 0.0 && DatastoreCapacityOf(p, d) >= 0.0 && NonNegOpt(p.throughputMultiplier) &&
      NonNegOpt(p.fixedRpsCap)) ==> s.egressRps >= 0.0
  {
    var capacity := DatastoreCapacityOf(p, d);
    var rho := c.costUnits / Max(capacity, Epsilon);
    var p50 := Latency(DatastoreBaseP50(d, c), p);
    var share := CapacityShare(capacity, c.costUnits);
    var served := CapAt(Fraction(ingress, share), p.fixedRpsCap);
    NodeStat(ingress, Scale(served, p.throughputMultiplier), rho, p50, p50 * DefaultConfig.p95Multiplier,
             Backlog(c.costUnits, capacity), None, None, [],
             if share < 1.0 then DatastoreCapacity else NoConstraint, None)
  }

  /** Acceptance ratio of a node (src/engine/compute.ts:286, 404): the share
      of its ingress that leaves as egress, 1 for an idle node. */
  function Acceptance(s: NodeStat): (a: real)
    ensures s.ingressRps <= 0.0 ==> a == 1.0
    ensures a <= 1.0
    ensures s.egressRps >= 0.0 ==> a >= 0.0
    ensures s.ingressRps >= Epsilon && 0.0 <= s.egressRps <= s.ingressRps ==> a * s.ingressRps == s.egressRps
  {
    if s.ingressRps > 0.0 then Min(1.0, s.egressRps / Max(s.ingressRps, Epsilon)) else 1.0
  }
}
