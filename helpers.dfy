/** The engine's constants and small helpers (src/engine/compute.ts:12-67):
    effective service time, the cubic queueing penalty, skew-reduced Kafka
    partitions, topic capacity, and the cost-unit accounting of datastore
    ingress. */
module EngineHelpers {
  import opened Util
  import opened Types

  /** The floor every denominator is clamped to. */
  const Epsilon: real := 0.000001

  datatype EngineConfig = EngineConfig(p95Multiplier: real, queueThreshold: real)

  const DefaultConfig := EngineConfig(2.0, 0.7)

  /** Expected per-item time: a blend of the (epsilon-floored) service time and
      the cache-hit time, weighted by the clamped cache-hit rate. */
  function ServiceEffectiveTimeMs(d: ServiceDials): (t: real)
    ensures t >= 0.0
    ensures Min(Max(d.serviceTimeMs, Epsilon), Max(0.0, d.cacheHitMs.GetOr(0.0))) <= t
    ensures t <= Max(Max(d.serviceTimeMs, Epsilon), Max(0.0, d.cacheHitMs.GetOr(0.0)))
    ensures d.cacheHitRate.GetOr(0.0) <= 0.0 ==> t == Max(d.serviceTimeMs, Epsilon)
    ensures d.cacheHitRate.GetOr(0.0) >= 1.0 ==> t == Max(0.0, d.cacheHitMs.GetOr(0.0))
  {
    var base := Max(d.serviceTimeMs, Epsilon);
    var hitRate := Clamp01(d.cacheHitRate.GetOr(0.0));
    var hitMs := Max(0.0, d.cacheHitMs.GetOr(0.0));
    BlendBetween(base, hitMs, hitRate);
    (1.0 - hitRate) * base + hitRate * hitMs
  }

  lemma BlendBetween(a: real, b: real, c: real)
    requires 0.0 <= c <= 1.0
    ensures Min(a, b) <= (1.0 - c) * a + c * b <= Max(a, b)
  {
    var lo, hi, e := Min(a, b), Max(a, b), 1.0 - c;
    MulMono(lo, a, e);
    MulMono(a, hi, e);
    MulMono(lo, b, c);
    MulMono(b, hi, c);
    assert lo * e + lo * c == lo;
    assert hi * e + hi * c == hi;
    assert (1.0 - c) * a + c * b == a * e + b * c;
    assert lo <= a * e + b * c;
    assert a * e + b * c <= hi;
  }

  /** Queueing delay: zero up to the configured threshold, `util³ × baseMs` above it. */
  function QueuePenaltyMs(util: real, baseMs: real, config: EngineConfig): (r: real)
    ensures util <= config.queueThreshold ==> r == 0.0
    ensures util >= 0.0 && baseMs >= 0.0 ==> r >= 0.0
  {
    if util <= config.queueThreshold then 0.0
    else
      CubeNonNegative(util);
      ProductBounds(baseMs, util * util * util);
      util * util * util * baseMs
  }

  lemma CubeNonNegative(x: real)
    ensures x >= 0.0 ==> x * x * x >= 0.0
  {
    if x >= 0.0 {
      MulNonNeg(x, x);
      MulNonNeg(x * x, x);
    }
  }

  lemma SquareMonotone(x: real, y: real)
    requires 0.0 <= x <= y
    ensures x * x <= y * y
  {
    MulMono(x, y, x);
    MulMono(x, y, y);
    assert y * x == x * y;
  }

  lemma CubeMonotoneNonNeg(x: real, y: real)
    requires 0.0 <= x <= y
    ensures x * x * x <= y * y * y
  {
    SquareMonotone(x, y);
    MulMono(x * x, y * y, x);
    MulNonNeg(y, y);
    MulMono(x, y, y * y);
    assert x * (y * y) == y * y * x;
    assert y * (y * y) == y * y * y;
  }

  lemma CubeMonotone(x: real, y: real)
    requires x <= y
    ensures x * x * x <= y * y * y
  {
    if 0.0 <= x {
      CubeMonotoneNonNeg(x, y);
    } else if y <= 0.0 {
      CubeMonotoneNonNeg(-y, -x);
      assert (-y) * (-y) * (-y) == -(y * y * y);
      assert (-x) * (-x) * (-x) == -(x * x * x);
    } else {
      CubeNonNegative(y);
      CubeNonNegative(-x);
    }
  }

  /** Above a non-negative threshold the delay never decreases as utilization grows. */
  lemma QueuePenaltyMonotone(u1: real, u2: real, baseMs: real, config: EngineConfig)
    requires config.queueThreshold >= 0.0 && baseMs >= 0.0
    requires u1 <= u2
    ensures QueuePenaltyMs(u1, baseMs, config) <= QueuePenaltyMs(u2, baseMs, config)
  {
    if u1 > config.queueThreshold {
      CubeMonotone(u1, u2);
      assert u1 * u1 * u1 * baseMs <= u2 * u2 * u2 * baseMs;
    } else if u2 > config.queueThreshold {
      CubeNonNegative(u2);
      assert u2 * u2 * u2 * baseMs >= 0.0;
    }
  }

  /** Usable partitions under hot-key skew: `floor(partitions × (1 − skew²))`,
      never below one, with the skew clamped to [0, 1]. */
  function EffectivePartitions(partitions: real, keySkew: Option<real>): (r: int)
    ensures r >= 1
    ensures keySkew.GetOr(0.0) >= 1.0 ==> r == 1
    ensures keySkew.GetOr(0.0) <= 0.0 && partitions >= 1.0 && partitions == partitions.Floor as real
      ==> r as real == partitions
    ensures partitions >= 1.0 ==> r as real <= partitions
  {
    var f := SkewFactor(keySkew);
    var eff := (partitions * f).Floor;
    ScaledFloor(partitions, f);
    if 1 >= eff then 1 else eff
  }

  /** The share of partitions hot keys leave usable: `1 − skew²`, skew clamped to [0, 1]. */
  function SkewFactor(keySkew: Option<real>): (f: real)
    ensures 0.0 <= f <= 1.0
    ensures keySkew.GetOr(0.0) >= 1.0 ==> f == 0.0
    ensures keySkew.GetOr(0.0) <= 0.0 ==> f == 1.0
  {
    var skew := Clamp01(keySkew.GetOr(0.0));
    MulAtMost(skew, skew);
    1.0 - skew * skew
  }

  lemma ScaledFloor(p: real, f: real)
    requires 0.0 <= f <= 1.0
    ensures p >= 0.0 ==> (p * f).Floor as real <= p
    ensures f == 0.0 ==> (p * f).Floor == 0
    ensures f == 1.0 ==> p * f == p
  {
    if p >= 0.0 {
      MulAtMost(p, f);
    }
  }

  /** More skew never yields more usable partitions. */
  lemma EffectivePartitionsAntitone(partitions: real, s1: real, s2: real)
    requires partitions >= 0.0
    requires s1 <= s2
    ensures EffectivePartitions(partitions, Some(s2)) <= EffectivePartitions(partitions, Some(s1))
  {
    var f1, f2 := SkewFactor(Some(s1)), SkewFactor(Some(s2));
    assert f2 <= f1 by {
      SquareMonotone(Clamp01(s1), Clamp01(s2));
    }
    MulMono(f2, f1, partitions);
    assert partitions * f2 <= partitions * f1 by {
      assert f2 * partitions == partitions * f2 && f1 * partitions == partitions * f1;
    }
    FloorMonotone(partitions * f2, partitions * f1);
  }

  lemma FloorMonotone(x: real, y: real)
    requires x <= y
    ensures x.Floor <= y.Floor
  {
  }

  /** Raw topic throughput: partitions × per-partition throughput. */
  function TopicCapacityRps(t: TopicDials): (r: real)
    ensures t.partitions >= 0.0 && t.perPartitionThroughput >= 0.0 ==> r >= 0.0
    ensures t.perPartitionThroughput >= 0.0 && t.partitions >= 1.0 ==> r >= t.perPartitionThroughput
  {
    ProductBounds(t.partitions, t.perPartitionThroughput);
    t.partitions * t.perPartitionThroughput
  }

  lemma ProductBounds(a: real, b: real)
    ensures a >= 0.0 && b >= 0.0 ==> a * b >= 0.0
    ensures b >= 0.0 && a >= 1.0 ==> a * b >= b
  {
    if a >= 0.0 && b >= 0.0 {
      MulNonNeg(a, b);
    }
    if b >= 0.0 && a >= 1.0 {
      MulMono(1.0, a, b);
    }
  }

  /** One inbound stream of a datastore: its rate and its operation hint. */
  datatype EdgeIngress = EdgeIngress(rps: real, opType: Option<OpType>)

  /** The accumulator an operation hint feeds: `write`, `read`, or everything else. */
  datatype OpClass = ReadClass | WriteClass | OtherClass

  function ClassOf(op: Option<OpType>): OpClass
  {
    match op
    case Some(Write) => WriteClass
    case Some(Read) => ReadClass
    case _ => OtherClass
  }

  /** Total rate of the streams of one class. */
  function OpSum(ins: seq<EdgeIngress>, c: OpClass): real
  {
    if ins == [] then 0.0
    else
      var last := ins[|ins| - 1];
      OpSum(ins[..|ins| - 1], c) + (if ClassOf(last.opType) == c then last.rps else 0.0)
  }

  function TotalRps(ins: seq<EdgeIngress>): real
  {
    if ins == [] then 0.0 else TotalRps(ins[..|ins| - 1]) + ins[|ins| - 1].rps
  }

  /** The write amplification factor, 4 when unset. */
  function WriteAmp(d: DatastoreDials): real
  {
    d.writeAmplification.GetOr(4.0)
  }

  datatype CostedIngress = CostedIngress(readRate: real, writeRate: real, otherRate: real, costUnits: real)

  /** Cost-unit view of datastore ingress: reads and other operations cost one
      unit, writes cost the write amplification factor. */
  function Costed(ins: seq<EdgeIngress>, d: DatastoreDials): CostedIngress
  {
    var r := OpSum(ins, ReadClass);
    var w := OpSum(ins, WriteClass);
    var o := OpSum(ins, OtherClass);
    CostedIngress(r, w, o, r + w * WriteAmp(d) + o)
  }

  /** `datastoreCostedIngress`: one pass over the inbound streams. */
  method DatastoreCostedIngress(ins: seq<EdgeIngress>, d: DatastoreDials) returns (c: CostedIngress)
    ensures c == Costed(ins, d)
  {
    var writeAmp := d.writeAmplification.GetOr(4.0);
    var readSum, writeSum, otherSum := 0.0, 0.0, 0.0;
    var i := 0;
    while i < |ins|
      invariant 0 <= i <= |ins|
      invariant readSum == OpSum(ins[..i], ReadClass)
      invariant writeSum == OpSum(ins[..i], WriteClass)
      invariant otherSum == OpSum(ins[..i], OtherClass)
    {
      assert ins[..i + 1][..i] == ins[..i];
      var r := ins[i].rps;
      match ins[i].opType {
        case Some(Write) => writeSum := writeSum + r;
        case Some(Read) => readSum := readSum + r;
        case _ => otherSum := otherSum + r;
      }
      i := i + 1;
    }
    assert ins[..i] == ins;
    c := CostedIngress(readSum, writeSum, otherSum, readSum + writeSum * writeAmp + otherSum);
  }

  /** Every stream lands in exactly one accumulator. */
  lemma {:induction false} CostedPartition(ins: seq<EdgeIngress>, d: DatastoreDials)
    ensures Costed(ins, d).readRate + Costed(ins, d).writeRate + Costed(ins, d).otherRate == TotalRps(ins)
  {
    if ins != [] {
      CostedPartition(ins[..|ins| - 1], d);
    }
  }

  /** Bulk, stream and unhinted streams all count as `other`. */
  lemma {:induction false} OtherIsNeitherReadNorWrite(ins: seq<EdgeIngress>)
    requires forall i :: 0 <= i < |ins| ==> ins[i].opType !in {Some(Read), Some(Write)}
    ensures OpSum(ins, OtherClass) == TotalRps(ins)
    ensures OpSum(ins, ReadClass) == 0.0 && OpSum(ins, WriteClass) == 0.0
  {
    if ins != [] {
      OtherIsNeitherReadNorWrite(ins[..|ins| - 1]);
    }
  }

  lemma {:induction false} AllWriteSums(ins: seq<EdgeIngress>)
    requires forall i :: 0 <= i < |ins| ==> ins[i].opType == Some(Write)
    ensures OpSum(ins, WriteClass) == TotalRps(ins)
    ensures OpSum(ins, ReadClass) == 0.0 && OpSum(ins, OtherClass) == 0.0
  {
    if ins != [] {
      AllWriteSums(ins[..|ins| - 1]);
    }
  }

  /** An all-write workload costs `writes × writeAmplification`, so halving the
      amplification halves the cost. */
  lemma AllWriteCost(ins: seq<EdgeIngress>, d: DatastoreDials)
    requires forall i :: 0 <= i < |ins| ==> ins[i].opType == Some(Write)
    ensures Costed(ins, d).costUnits == TotalRps(ins) * WriteAmp(d)
    ensures Costed(ins, d.(writeAmplification := Some(WriteAmp(d) / 2.0))).costUnits
      == Costed(ins, d).costUnits / 2.0
  {
    AllWriteSums(ins);
  }
}
