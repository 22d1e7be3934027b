/** Fan-in join semantics of a service (src/engine/compute.ts:125-174): how
    the rates of the inbound streams combine into the rate the service can
    actually process, which streams take part, and how much of each stream
    the join consumes. */
module Join {
  import opened Util
  import opened Types

  /** `effMult`: scale by the efficiency clamped to [0, 1], or by 1 when it is unset. */
  function EffMult(v: real, eff: Option<real>): (r: real)
    ensures eff.None? ==> r == v
    ensures v >= 0.0 ==> 0.0 <= r <= v
  {
    var f := if eff.None? then 1.0 else Clamp01(eff.value);
    if v >= 0.0 then MulAtMost(v, f); v * f else v * f
  }

  /** A stream rate tagged with the stream's position among the inbound edges. */
  datatype Ranked = Ranked(r: real, i: nat)

  /** `rpsList.map((r, i) => ({ r, i }))` */
  function Indexed(rps: seq<real>): (s: seq<Ranked>)
    ensures |s| == |rps|
    ensures forall j :: 0 <= j < |s| ==> s[j] == Ranked(rps[j], j)
  {
    seq(|rps|, j requires 0 <= j < |rps| => Ranked(rps[j], j))
  }

  /** Stable insertion of `x` into a list sorted by descending rate: `x` goes
      after every element whose rate is at least its own. */
  function Insert(x: Ranked, s: seq<Ranked>): (t: seq<Ranked>)
    ensures |t| == |s| + 1
    ensures forall y :: y in t <==> y in s || y == x
  {
    if s == [] then [x]
    else if x.r > s[0].r then [x] + s
    else [s[0]] + Insert(x, s[1..])
  }

  /** `sort((a, b) => b.r - a.r)`: JavaScript's sort is stable, so this is
      insertion of each element, in order, into the already sorted prefix. */
  function SortDesc(s: seq<Ranked>): (t: seq<Ranked>)
    ensures |t| == |s|
    ensures forall y :: y in t <==> y in s
  {
    if s == [] then [] else Insert(s[|s| - 1], SortDesc(s[..|s| - 1]))
  }

  ghost predicate Descending(s: seq<Ranked>)
  {
    forall a, b :: 0 <= a < b < |s| ==> s[a].r >= s[b].r
  }

  /** Among equal rates, the original positions stay in increasing order. */
  ghost predicate Stable(s: seq<Ranked>)
  {
    forall a, b :: 0 <= a < b < |s| && s[a].r == s[b].r ==> s[a].i < s[b].i
  }

  /** Prefixing `h` keeps a list descending, stable and repetition-free when
      `h` relates that way to each element. */
  lemma ConsSorted(h: Ranked, u: seq<Ranked>)
    requires Descending(u) && Stable(u) && Distinct(u)
    requires forall b :: 0 <= b < |u| ==> h.r >= u[b].r && (h.r == u[b].r ==> h.i < u[b].i) && h != u[b]
    ensures Descending([h] + u) && Stable([h] + u) && Distinct([h] + u)
  {
    var t := [h] + u;
    forall a, b | 0 <= a < b < |t|
      ensures t[a].r >= t[b].r && (t[a].r == t[b].r ==> t[a].i < t[b].i) && t[a] != t[b]
    {
      assert t[b] == u[b - 1];
      if a > 0 {
        assert t[a] == u[a - 1];
      }
    }
  }

  lemma {:induction false} InsertSorted(x: Ranked, s: seq<Ranked>)
    requires Descending(s) && Stable(s) && Distinct(s)
    requires forall y :: y in s ==> y.i < x.i && y != x
    ensures Descending(Insert(x, s)) && Stable(Insert(x, s)) && Distinct(Insert(x, s))
  {
    if s == [] {
    } else if x.r > s[0].r {
      forall b | 0 <= b < |s|
        ensures x.r >= s[b].r && (x.r == s[b].r ==> x.i < s[b].i) && x != s[b]
      {
        assert s[b] in s;
      }
      ConsSorted(x, s);
    } else {
      var t := s[1..];
      assert Descending(t) && Stable(t) && Distinct(t);
      assert forall y :: y in t ==> y in s;
      InsertSorted(x, t);
      HeadLeads(x, s, Insert(x, t));
      ConsSorted(s[0], Insert(x, t));
    }
  }

  /** The head of a sorted list leads every other element and any `x` that
      does not beat its rate and comes later in inbound-edge order. */
  lemma HeadLeads(x: Ranked, s: seq<Ranked>, u: seq<Ranked>)
    requires s != [] && Descending(s) && Stable(s) && Distinct(s)
    requires x.r <= s[0].r && s[0].i < x.i
    requires forall y :: y in u <==> y in s[1..] || y == x
    ensures forall b :: 0 <= b < |u| ==>
      s[0].r >= u[b].r && (s[0].r == u[b].r ==> s[0].i < u[b].i) && s[0] != u[b]
  {
    forall b | 0 <= b < |u|
      ensures s[0].r >= u[b].r && (s[0].r == u[b].r ==> s[0].i < u[b].i) && s[0] != u[b]
    {
      assert u[b] in u;
      if u[b] != x {
        var m :| 0 <= m < |s[1..]| && s[1..][m] == u[b];
        assert s[m + 1] == u[b];
      }
    }
  }

  lemma {:induction false} SortDescSorted(s: seq<Ranked>)
    requires forall a, b :: 0 <= a < b < |s| ==> s[a].i < s[b].i
    ensures Descending(SortDesc(s)) && Stable(SortDesc(s)) && Distinct(SortDesc(s))
  {
    if s != [] {
      var p := s[..|s| - 1];
      var x := s[|s| - 1];
      SortDescSorted(p);
      forall y | y in SortDesc(p)
        ensures y.i < x.i && y != x
      {
        var m :| 0 <= m < |p| && p[m] == y;
      }
      InsertSorted(x, SortDesc(p));
    }
  }

  /** The streams ranked by descending rate, ties in inbound-edge order. */
  function Ranking(rps: seq<real>): seq<Ranked>
  {
    SortDesc(Indexed(rps))
  }

  /** The ranking is a permutation of the streams, sorted by descending rate. */
  lemma RankingFacts(rps: seq<real>)
    ensures |Ranking(rps)| == |rps|
    ensures Descending(Ranking(rps)) && Stable(Ranking(rps)) && Distinct(Ranking(rps))
    ensures forall y :: y in Ranking(rps) <==> y.i < |rps| && y.r == rps[y.i]
  {
    SortDescSorted(Indexed(rps));
    forall y | y in Ranking(rps)
      ensures y.i < |rps| && y.r == rps[y.i]
    {
      var m :| 0 <= m < |rps| && Indexed(rps)[m] == y;
    }
    forall y: Ranked | y.i < |rps| && y.r == rps[y.i]
      ensures y in Ranking(rps)
    {
      assert Indexed(rps)[y.i] == y;
    }
  }

  /** `Math.max(1, Math.min(requiredStreams, Math.max(1, N)))` */
  function ClampK(required: int, n: nat): (k: int)
    ensures 1 <= k
    ensures n >= 1 ==> k <= n
    ensures n >= 1 && 1 <= required <= n ==> k == required
  {
    var upper := if n >= 1 then n else 1;
    var m := if required <= upper then required else upper;
    if m >= 1 then m else 1
  }

  /** `Math.min(...rpsList)` */
  function MinOf(s: seq<real>): (m: real)
    requires s != []
    ensures forall i :: 0 <= i < |s| ==> m <= s[i]
    ensures exists i :: 0 <= i < |s| && m == s[i]
  {
    if |s| == 1 then s[0]
    else
      var p := MinOf(s[..|s| - 1]);
      assert forall i :: 0 <= i < |s| - 1 ==> s[..|s| - 1][i] == s[i];
      if p <= s[|s| - 1] then p else s[|s| - 1]
  }

  /** What a join produces: the processed rate, the rate consumed from each
      inbound stream, and the positions of the streams that take part. */
  datatype JoinOutcome = JoinOutcome(joinIngressRps: real, consumption: seq<real>, active: seq<nat>)

  /** Positions of the `k` highest-rate streams, highest first. */
  function TopK(rps: seq<real>, k: int): (act: seq<nat>)
    requires 1 <= k <= |rps|
    ensures |act| == k
    ensures forall j :: 0 <= j < k ==> act[j] < |rps|
  {
    var sorted := Ranking(rps);
    RankingFacts(rps);
    assert forall j :: 0 <= j < k ==> sorted[j] in sorted;
    seq(k, j requires 0 <= j < k => sorted[j].i)
  }

  /** The rate of the k-th highest stream, `sorted[k - 1].r`. */
  function KthRate(rps: seq<real>, k: int): real
    requires 1 <= k <= |rps|
  {
    RankingFacts(rps);
    Ranking(rps)[k - 1].r
  }

  /** The bound a k-of-N join sets: `min(kth, sumAll / k)`. It never exceeds
      the k-th highest rate, and `k` streams at this rate never take more than
      all the streams carry. */
  function KOfNBound(rps: seq<real>, k: int): (b: real)
    requires 1 <= k <= |rps|
    ensures b <= KthRate(rps, k)
    ensures b * (k as real) <= Sum(rps)
  {
    var kth, total, kr := KthRate(rps, k), Sum(rps), k as real;
    MinMeanBound(kth, total, kr);
    Min(kth, total / kr)
  }

  /** Consumption under a k-of-N or window join: the join rate from each
      stream that takes part, nothing from the others. */
  function SelectiveConsumption(n: nat, act: seq<nat>, rate: real): (c: seq<real>)
    ensures |c| == n
    ensures rate >= 0.0 ==> forall i :: 0 <= i < n ==> c[i] >= 0.0
  {
    seq(n, i requires 0 <= i < n => if i in act then rate else 0.0)
  }

  /** The outcome of a k-of-N or window join at the given rate: the `k`
      highest-rate streams take part, each consumed from at the join rate. */
  function SelectiveOutcome(rps: seq<real>, k: int, rate: real): (o: JoinOutcome)
    requires 1 <= k <= |rps|
    ensures o.joinIngressRps == rate && o.active == TopK(rps, k)
    ensures |o.consumption| == |rps|
    ensures forall i :: 0 <= i < |rps| ==> (o.consumption[i] != 0.0 ==> i in o.active)
    ensures forall i :: 0 <= i < |rps| && i in o.active ==> o.consumption[i] == rate
    ensures rate >= 0.0 ==> forall i :: 0 <= i < |rps| ==> o.consumption[i] >= 0.0
  {
    var act := TopK(rps, k);
    JoinOutcome(rate, SelectiveConsumption(|rps|, act, rate), act)
  }

  /** Join evaluation (src/engine/compute.ts:131-174). `ingress` is the node's
      accumulated ingress, which a join of any other tag passes through. */
  function EvaluateJoin(join: Join, ingress: real, rps: seq<real>): (o: JoinOutcome)
    ensures |o.consumption| == |rps|
    ensures join.JoinNone? || rps == [] ==> o.joinIngressRps == Sum(rps) && o.consumption == rps
    ensures join.JoinOther? && rps != [] ==>
      o.joinIngressRps == ingress && o.active == [] && forall i :: 0 <= i < |rps| ==> o.consumption[i] == 0.0
    ensures (forall i :: 0 <= i < |rps| ==> rps[i] >= 0.0) && ingress >= 0.0 ==>
      o.joinIngressRps >= 0.0 && forall i :: 0 <= i < |rps| ==> o.consumption[i] >= 0.0
  {
    var n := |rps|;
    var all := seq(n, i requires 0 <= i < n => i);
    if join.JoinNone? || n == 0 then
      SumNonNegativeIf(rps);
      JoinOutcome(Sum(rps), rps, all)
    else
      match join
      case JoinAll(eff) =>
        var rate := EffMult(MinOf(rps), eff);
        JoinOutcome(rate, Uniform(n, rate), all)
      case KOfN(required, eff) =>
        var k := ClampK(required, n);
        SelectiveOutcome(rps, k, KOfNRate(rps, k, eff))
      case Window(required, matchRate, eff) =>
        var k := ClampK(required, n);
        SelectiveOutcome(rps, k, WindowRate(rps, k, matchRate, eff))
      case JoinOther =>
        JoinOutcome(ingress, Uniform(n, 0.0), [])
  }

  /** The join rate of a k-of-N join: the k-of-N bound scaled by the efficiency. */
  function KOfNRate(rps: seq<real>, k: int, eff: Option<real>): (r: real)
    requires 1 <= k <= |rps|
    ensures (forall i :: 0 <= i < |rps| ==> rps[i] >= 0.0) ==> 0.0 <= r <= KOfNBound(rps, k)
  {
    KOfNBoundNonNegative(rps, k);
    EffMult(KOfNBound(rps, k), eff)
  }

  /** The join rate of a window join: the k-of-N bound scaled by the clamped
      match rate and by the efficiency. */
  function WindowRate(rps: seq<real>, k: int, matchRate: real, eff: Option<real>): (r: real)
    requires 1 <= k <= |rps|
    ensures (forall i :: 0 <= i < |rps| ==> rps[i] >= 0.0) ==> r >= 0.0
  {
    var bound := KOfNBound(rps, k);
    KOfNBoundNonNegative(rps, k);
    MulAtMostIf(bound, Clamp01(matchRate));
    EffMult(bound * Clamp01(matchRate), eff)
  }

  /** `n` copies of `rate`. */
  function Uniform(n: nat, rate: real): (c: seq<real>)
    ensures |c| == n && forall i :: 0 <= i < n ==> c[i] == rate
  {
    seq(n, _ => rate)
  }

  lemma SumNonNegativeIf(s: seq<real>)
    ensures (forall i :: 0 <= i < |s| ==> s[i] >= 0.0) ==> Sum(s) >= 0.0
  {
    if forall i :: 0 <= i < |s| ==> s[i] >= 0.0 {
      SumNonNegative(s);
    }
  }

  lemma MulAtMostIf(a: real, c: real)
    requires 0.0 <= c <= 1.0
    ensures a >= 0.0 ==> 0.0 <= a * c <= a
  {
    if a >= 0.0 {
      MulAtMost(a, c);
    }
  }

  lemma KOfNBoundNonNegative(rps: seq<real>, k: int)
    requires 1 <= k <= |rps|
    ensures (forall i :: 0 <= i < |rps| ==> rps[i] >= 0.0) ==> KOfNBound(rps, k) >= 0.0
  {
    if forall i :: 0 <= i < |rps| ==> rps[i] >= 0.0 {
      RankingFacts(rps);
      SumNonNegative(rps);
      var y := Ranking(rps)[k - 1];
      assert y in Ranking(rps);
      assert KthRate(rps, k) >= 0.0;
      DivNonNegative(Sum(rps), k as real);
    }
  }

  /** The active streams of a k-of-N join are `k` distinct streams, the
      highest-rate ones: no stream left out has a higher rate than one taken,
      and the k-th rate is the lowest rate taken. */
  lemma TopKIsTop(rps: seq<real>, k: int)
    requires 1 <= k <= |rps|
    ensures Distinct(TopK(rps, k))
    ensures forall j :: 0 <= j < k ==> TopK(rps, k)[j] < |rps|
    ensures forall j, b :: 0 <= j < k && 0 <= b < |rps| ==>
      (b !in TopK(rps, k) ==> rps[TopK(rps, k)[j]] >= rps[b])
    ensures forall j :: 0 <= j < k ==> rps[TopK(rps, k)[j]] >= KthRate(rps, k)
    ensures KthRate(rps, k) == rps[TopK(rps, k)[k - 1]]
  {
    TopKDistinct(rps, k);
    TopKDominates(rps, k);
    TopKKth(rps, k);
  }

  lemma TopKEntries(rps: seq<real>, k: int)
    requires 1 <= k <= |rps|
    ensures forall j :: 0 <= j < k ==>
      TopK(rps, k)[j] == Ranking(rps)[j].i && TopK(rps, k)[j] < |rps| &&
      rps[TopK(rps, k)[j]] == Ranking(rps)[j].r
  {
    RankingFacts(rps);
    forall j | 0 <= j < k
      ensures TopK(rps, k)[j] < |rps| && rps[TopK(rps, k)[j]] == Ranking(rps)[j].r
    {
      assert Ranking(rps)[j] in Ranking(rps);
    }
  }

  lemma TopKDistinct(rps: seq<real>, k: int)
    requires 1 <= k <= |rps|
    ensures Distinct(TopK(rps, k))
  {
    RankingFacts(rps);
    TopKEntries(rps, k);
    var sorted := Ranking(rps);
    var act := TopK(rps, k);
    forall a, b | 0 <= a < b < k
      ensures act[a] != act[b]
    {
      assert sorted[a] != sorted[b];
    }
  }

  lemma TopKDominates(rps: seq<real>, k: int)
    requires 1 <= k <= |rps|
    ensures forall j, b :: 0 <= j < k && 0 <= b < |rps| ==>
      (b !in TopK(rps, k) ==> rps[TopK(rps, k)[j]] >= rps[b])
  {
    RankingFacts(rps);
    TopKEntries(rps, k);
    var sorted := Ranking(rps);
    var act := TopK(rps, k);
    forall j, b | 0 <= j < k && 0 <= b < |rps|
      ensures b !in act ==> rps[act[j]] >= rps[b]
    {
      var y := Ranked(rps[b], b);
      assert y in sorted;
      var m :| 0 <= m < |sorted| && sorted[m] == y;
      if m < k {
        assert act[m] == b;
      } else {
        assert sorted[j].r >= sorted[m].r;
      }
    }
  }

  lemma TopKKth(rps: seq<real>, k: int)
    requires 1 <= k <= |rps|
    ensures forall j :: 0 <= j < k ==> rps[TopK(rps, k)[j]] >= KthRate(rps, k)
    ensures KthRate(rps, k) == rps[TopK(rps, k)[k - 1]]
  {
    RankingFacts(rps);
    TopKEntries(rps, k);
    var sorted := Ranking(rps);
    forall j | 0 <= j < k - 1
      ensures sorted[j].r >= sorted[k - 1].r
    {
    }
  }

  /** An all-streams join processes the slowest stream's rate, scaled by the
      efficiency, and consumes that much from every stream. */
  lemma JoinAllIsMin(eff: Option<real>, ingress: real, rps: seq<real>)
    requires rps != []
    ensures var o := EvaluateJoin(JoinAll(eff), ingress, rps);
      (exists m :: (forall i :: 0 <= i < |rps| ==> m <= rps[i]) &&
                   (exists i :: 0 <= i < |rps| && m == rps[i]) &&
                   o.joinIngressRps == EffMult(m, eff)) &&
      (forall i :: 0 <= i < |rps| ==> o.consumption[i] == o.joinIngressRps) &&
      |o.active| == |rps|
  {
    var m := MinOf(rps);
    assert EvaluateJoin(JoinAll(eff), ingress, rps).joinIngressRps == EffMult(m, eff);
  }

  /** The k-of-N join: `k` is the required count clamped to [1, N]; the rate
      is the k-of-N bound scaled by the efficiency; only the `k`
      highest-rate streams take part, each consumed from at the join rate. */
  lemma KOfNJoin(required: int, eff: Option<real>, ingress: real, rps: seq<real>)
    requires rps != []
    ensures var o := EvaluateJoin(KOfN(required, eff), ingress, rps);
      var k := ClampK(required, |rps|);
      1 <= k <= |rps| &&
      (1 <= required <= |rps| ==> k == required) &&
      o.active == TopK(rps, k) &&
      o.joinIngressRps == EffMult(KOfNBound(rps, k), eff) &&
      (forall i :: 0 <= i < |rps| ==> (o.consumption[i] != 0.0 ==> i in o.active)) &&
      (forall i :: 0 <= i < |rps| && i in o.active ==> o.consumption[i] == o.joinIngressRps)
  {
    var k := ClampK(required, |rps|);
    assert EvaluateJoin(KOfN(required, eff), ingress, rps) == SelectiveOutcome(rps, k, KOfNRate(rps, k, eff));
  }

  /** The window join: as the k-of-N join, with the bound also scaled by the
      match rate clamped to [0, 1]. */
  lemma WindowJoin(required: int, matchRate: real, eff: Option<real>, ingress: real, rps: seq<real>)
    requires rps != []
    ensures var o := EvaluateJoin(Window(required, matchRate, eff), ingress, rps);
      var k := ClampK(required, |rps|);
      1 <= k <= |rps| &&
      (1 <= required <= |rps| ==> k == required) &&
      o.active == TopK(rps, k) &&
      o.joinIngressRps == EffMult(KOfNBound(rps, k) * Clamp01(matchRate), eff) &&
      (forall i :: 0 <= i < |rps| ==> (o.consumption[i] != 0.0 ==> i in o.active)) &&
      (forall i :: 0 <= i < |rps| && i in o.active ==> o.consumption[i] == o.joinIngressRps)
  {
    WindowShape(required, matchRate, eff, ingress, rps);
    WindowRateIs(rps, ClampK(required, |rps|), matchRate, eff);
  }

  /** A window join is the selective outcome at the window rate. */
  lemma WindowShape(required: int, matchRate: real, eff: Option<real>, ingress: real, rps: seq<real>)
    requires rps != []
    ensures var k := ClampK(required, |rps|);
      EvaluateJoin(Window(required, matchRate, eff), ingress, rps) == SelectiveOutcome(rps, k, WindowRate(rps, k, matchRate, eff))
  {
  }

  lemma WindowRateIs(rps: seq<real>, k: int, matchRate: real, eff: Option<real>)
    requires 1 <= k <= |rps|
    ensures WindowRate(rps, k, matchRate, eff) == EffMult(KOfNBound(rps, k) * Clamp01(matchRate), eff)
  {
  }

  /** Equal streams sum to their count times the common rate. */
  lemma {:induction false} SumUniform(s: seq<real>, r: real)
    requires forall i :: 0 <= i < |s| ==> s[i] == r
    ensures Sum(s) == |s| as real * r
  {
    if s != [] {
      SumUniform(s[..|s| - 1], r);
    }
  }

  /** Among equal streams every rank carries the common rate. */
  lemma EqualStreamsKth(r: real, rps: seq<real>, k: int)
    requires 1 <= k <= |rps| && forall i :: 0 <= i < |rps| ==> rps[i] == r
    ensures KthRate(rps, k) == r
  {
    RankingFacts(rps);
    assert Ranking(rps)[k - 1] in Ranking(rps);
  }

  /** With `N` equal streams the k-of-N bound for k = N is the common rate. */
  lemma EqualStreamsBound(r: real, rps: seq<real>)
    requires rps != [] && forall i :: 0 <= i < |rps| ==> rps[i] == r
    ensures KOfNBound(rps, |rps|) == r
  {
    var nr := |rps| as real;
    EqualStreamsKth(r, rps, |rps|);
    SumUniform(rps, r);
    assert Sum(rps) / nr == r by {
      assert r * nr == Sum(rps) && nr > 0.0;
    }
  }

  /** A k-of-N join that needs every one of `N` equal streams processes what
      an all-streams join does: the common rate, scaled by the efficiency. */
  lemma QuorumOfEqualStreams(r: real, rps: seq<real>, eff: Option<real>, ingress: real)
    requires rps != [] && forall i :: 0 <= i < |rps| ==> rps[i] == r
    ensures EvaluateJoin(KOfN(|rps|, eff), ingress, rps).joinIngressRps == EffMult(r, eff)
    ensures EvaluateJoin(JoinAll(eff), ingress, rps).joinIngressRps == EffMult(r, eff)
  {
    var n := |rps|;
    EqualStreamsBound(r, rps);
    assert ClampK(n, n) == n;
    assert EvaluateJoin(KOfN(n, eff), ingress, rps).joinIngressRps == KOfNRate(rps, n, eff);
    assert MinOf(rps) == r;
  }

  lemma MinMeanBound(a: real, total: real, k: real)
    requires k > 0.0
    ensures Min(a, total / k) * k <= total
  {
    var q := total / k;
    assert q * k == total;
    MulMono(Min(a, q), q, k);
  }
}
