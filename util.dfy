/** Small value-level helpers shared by the whole model: optional values, real
    min/max/clamp, sums and counts over sequences, and the distinctness facts
    the graph proofs rely on. */
module Util {

  /** An optional value; JavaScript's `undefined` for an optional field. */
  datatype Option<+T> = None | Some(value: T) {
    /** `x ?? d` */
    function GetOr(d: T): T {
      match this
      case Some(v) => v
      case None => d
    }
  }

  function Min(a: real, b: real): (r: real)
    ensures r <= a && r <= b && (r == a || r == b)
  {
    if a <= b then a else b
  }

  function Max(a: real, b: real): (r: real)
    ensures r >= a && r >= b && (r == a || r == b)
  {
    if a >= b then a else b
  }

  /** `Math.max(0, Math.min(x, 1))`, the clamp the engine applies to every ratio. */
  function Clamp01(x: real): (r: real)
    ensures 0.0 <= r <= 1.0
    ensures 0.0 <= x <= 1.0 ==> r == x
    ensures x <= 0.0 ==> r == 0.0
    ensures x >= 1.0 ==> r == 1.0
  {
    Max(0.0, Min(x, 1.0))
  }

  lemma MulNonNeg(a: real, b: real)
    requires a >= 0.0 && b >= 0.0
    ensures a * b >= 0.0
  {
  }

  lemma MulMono(a: real, b: real, c: real)
    requires a <= b && c >= 0.0
    ensures a * c <= b * c
  {
    MulNonNeg(b - a, c);
  }

  lemma DivNonNegative(a: real, b: real)
    ensures a >= 0.0 && b > 0.0 ==> a / b >= 0.0
  {
    if b > 0.0 {
      var q := a / b;
      assert q * b == a;
      if q < 0.0 {
        MulPos(-q, b);
      }
    }
  }

  lemma MulPos(a: real, b: real)
    requires a > 0.0 && b > 0.0
    ensures a * b > 0.0
  {
  }

  /** Scaling a non-negative value by a factor in [0, 1] keeps it in [0, value]. */
  lemma MulAtMost(a: real, c: real)
    requires a >= 0.0 && 0.0 <= c <= 1.0
    ensures 0.0 <= a * c <= a
  {
    MulNonNeg(a, c);
    MulMono(c, 1.0, a);
  }

  /** A rate scaled by a ratio: a ratio of 1 keeps the rate, a ratio in
      [0, 1] keeps a non-negative rate within [0, rate]. */
  function Fraction(rate: real, ratio: real): (r: real)
    ensures ratio == 1.0 ==> r == rate
    ensures rate >= 0.0 && 0.0 <= ratio <= 1.0 ==> 0.0 <= r <= rate
  {
    if rate >= 0.0 && 0.0 <= ratio <= 1.0 then
      MulAtMost(rate, ratio);
      rate * ratio
    else rate * ratio
  }

  /** `list.reduce((a, b) => a + b, 0)` */
  function Sum(s: seq<real>): real
  {
    if s == [] then 0.0 else Sum(s[..|s| - 1]) + s[|s| - 1]
  }

  lemma {:induction false} SumNonNegative(s: seq<real>)
    requires forall i :: 0 <= i < |s| ==> s[i] >= 0.0
    ensures Sum(s) >= 0.0
  {
    if s != [] {
      SumNonNegative(s[..|s| - 1]);
    }
  }

  /** Every element is at most the sum when none is negative. */
  lemma {:induction false} SumBoundsElement(s: seq<real>, i: nat)
    requires forall j :: 0 <= j < |s| ==> s[j] >= 0.0
    requires i < |s|
    ensures s[i] <= Sum(s)
  {
    var p := s[..|s| - 1];
    if i == |s| - 1 {
      SumNonNegative(p);
    } else {
      SumBoundsElement(p, i);
    }
  }

  /** Number of occurrences of `x` in `s`. */
  function Count<T(==)>(s: seq<T>, x: T): nat
  {
    if s == [] then 0 else Count(s[..|s| - 1], x) + (if s[|s| - 1] == x then 1 else 0)
  }

  lemma {:induction false} CountAppend<T>(s: seq<T>, t: seq<T>, x: T)
    ensures Count(s + t, x) == Count(s, x) + Count(t, x)
  {
    if t != [] {
      var t' := t[..|t| - 1];
      assert (s + t)[..|s + t| - 1] == s + t';
      CountAppend(s, t', x);
    } else {
      assert s + t == s;
    }
  }

  lemma {:induction false} CountPrefix<T>(s: seq<T>, j: nat, x: T)
    requires j <= |s|
    ensures Count(s[..j], x) <= Count(s, x)
  {
    assert s == s[..j] + s[j..];
    CountAppend(s[..j], s[j..], x);
  }

  lemma {:induction false} CountPositive<T>(s: seq<T>, x: T)
    ensures Count(s, x) > 0 <==> x in s
  {
    if s != [] {
      CountPositive(s[..|s| - 1], x);
      assert s == s[..|s| - 1] + [s[|s| - 1]];
    }
  }

  predicate Distinct<T(==)>(s: seq<T>)
  {
    forall i, j :: 0 <= i < j < |s| ==> s[i] != s[j]
  }

  function Elems<T>(s: seq<T>): set<T>
  {
    set x | x in s
  }

  /** A sequence without repetitions has as many elements as its set. */
  lemma {:induction false} DistinctCard<T>(s: seq<T>)
    requires Distinct(s)
    ensures |Elems(s)| == |s|
  {
    if s != [] {
      var p := s[..|s| - 1];
      var x := s[|s| - 1];
      assert Distinct(p);
      DistinctCard(p);
      assert x !in Elems(p);
      assert Elems(s) == Elems(p) + {x};
    }
  }

  lemma {:induction false} SubsetCard<T>(a: set<T>, b: set<T>)
    requires a <= b
    ensures |a| <= |b|
    decreases b
  {
    if b != {} {
      var x :| x in b;
      SubsetCard(a - {x}, b - {x});
      assert a == (a - {x}) + (if x in a then {x} else {});
    }
  }

  /** A subset at least as large as its superset is the whole superset. */
  lemma SubsetFull<T>(a: set<T>, b: set<T>)
    requires a <= b
    ensures |a| >= |b| ==> a == b
  {
    if a != b {
      var x :| x in b && x !in a;
      SubsetCard(a, b - {x});
    }
  }

  /** A repetition-free sequence drawn from `S` is no longer than `S`. */
  lemma DistinctBound<T>(s: seq<T>, S: set<T>)
    requires forall x :: x in s ==> x in S
    ensures Distinct(s) ==> |s| <= |S|
  {
    if Distinct(s) {
      DistinctCard(s);
      SubsetCard(Elems(s), S);
    }
  }

  /** Pigeonhole: a sequence longer than the set it is drawn from repeats an element. */
  lemma Pigeonhole<T>(s: seq<T>, S: set<T>) returns (i: nat, j: nat)
    requires forall x :: x in s ==> x in S
    requires |s| > |S|
    ensures i < j < |s| && s[i] == s[j]
  {
    DistinctBound(s, S);
    i, j :| 0 <= i < j < |s| && s[i] == s[j];
  }
}
