/** Exponentially weighted mean and variance: the running recurrences and their batch meaning. */
module Ewma {
  // ---------- Batch definitions ----------

  function Pow(x: real, n: nat): real {
    if n == 0 then 1.0 else x * Pow(x, n - 1)
  }

  /** The weight of sample `i` out of `n`: the first one seeds the average, later ones enter with
      `alpha`, and all fade with every sample that follows. */
  function Weight(alpha: real, n: nat, i: nat): real
    requires i < n
  {
    (if i == 0 then 1.0 else alpha) * Pow(1.0 - alpha, n - 1 - i)
  }

  /** Values times the weights of the first of `n` samples. */
  function Terms(alpha: real, n: nat, ys: seq<real>): (ts: seq<real>)
    requires |ys| <= n
    ensures |ts| == |ys|
  {
    seq(|ys|, i requires 0 <= i < |ys| => Weight(alpha, n, i) * ys[i])
  }

  function Sum(ts: seq<real>): real {
    if ts == [] then 0.0 else Sum(ts[..|ts| - 1]) + ts[|ts| - 1]
  }

  function Weighted(alpha: real, ys: seq<real>): real {
    Sum(Terms(alpha, |ys|, ys))
  }

  function Mean(alpha: real, xs: seq<real>): real {
    Weighted(alpha, xs)
  }

  function Ones(n: nat): (ys: seq<real>)
    ensures |ys| == n && forall i :: 0 <= i < n ==> ys[i] == 1.0
  {
    seq(n, _ => 1.0)
  }

  function Square(x: real, m: real): real {
    (x - m) * (x - m)
  }

  function SquaresFrom(xs: seq<real>, m: real): (ys: seq<real>)
    ensures |ys| == |xs| && forall i :: 0 <= i < |xs| ==> ys[i] == Square(xs[i], m)
  {
    seq(|xs|, i requires 0 <= i < |xs| => Square(xs[i], m))
  }

  /** The weighted average of squared deviations from the weighted mean. */
  function Variance(alpha: real, xs: seq<real>): real {
    Weighted(alpha, SquaresFrom(xs, Mean(alpha, xs)))
  }

  // ---------- One more sample ----------

  lemma WeightFades(alpha: real, n: nat, i: nat)
    requires i < n
    ensures Weight(alpha, n + 1, i) == (1.0 - alpha) * Weight(alpha, n, i)
  {
    var c, w := if i == 0 then 1.0 else alpha, Pow(1.0 - alpha, n - 1 - i);
    assert Pow(1.0 - alpha, n - i) == (1.0 - alpha) * w;
    Reassociate(c, 1.0 - alpha, w);
  }

  lemma Reassociate(c: real, d: real, w: real)
    ensures c * (d * w) == d * (c * w)
  {
  }

  /** Fading every term fades the sum. */
  lemma {:induction false} SumFades(ts: seq<real>, ts': seq<real>, d: real)
    requires |ts'| == |ts| && forall i :: 0 <= i < |ts| ==> ts'[i] == d * ts[i]
    ensures Sum(ts') == d * Sum(ts)
    decreases |ts|
  {
    if ts != [] {
      var i := |ts| - 1;
      SumFades(ts[..i], ts'[..i], d);
      FadeTerm(d, Sum(ts[..i]), Sum(ts'[..i]), ts[i], ts'[i], Sum(ts));
    }
  }

  lemma FadeTerm(d: real, a: real, a': real, t: real, t': real, sum: real)
    requires a' == d * a && t' == d * t && sum == a + t
    ensures a' + t' == d * sum
  {
  }

  lemma TermFades(alpha: real, n: nat, i: nat, y: real)
    requires i < n
    ensures Weight(alpha, n + 1, i) * y == (1.0 - alpha) * (Weight(alpha, n, i) * y)
  {
    WeightFades(alpha, n, i);
    Regroup(1.0 - alpha, Weight(alpha, n, i), y, Weight(alpha, n + 1, i));
  }

  lemma Regroup(d: real, w: real, y: real, w': real)
    requires w' == d * w
    ensures w' * y == d * (w * y)
  {
  }

  lemma TermsFade(alpha: real, ys: seq<real>, y: real, i: nat)
    requires i < |ys|
    ensures Terms(alpha, |ys| + 1, ys + [y])[i] == (1.0 - alpha) * Terms(alpha, |ys|, ys)[i]
  {
    TermFades(alpha, |ys|, i, ys[i]);
    assert (ys + [y])[i] == ys[i];
  }

  lemma LastTerm(alpha: real, ys: seq<real>, y: real)
    requires ys != []
    ensures Terms(alpha, |ys| + 1, ys + [y])[|ys|] == alpha * y
  {
    assert Pow(1.0 - alpha, 0) == 1.0;
    assert Weight(alpha, |ys| + 1, |ys|) == alpha;
  }

  ghost predicate Fades(ts: seq<real>, ts': seq<real>, d: real) {
    |ts| <= |ts'| && forall i :: 0 <= i < |ts| ==> ts'[i] == d * ts[i]
  }

  lemma AllFade(alpha: real, ys: seq<real>, y: real)
    ensures Fades(Terms(alpha, |ys|, ys), Terms(alpha, |ys| + 1, ys + [y]), 1.0 - alpha)
  {
    forall i | 0 <= i < |ys|
      ensures Terms(alpha, |ys| + 1, ys + [y])[i] == (1.0 - alpha) * Terms(alpha, |ys|, ys)[i]
    {
      TermsFade(alpha, ys, y, i);
    }
  }

  /** `r` is `a` faded by `1 - alpha` plus `alpha` of `y`. */
  predicate Blend(r: real, alpha: real, a: real, y: real) {
    r == (1.0 - alpha) * a + alpha * y
  }

  lemma JoinSums(ts: seq<real>, ts': seq<real>, d: real, t: real)
    requires |ts'| == |ts| + 1 && ts'[|ts|] == t && Fades(ts, ts', d)
    ensures Sum(ts') == d * Sum(ts) + t
  {
    SumFades(ts, ts'[..|ts|], d);
  }

  /** A further sample fades all earlier ones by `1 - alpha` and enters with `alpha` itself. */
  lemma NextWeighted(alpha: real, ys: seq<real>, y: real)
    requires ys != []
    ensures Blend(Weighted(alpha, ys + [y]), alpha, Weighted(alpha, ys), y)
  {
    AllFade(alpha, ys, y);
    LastTerm(alpha, ys, y);
    JoinSums(Terms(alpha, |ys|, ys), Terms(alpha, |ys| + 1, ys + [y]), 1.0 - alpha, alpha * y);
  }

  lemma Single(alpha: real, x: real)
    ensures Weighted(alpha, [x]) == x
  {
    assert Pow(1.0 - alpha, 0) == 1.0;
    assert Weight(alpha, 1, 0) == 1.0;
    var ts := Terms(alpha, 1, [x]);
    assert ts[0] == 1.0 * x && ts[..0] == [];
    assert Sum(ts) == Sum(ts[..0]) + ts[0];
  }

  /** The weights add up to one. */
  lemma {:induction false} WeightsSumToOne(alpha: real, n: nat)
    requires n > 0
    ensures Weighted(alpha, Ones(n)) == 1.0
  {
    if n == 1 {
      Single(alpha, 1.0);
      assert Ones(1) == [1.0];
    } else {
      WeightsSumToOne(alpha, n - 1);
      assert Ones(n) == Ones(n - 1) + [1.0];
      NextWeighted(alpha, Ones(n - 1), 1.0);
    }
  }

  predicate Combination(t: real, t2: real, t1: real, t0: real, a: real, b: real) {
    t == t2 - a * t1 + b * t0
  }

  lemma CombinationsAdd(t: real, t2: real, t1: real, t0: real, u: real, u2: real, u1: real, u0: real, a: real, b: real)
    requires Combination(t, t2, t1, t0, a, b) && Combination(u, u2, u1, u0, a, b)
    ensures Combination(t + u, t2 + u2, t1 + u1, t0 + u0, a, b)
  {
  }

  ghost predicate Combinations(ts: seq<real>, t2: seq<real>, t1: seq<real>, t0: seq<real>, a: real, b: real) {
    |ts| == |t2| == |t1| == |t0| && forall i :: 0 <= i < |ts| ==> Combination(ts[i], t2[i], t1[i], t0[i], a, b)
  }

  lemma {:induction false} SumsCombine(ts: seq<real>, t2: seq<real>, t1: seq<real>, t0: seq<real>, a: real, b: real)
    requires Combinations(ts, t2, t1, t0, a, b)
    ensures Combination(Sum(ts), Sum(t2), Sum(t1), Sum(t0), a, b)
    decreases |ts|
  {
    if ts != [] {
      var i := |ts| - 1;
      SumsCombine(ts[..i], t2[..i], t1[..i], t0[..i], a, b);
      CombinationsAdd(Sum(ts[..i]), Sum(t2[..i]), Sum(t1[..i]), Sum(t0[..i]), ts[i], t2[i], t1[i], t0[i], a, b);
    }
  }

  lemma SquareTerm(w: real, x: real, m: real)
    ensures w * Square(x, m) == w * Square(x, 0.0) - 2.0 * m * (w * x) + m * m * (w * 1.0)
  {
    assert Square(x, m) == x * x - 2.0 * m * x + m * m;
    assert w * (x * x - 2.0 * m * x + m * m) == w * (x * x) - 2.0 * m * (w * x) + m * m * w;
  }

  predicate SecondMoment(v: real, q: real, m: real) {
    v == q - m * m
  }

  function MeanSquare(alpha: real, xs: seq<real>): real {
    Weighted(alpha, SquaresFrom(xs, 0.0))
  }

  /** The variance is the weighted mean square less the squared mean. */
  lemma VarianceByMoments(alpha: real, xs: seq<real>, m: real)
    requires xs != [] && m == Mean(alpha, xs)
    ensures SecondMoment(Variance(alpha, xs), MeanSquare(alpha, xs), m)
  {
    var n, a, b := |xs|, 2.0 * m, m * m;
    AllSquareTerms(alpha, xs, m, a, b);
    SumsCombine(Terms(alpha, n, SquaresFrom(xs, m)), Terms(alpha, n, SquaresFrom(xs, 0.0)), Terms(alpha, n, xs), Terms(alpha, n, Ones(n)), a, b);
    WeightsSumToOne(alpha, n);
    Moments(Variance(alpha, xs), MeanSquare(alpha, xs), m, a, b, Weighted(alpha, xs), Weighted(alpha, Ones(n)));
  }

  lemma AllSquareTerms(alpha: real, xs: seq<real>, m: real, a: real, b: real)
    requires a == 2.0 * m && b == m * m
    ensures var n := |xs|;
            Combinations(Terms(alpha, n, SquaresFrom(xs, m)), Terms(alpha, n, SquaresFrom(xs, 0.0)),
                         Terms(alpha, n, xs), Terms(alpha, n, Ones(n)), a, b)
  {
    forall i | 0 <= i < |xs|
      ensures Combination(Terms(alpha, |xs|, SquaresFrom(xs, m))[i], Terms(alpha, |xs|, SquaresFrom(xs, 0.0))[i],
                          Terms(alpha, |xs|, xs)[i], Terms(alpha, |xs|, Ones(|xs|))[i], a, b)
    {
      SquareTerm(Weight(alpha, |xs|, i), xs[i], m);
    }
  }

  lemma Moments(v: real, q: real, m: real, a: real, b: real, s1: real, s0: real)
    requires a == 2.0 * m && b == m * m && Combination(v, q, s1, s0, a, b) && s1 == m && s0 == 1.0
    ensures SecondMoment(v, q, m)
  {
    assert 2.0 * m * m == m * m + m * m;
  }

  function MeanNext(alpha: real, m: real, x: real): real {
    m + alpha * (x - m)
  }

  function VarianceNext(alpha: real, m: real, v: real, x: real): real {
    (1.0 - alpha) * (v + alpha * (x - m) * (x - m))
  }

  /** The recurrences of `Observe` are the batch definitions, one sample further. */
  lemma ObserveIsBatch(alpha: real, xs: seq<real>, x: real, m: real, v: real)
    requires xs != [] && m == Mean(alpha, xs) && v == Variance(alpha, xs)
    ensures Mean(alpha, xs + [x]) == MeanNext(alpha, m, x)
    ensures Variance(alpha, xs + [x]) == VarianceNext(alpha, m, v, x)
  {
    var m', q, q' := Mean(alpha, xs + [x]), MeanSquare(alpha, xs), MeanSquare(alpha, xs + [x]);
    var v' := NextMoments(alpha, xs, x, m, v, m', q, q');
    BatchStep(alpha, q, q', m, m', v, v', x);
  }

  lemma NextMoments(alpha: real, xs: seq<real>, x: real, m: real, v: real, m': real, q: real, q': real) returns (v': real)
    requires xs != [] && m == Mean(alpha, xs) && v == Variance(alpha, xs)
    requires m' == Mean(alpha, xs + [x]) && q == MeanSquare(alpha, xs) && q' == MeanSquare(alpha, xs + [x])
    ensures v' == Variance(alpha, xs + [x])
    ensures Blend(q', alpha, q, Square(x, 0.0)) && Blend(m', alpha, m, x)
    ensures SecondMoment(v, q, m) && SecondMoment(v', q', m')
  {
    v' := Variance(alpha, xs + [x]);
    NextWeighted(alpha, xs, x);
    NextSquares(alpha, xs, x);
    VarianceByMoments(alpha, xs, m);
    VarianceByMoments(alpha, xs + [x], m');
  }

  lemma NextSquares(alpha: real, xs: seq<real>, x: real)
    requires xs != []
    ensures Blend(MeanSquare(alpha, xs + [x]), alpha, MeanSquare(alpha, xs), Square(x, 0.0))
  {
    assert SquaresFrom(xs + [x], 0.0) == SquaresFrom(xs, 0.0) + [Square(x, 0.0)];
    NextWeighted(alpha, SquaresFrom(xs, 0.0), Square(x, 0.0));
  }

  lemma BatchStep(alpha: real, q: real, q': real, m: real, m': real, v: real, v': real, x: real)
    requires Blend(q', alpha, q, Square(x, 0.0)) && Blend(m', alpha, m, x)
    requires SecondMoment(v, q, m) && SecondMoment(v', q', m')
    ensures m' == MeanNext(alpha, m, x)
    ensures v' == VarianceNext(alpha, m, v, x)
  {
    var d := x - m;
    var s, p := d * d, m * d;
    assert m' == m + alpha * d;
    assert m' * m' == m * m + 2.0 * (alpha * p) + alpha * alpha * s by {
      ShiftedSquare(m, alpha, d);
    }
    assert Square(x, 0.0) == m * m + 2.0 * p + s by {
      ShiftedSquare(m, 1.0, d);
      assert x == m + 1.0 * d;
    }
    assert alpha * (x - m) * (x - m) == alpha * s;
    Polynomial(alpha, q, m * m, p, s);
  }

  lemma ShiftedSquare(m: real, a: real, d: real)
    ensures (m + a * d) * (m + a * d) == m * m + 2.0 * (a * (m * d)) + a * a * (d * d)
  {
    assert (m + a * d) * (m + a * d) == m * m + m * (a * d) + (a * d) * m + (a * d) * (a * d);
    assert m * (a * d) == a * (m * d);
    assert (a * d) * (a * d) == a * a * (d * d);
  }

  lemma Polynomial(alpha: real, q: real, mm: real, p: real, s: real)
    ensures (1.0 - alpha) * q + alpha * (mm + 2.0 * p + s) - (mm + 2.0 * (alpha * p) + alpha * alpha * s) ==
            (1.0 - alpha) * (q - mm + alpha * s)
  {
    assert (1.0 - alpha) * q == q - alpha * q;
    assert alpha * (mm + 2.0 * p + s) == alpha * mm + 2.0 * (alpha * p) + alpha * s;
    assert (1.0 - alpha) * (q - mm + alpha * s) == q - mm + alpha * s - alpha * q + alpha * mm - alpha * (alpha * s);
    assert alpha * (alpha * s) == alpha * alpha * s;
  }

  // ---------- Bounds ----------

  predicate Usable(alpha: real) {
    0.0 < alpha <= 1.0
  }

  lemma {:induction false} PowNonNegative(x: real, n: nat)
    requires x >= 0.0
    ensures Pow(x, n) >= 0.0
  {
    if n > 0 {
      PowNonNegative(x, n - 1);
    }
  }

  lemma WeightNonNegative(alpha: real, n: nat, i: nat)
    requires Usable(alpha) && i < n
    ensures Weight(alpha, n, i) >= 0.0
  {
    PowNonNegative(1.0 - alpha, n - 1 - i);
    NonNegative(if i == 0 then 1.0 else alpha, Pow(1.0 - alpha, n - 1 - i));
  }

  lemma {:induction false} SumNonNegative(ts: seq<real>)
    requires forall i :: 0 <= i < |ts| ==> ts[i] >= 0.0
    ensures Sum(ts) >= 0.0
    decreases |ts|
  {
    if ts != [] {
      SumNonNegative(ts[..|ts| - 1]);
    }
  }

  lemma NonNegative(a: real, b: real)
    requires a >= 0.0 && b >= 0.0
    ensures a * b >= 0.0
  {
  }

  lemma SquareNonNegative(x: real, m: real)
    ensures Square(x, m) >= 0.0
  {
  }

  lemma VarianceNonNegative(alpha: real, xs: seq<real>)
    requires Usable(alpha)
    ensures Variance(alpha, xs) >= 0.0
  {
    var ys := SquaresFrom(xs, Mean(alpha, xs));
    forall i | 0 <= i < |xs|
      ensures Terms(alpha, |xs|, ys)[i] >= 0.0
    {
      WeightNonNegative(alpha, |xs|, i);
      SquareNonNegative(xs[i], Mean(alpha, xs));
      NonNegative(Weight(alpha, |xs|, i), ys[i]);
    }
    SumNonNegative(Terms(alpha, |xs|, ys));
  }

  /** The mean lies between any bounds on the samples. */
  lemma {:induction false} MeanWithin(alpha: real, xs: seq<real>, lo: real, hi: real)
    requires Usable(alpha) && xs != [] && forall i :: 0 <= i < |xs| ==> lo <= xs[i] <= hi
    ensures lo <= Mean(alpha, xs) <= hi
    decreases |xs|
  {
    var front, x := xs[..|xs| - 1], xs[|xs| - 1];
    assert xs == front + [x];
    if front == [] {
      Single(alpha, x);
    } else {
      MeanWithin(alpha, front, lo, hi);
      NextWeighted(alpha, front, x);
      Between(Mean(alpha, xs), alpha, Mean(alpha, front), x, lo, hi);
    }
  }

  lemma Between(r: real, alpha: real, m: real, x: real, lo: real, hi: real)
    requires Usable(alpha) && lo <= m <= hi && lo <= x <= hi && Blend(r, alpha, m, x)
    ensures lo <= r <= hi
  {
    NonNegative(1.0 - alpha, m - lo);
    NonNegative(1.0 - alpha, hi - m);
    NonNegative(alpha, x - lo);
    NonNegative(alpha, hi - x);
    assert (1.0 - alpha) * (m - lo) + alpha * (x - lo) == (1.0 - alpha) * m + alpha * x - lo;
    assert (1.0 - alpha) * (hi - m) + alpha * (hi - x) == hi - ((1.0 - alpha) * m + alpha * x);
  }

  // ---------- The running average ----------

  const DEFAULT_ALPHA := 0.2
  const DEFAULT_EPSILON := 0.000000001

  class Ewma {
    const alpha: real
    const epsilon: real
    var mean: real
    var variance: real
    var n: nat
    ghost var samples: seq<real>

    ghost predicate Valid() reads this {
      && Usable(alpha) && epsilon > 0.0
      && n == |samples|
      && (n > 0 ==> mean == Mean(alpha, samples) && variance == Variance(alpha, samples))
    }

    /** `NewEwma`: unusable settings are replaced by the defaults. */
    constructor (alpha: real, epsilon: real)
      ensures Valid() && samples == []
      ensures this.alpha == if Usable(alpha) then alpha else DEFAULT_ALPHA
      ensures this.epsilon == if epsilon > 0.0 then epsilon else DEFAULT_EPSILON
    {
      this.alpha := if alpha <= 0.0 || alpha > 1.0 then DEFAULT_ALPHA else alpha;
      this.epsilon := if epsilon <= 0.0 then DEFAULT_EPSILON else epsilon;
      mean, variance, n, samples := 0.0, 0.0, 0, [];
    }

    /** The two recurrences. */
    method Fold(value: real)
      modifies this`mean, this`variance
      ensures mean == MeanNext(alpha, old(mean), value)
      ensures variance == VarianceNext(alpha, old(mean), old(variance), value)
    {
      var delta := value - mean;
      mean := mean + alpha * delta;
      variance := (1.0 - alpha) * (variance + alpha * delta * delta);
    }

    /** `Observe`: mean and variance are those of all samples so far. */
    method Observe(value: real)
      requires Valid()
      modifies this
      ensures Valid() && samples == old(samples) + [value]
      ensures variance >= 0.0
    {
      if n == 0 {
        mean, variance, n := value, 0.0, 1;
        samples := samples + [value];
        assert samples == [value];
        Single(alpha, value);
        assert SquaresFrom([value], value) == [0.0];
        Single(alpha, 0.0);
        return;
      }
      ObserveIsBatch(alpha, samples, value, mean, variance);
      VarianceNonNegative(alpha, samples + [value]);
      Fold(value);
      n := n + 1;
      samples := samples + [value];
    }
  }
}
