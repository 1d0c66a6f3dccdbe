/**
 * The statistics the screener takes from pandas and numpy, over exact reals:
 * sums and means, sample variance and standard deviation (pandas' default,
 * ddof = 1), population variance (`np.var`, ddof = 0) and sample covariance
 * (`np.cov`, ddof = 1). The square root is a parameter; its laws are `IsSqrt`.
 */
module Stats {

  function Sum(xs: seq<real>): real
  {
    if |xs| == 0 then 0.0 else xs[0] + Sum(xs[1..])
  }

  lemma {:induction false} SumAppend(a: seq<real>, b: seq<real>)
    ensures Sum(a + b) == Sum(a) + Sum(b)
  {
    if |a| == 0 {
      assert a + b == b;
    } else {
      assert (a + b)[1..] == a[1..] + b;
      SumAppend(a[1..], b);
    }
  }

  lemma SumOfThree(a: real, b: real, c: real)
    ensures Sum([a, b, c]) == a + b + c
  {
    assert [c][1..] == [];
    assert Sum([c]) == c;
    assert [b, c][1..] == [c];
    assert Sum([b, c]) == b + c;
    assert [a, b, c][1..] == [b, c];
  }

  function Mean(xs: seq<real>): real
    requires |xs| > 0
  {
    Sum(xs) / (|xs| as real)
  }

  /** The mean times the count is the sum. */
  lemma MeanTimesCount(xs: seq<real>)
    requires |xs| > 0
    ensures Mul(|xs| as real, Mean(xs)) == Sum(xs)
  {
    DivThenMul(Sum(xs), |xs| as real);
  }

  /** The smaller of two counts. */
  function MinNat(a: nat, b: nat): (m: nat)
    ensures m <= a && m <= b && (m == a || m == b)
  {
    if a < b then a else b
  }

  /**
   * Real multiplication behind a name. The solver is unreliable on raw
   * nonlinear products (x * x compared with 0, products of quotients), so the
   * facts the proofs need about products and quotients are stated once, in
   * the small lemmas below (MulPositive to ScaledRatio), and used by name.
   */
  function Mul(a: real, b: real): real
  {
    a * b
  }

  lemma MulPositive(a: real, b: real)
    requires a > 0.0 && b > 0.0
    ensures Mul(a, b) > 0.0
  {
  }

  lemma MulNegated(a: real, b: real)
    ensures Mul(-a, -b) == Mul(a, b)
  {
  }

  lemma MulZero(a: real, b: real)
    requires a == 0.0
    ensures Mul(a, b) == 0.0
  {
  }

  lemma MulAssociates(a: real, b: real, c: real)
    ensures Mul(Mul(a, b), c) == Mul(a, Mul(b, c))
  {
  }

  lemma MulDistributes(c: real, a: real, b: real)
    ensures Mul(c, a + b) == Mul(c, a) + Mul(c, b)
  {
  }

  lemma MulMonotone(c: real, a: real, b: real)
    requires c > 0.0
    ensures a <= b <==> Mul(c, a) <= Mul(c, b)
  {
  }

  lemma DivAdd(a: real, b: real, d: real)
    requires d != 0.0
    ensures a / d + b / d == (a + b) / d
  {
  }

  lemma DivThenMul(a: real, b: real)
    requires b != 0.0
    ensures Mul(b, a / b) == a
  {
  }

  /** For p > 0, the ratio a / p minus one has the sign of a - p. */
  lemma RatioMinusOne(a: real, p: real)
    requires p > 0.0
    ensures a / p - 1.0 <= 0.0 <==> a <= p
    ensures a / p - 1.0 >= 0.0 <==> a >= p
  {
  }

  lemma DivMonotone(a: real, b: real, s: real)
    requires s > 0.0 && a <= b
    ensures a / s <= b / s
  {
  }

  /** (m / s) * q == (q * q) * m / (s * q): a ratio scaled by q is the q-squared-scaled ratio over the q-scaled denominator. */
  lemma ScaledRatio(m: real, s: real, q: real)
    requires s != 0.0 && q > 0.0
    ensures m / s * q == Mul(q, q) * m / Mul(s, q)
  {
  }

  function Square(x: real): real
  {
    Mul(x, x)
  }

  /** A square is never negative, and is zero only at zero. */
  lemma SquareFacts(x: real)
    ensures Square(x) >= 0.0
    ensures Square(x) == 0.0 <==> x == 0.0
  {
    if x > 0.0 {
      MulPositive(x, x);
    } else if x < 0.0 {
      MulPositive(-x, -x);
      MulNegated(x, x);
    } else {
      MulZero(x, x);
    }
  }

  /** The sum of squared deviations from m. */
  function SumSqDev(xs: seq<real>, m: real): (r: real)
    ensures r >= 0.0
  {
    if |xs| == 0 then 0.0
    else
      SquareFacts(xs[0] - m);
      Square(xs[0] - m) + SumSqDev(xs[1..], m)
  }

  /** The sum of products of paired deviations from mx and my. */
  function SumCrossDev(xs: seq<real>, ys: seq<real>, mx: real, my: real): real
    requires |xs| == |ys|
  {
    if |xs| == 0 then 0.0 else (xs[0] - mx) * (ys[0] - my) + SumCrossDev(xs[1..], ys[1..], mx, my)
  }

  /** pandas `Series.var()`: sample variance, ddof = 1. */
  function SampleVar(xs: seq<real>): (v: real)
    requires |xs| >= 2
    ensures v >= 0.0
  {
    SumSqDev(xs, Mean(xs)) / ((|xs| - 1) as real)
  }

  /** `np.var`: population variance, ddof = 0. */
  function PopVar(xs: seq<real>): (v: real)
    requires |xs| >= 1
    ensures v >= 0.0
  {
    SumSqDev(xs, Mean(xs)) / (|xs| as real)
  }

  /** `np.cov(xs, ys)[0][1]`: sample covariance, ddof = 1. */
  function SampleCov(xs: seq<real>, ys: seq<real>): real
    requires |xs| == |ys| >= 2
  {
    SumCrossDev(xs, ys, Mean(xs), Mean(ys)) / ((|xs| - 1) as real)
  }

  /** The cross deviations of a series with itself are its squared deviations. */
  lemma {:induction false} SumCrossDevSelf(xs: seq<real>, m: real)
    ensures SumCrossDev(xs, xs, m, m) == SumSqDev(xs, m)
  {
    if |xs| > 0 {
      SumCrossDevSelf(xs[1..], m);
    }
  }

  /** The sample covariance of a series with itself is its sample variance. */
  lemma SampleCovSelf(xs: seq<real>)
    requires |xs| >= 2
    ensures SampleCov(xs, xs) == SampleVar(xs)
  {
    SumCrossDevSelf(xs, Mean(xs));
  }

  /** The laws of the real square root, the only facts the model uses about `np.sqrt`. */
  ghost predicate IsSqrt(sqrt: real -> real)
  {
    forall x :: 0.0 <= x ==> 0.0 <= sqrt(x) && Square(sqrt(x)) == x
  }

  /** pandas `Series.std()`: the square root of the sample variance. */
  function Std(xs: seq<real>, sqrt: real -> real): real
    requires |xs| >= 2
  {
    sqrt(SampleVar(xs))
  }

  /** With a true square root, the standard deviation is non-negative and squares to the sample variance. */
  lemma StdSquared(xs: seq<real>, sqrt: real -> real)
    requires |xs| >= 2 && IsSqrt(sqrt)
    ensures Std(xs, sqrt) >= 0.0 && Square(Std(xs, sqrt)) == SampleVar(xs)
  {
    assert SampleVar(xs) >= 0.0;
  }

  /** The square of a product is the product of the squares. */
  lemma SquareOfProduct(a: real, b: real)
    ensures Square(Mul(a, b)) == Mul(Square(a), Square(b))
  {
  }

  predicate Constant(xs: seq<real>)
  {
    forall i :: 0 <= i < |xs| ==> xs[i] == xs[0]
  }

  lemma {:induction false} SumOfConstant(xs: seq<real>, c: real)
    requires forall i :: 0 <= i < |xs| ==> xs[i] == c
    ensures Sum(xs) == (|xs| as real) * c
  {
    if |xs| > 0 {
      SumOfConstant(xs[1..], c);
    }
  }

  /** The squared deviations from m sum to zero exactly when every value is m. */
  lemma {:induction false} SumSqDevZero(xs: seq<real>, m: real)
    ensures SumSqDev(xs, m) == 0.0 <==> forall i :: 0 <= i < |xs| ==> xs[i] == m
  {
    if |xs| > 0 {
      SumSqDevZero(xs[1..], m);
      if SumSqDev(xs, m) == 0.0 {
        SquareFacts(xs[0] - m);
        forall i | 0 <= i < |xs| ensures xs[i] == m {
          if i > 0 { assert xs[i] == xs[1..][i - 1]; }
        }
      }
      if forall i :: 0 <= i < |xs| ==> xs[i] == m {
        assert forall i :: 0 <= i < |xs[1..]| ==> xs[1..][i] == xs[i + 1];
      }
    }
  }

  /** The mean of a constant series is its value. */
  lemma MeanOfConstant(xs: seq<real>)
    requires |xs| > 0 && Constant(xs)
    ensures Mean(xs) == xs[0]
  {
    SumOfConstant(xs, xs[0]);
  }

  /** The sample variance is zero exactly when the series is constant. */
  lemma SampleVarZeroIff(xs: seq<real>)
    requires |xs| >= 2
    ensures SampleVar(xs) == 0.0 <==> Constant(xs)
  {
    var m := Mean(xs);
    SumSqDevZero(xs, m);
    if Constant(xs) {
      MeanOfConstant(xs);
    }
    if SampleVar(xs) == 0.0 {
      assert SumSqDev(xs, m) == 0.0;
    }
  }

  /** The standard deviation is zero exactly when the series is constant. */
  lemma StdZeroIff(xs: seq<real>, sqrt: real -> real)
    requires |xs| >= 2 && IsSqrt(sqrt)
    ensures Std(xs, sqrt) == 0.0 <==> Constant(xs)
    ensures Std(xs, sqrt) >= 0.0
  {
    var v := SampleVar(xs);
    var s := sqrt(v);
    assert s >= 0.0 && Square(s) == v;
    SquareFacts(s);
    SampleVarZeroIff(xs);
  }

  /** A one-element series has population variance zero, so a non-zero one has two or more elements. */
  lemma PopVarNonZeroLength(xs: seq<real>)
    requires |xs| >= 1
    ensures PopVar(xs) != 0.0 ==> |xs| >= 2
  {
    if |xs| == 1 {
      assert Sum(xs[1..]) == 0.0;
      assert Mean(xs) == xs[0];
      assert SumSqDev(xs[1..], xs[0]) == 0.0;
    }
  }
}
