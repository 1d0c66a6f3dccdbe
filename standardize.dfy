/**
 * Cross-sectional standardisation, `(x - x.mean()) / x.std()` on one column:
 * mean and standard deviation are taken over the present cells, a missing
 * cell stays missing and, when fewer than two cells are present or the
 * standard deviation is zero, every cell of the result is missing.
 */
module Standardize {
  import opened Wrappers
  import opened Stats
  import opened Missing

  /** The column has at least two present values and they are not all equal. */
  predicate Standardizable(col: seq<Option<real>>, sqrt: real -> real)
  {
    |Present(col)| >= 2 && Std(Present(col), sqrt) != 0.0
  }

  /** The standard score of x against mean m and standard deviation sd. */
  function ZScore(x: real, m: real, sd: real): real
    requires sd != 0.0
  {
    (x - m) / sd
  }

  /** (x - m) / sd on the present cells of a column. */
  function Rescale(col: seq<Option<real>>, m: real, sd: real): (z: seq<Option<real>>)
    requires sd != 0.0
    ensures |z| == |col|
    ensures forall i :: 0 <= i < |col| ==> (z[i].Some? <==> col[i].Some?)
    ensures forall i :: 0 <= i < |col| && col[i].Some? ==> z[i].value == ZScore(col[i].value, m, sd)
  {
    if |col| == 0 then []
    else [if col[0].Some? then Some(ZScore(col[0].value, m, sd)) else None] + Rescale(col[1..], m, sd)
  }

  /** (x - m) / sd on every value. */
  function RescaleValues(xs: seq<real>, m: real, sd: real): (z: seq<real>)
    requires sd != 0.0
    ensures |z| == |xs|
  {
    if |xs| == 0 then [] else [ZScore(xs[0], m, sd)] + RescaleValues(xs[1..], m, sd)
  }

  /** The z-scores of a column. */
  function ZScores(col: seq<Option<real>>, sqrt: real -> real): (z: seq<Option<real>>)
    ensures |z| == |col|
    ensures forall i :: 0 <= i < |col| ==> (z[i].Some? <==> Standardizable(col, sqrt) && col[i].Some?)
    ensures Standardizable(col, sqrt) ==> forall i :: 0 <= i < |col| && col[i].Some? ==>
      z[i].value == ZScore(col[i].value, Mean(Present(col)), Std(Present(col), sqrt))
  {
    if Standardizable(col, sqrt) then Rescale(col, Mean(Present(col)), Std(Present(col), sqrt))
    else seq(|col|, i => None)
  }

  lemma {:induction false} PresentOfRescale(col: seq<Option<real>>, m: real, sd: real)
    requires sd != 0.0
    ensures Present(Rescale(col, m, sd)) == RescaleValues(Present(col), m, sd)
  {
    if |col| > 0 {
      PresentOfRescale(col[1..], m, sd);
      var r := Rescale(col, m, sd);
      assert r[1..] == Rescale(col[1..], m, sd);
      assert Present(r) == (if r[0].Some? then [r[0].value] else []) + Present(r[1..]);
      if col[0].Some? {
        var xs := Present(col);
        assert xs == [col[0].value] + Present(col[1..]);
        assert xs[1..] == Present(col[1..]);
        assert RescaleValues(xs, m, sd) == [ZScore(col[0].value, m, sd)] + RescaleValues(Present(col[1..]), m, sd);
      } else {
        assert Present(col) == Present(col[1..]);
      }
    }
  }

  lemma {:induction false} SumOfRescale(xs: seq<real>, m: real, sd: real)
    requires sd != 0.0
    ensures Sum(RescaleValues(xs, m, sd)) == (Sum(xs) - Mul(|xs| as real, m)) / sd
  {
    if |xs| == 0 {
      MulZero(0.0, m);
    } else {
      var k := (|xs| - 1) as real;
      SumOfRescale(xs[1..], m, sd);
      assert RescaleValues(xs, m, sd)[1..] == RescaleValues(xs[1..], m, sd);
      assert Sum(RescaleValues(xs, m, sd)) == (xs[0] - m) / sd + (Sum(xs[1..]) - Mul(k, m)) / sd;
      DivAdd(xs[0] - m, Sum(xs[1..]) - Mul(k, m), sd);
      MulDistributes(m, k, 1.0);
      assert Mul(|xs| as real, m) == Mul(k, m) + m;
    }
  }

  /** The present z-scores of a standardisable column sum to zero. */
  lemma ZScoresCentred(col: seq<Option<real>>, sqrt: real -> real)
    requires Standardizable(col, sqrt)
    ensures Sum(Present(ZScores(col, sqrt))) == 0.0
  {
    var xs := Present(col);
    var m := Mean(xs);
    var sd := Std(xs, sqrt);
    PresentOfRescale(col, m, sd);
    SumOfRescale(xs, m, sd);
    DivThenMul(Sum(xs), |xs| as real);
  }

  /** With a true square root the z-score keeps the order of the values. */
  lemma ZScoresMonotone(col: seq<Option<real>>, sqrt: real -> real, i: nat, j: nat)
    requires IsSqrt(sqrt) && Standardizable(col, sqrt)
    requires i < |col| && j < |col| && col[i].Some? && col[j].Some?
    ensures var z := ZScores(col, sqrt);
      col[i].value <= col[j].value <==> z[i].value <= z[j].value
  {
    var xs := Present(col);
    StdZeroIff(xs, sqrt);
    var m := Mean(xs);
    var sd := Std(xs, sqrt);
    ZScoreMonotone(col[i].value, col[j].value, m, sd);
  }

  lemma ZScoreMonotone(x: real, y: real, m: real, sd: real)
    requires sd > 0.0
    ensures x <= y <==> ZScore(x, m, sd) <= ZScore(y, m, sd)
  {
    if x <= y {
      DivMonotone(x - m, y - m, sd);
    } else {
      DivMonotone(y - m, x - m, sd);
      assert ZScore(y, m, sd) != ZScore(x, m, sd) by {
        if ZScore(y, m, sd) == ZScore(x, m, sd) {
          DivThenMul(x - m, sd);
          DivThenMul(y - m, sd);
        }
      }
    }
  }

  /** The z-score is invertible: scaling back by the standard deviation and adding the mean gives the value. */
  lemma ZScoresRoundTrip(col: seq<Option<real>>, sqrt: real -> real, i: nat)
    requires Standardizable(col, sqrt) && i < |col| && col[i].Some?
    ensures Mul(Std(Present(col), sqrt), ZScores(col, sqrt)[i].value) + Mean(Present(col)) == col[i].value
  {
    var m := Mean(Present(col));
    var sd := Std(Present(col), sqrt);
    var z := ZScores(col, sqrt);
    assert z[i].value == ZScore(col[i].value, m, sd);
    Unscale(m, sd, z[i].value, col[i].value);
  }

  lemma Unscale(m: real, sd: real, z: real, x: real)
    requires sd != 0.0 && z == ZScore(x, m, sd)
    ensures Mul(sd, z) + m == x
  {
    DivThenMul(x - m, sd);
  }
}
