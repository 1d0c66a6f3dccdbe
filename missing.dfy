/**
 * Missing-value ("NaN") arithmetic as pandas performs it on a Series:
 * element-wise arithmetic propagates a missing operand, while reductions
 * such as `dropna`, `mean` or `sum` skip missing cells.
 */
module Missing {
  import opened Wrappers
  import Stats

  /** The present values of a column, in order (`Series.dropna()`). */
  function Present(col: seq<Option<real>>): (xs: seq<real>)
    ensures |xs| <= |col|
    ensures (forall i :: 0 <= i < |col| ==> col[i].Some?) ==> |xs| == |col|
  {
    if |col| == 0 then []
    else (if col[0].Some? then [col[0].value] else []) + Present(col[1..])
  }

  /** `dropna` of two columns placed end to end is the `dropna` of each, end to end: the order of the present values is kept. */
  lemma {:induction false} PresentAppend(a: seq<Option<real>>, b: seq<Option<real>>)
    ensures Present(a + b) == Present(a) + Present(b)
  {
    if |a| == 0 {
      assert a + b == b;
    } else {
      var head := if a[0].Some? then [a[0].value] else [];
      assert (a + b)[0] == a[0];
      assert (a + b)[1..] == a[1..] + b;
      assert Present(a + b) == head + Present(a[1..] + b);
      PresentAppend(a[1..], b);
      assert Present(a) == head + Present(a[1..]);
    }
  }

  /** One cell: a present value is kept, a missing one dropped. */
  lemma PresentOfCell(x: Option<real>)
    ensures Present([x]) == if x.Some? then [x.value] else []
  {
    assert [x][1..] == [];
  }

  /** Each value survives `dropna` as many times as it is present in the column. */
  lemma {:induction false} PresentCounts(col: seq<Option<real>>)
    ensures forall x :: multiset(Present(col))[x] == multiset(col)[Some(x)]
  {
    if |col| > 0 {
      PresentCounts(col[1..]);
      assert col == [col[0]] + col[1..];
    }
  }

  /** A column with every cell present has its cells, in order, as present values. */
  lemma {:induction false} PresentOfFull(col: seq<Option<real>>)
    requires forall i :: 0 <= i < |col| ==> col[i].Some?
    ensures |Present(col)| == |col|
    ensures forall i :: 0 <= i < |col| ==> Present(col)[i] == col[i].value
  {
    if |col| > 0 {
      PresentOfFull(col[1..]);
    }
  }

  /** The present values of a three-cell row, cell by cell. */
  lemma PresentOfThree(a: Option<real>, b: Option<real>, c: Option<real>)
    ensures Present([a, b, c]) == Present([a]) + Present([b]) + Present([c])
  {
    assert [a, b, c][1..] == [b, c];
    assert [b, c][1..] == [c];
    assert [a][1..] == [] && [b][1..] == [] && [c][1..] == [];
  }

  /** Row-wise `sum` with pandas' default skipna: missing cells are left out, so an all-missing row sums to 0. */
  function SumSkipNa(xs: seq<Option<real>>): real
  {
    Stats.Sum(Present(xs))
  }

  /** A skipna sum splits over a concatenation, a present cell adds its value and a missing one adds nothing. */
  lemma SumSkipNaSplits(a: seq<Option<real>>, b: seq<Option<real>>, x: Option<real>)
    ensures SumSkipNa(a + b) == SumSkipNa(a) + SumSkipNa(b)
    ensures SumSkipNa([x]) == if x.Some? then x.value else 0.0
  {
    PresentAppend(a, b);
    Stats.SumAppend(Present(a), Present(b));
    PresentOfCell(x);
    if x.Some? {
      assert Stats.Sum([x.value]) == x.value + Stats.Sum([]);
    }
  }

  function Neg(a: Option<real>): Option<real>
  {
    if a.Some? then Some(-a.value) else None
  }

  /** A cell's value, counted as 0 when it is missing. */
  function OrZero(x: Option<real>): real
  {
    if x.Some? then x.value else 0.0
  }

  function Add(a: Option<real>, b: Option<real>): Option<real>
  {
    if a.Some? && b.Some? then Some(a.value + b.value) else None
  }

  function Sub(a: Option<real>, b: Option<real>): Option<real>
  {
    if a.Some? && b.Some? then Some(a.value - b.value) else None
  }

  /** A constant times a column cell; a missing cell stays missing, whatever the constant. */
  function Scale(c: real, a: Option<real>): Option<real>
  {
    if a.Some? then Some(Stats.Mul(c, a.value)) else None
  }

  function Halve(a: Option<real>): Option<real>
  {
    if a.Some? then Some(a.value / 2.0) else None
  }
}
