/**
 * The feature matrix the three screening scripts build: one row per ticker
 * holding its fundamentals, its statistical features and its symbol, and
 * the column operations they apply to it (`df[name]`, `dropna(subset=...)`,
 * boolean filtering).
 */
module FeatureTable {
  import opened Wrappers
  import opened Missing
  import opened Fundamentals
  import opened PriceFeatures

  /** What the network returns for one ticker: its info dictionary, its daily frame and, fetched again for it, SPY's frame. */
  datatype TickerData = TickerData(ticker: string, info: Option<Info>, prices: Option<Frame>, spy: Option<Frame>)

  predicate ValidInput(t: TickerData)
  {
    ValidDownload(t.prices) && ValidDownload(t.spy)
  }

  predicate ValidInputs(inputs: seq<TickerData>)
  {
    forall i :: 0 <= i < |inputs| ==> ValidInput(inputs[i])
  }

  /** One row of `pd.DataFrame(features)`. */
  datatype Row = Row(ticker: string, fund: FundamentalFeatures, stats: StatFeatures)

  /** What every row the extractor builds satisfies: its drawdown, when present, is at most zero. */
  predicate RowInvariant(r: Row)
  {
    r.stats.drawdown.Some? ==> r.stats.drawdown.value <= 0.0
  }

  /** `f = get_fundamentals(t); f.update(get_statistical_features(t)); f['ticker'] = t`. */
  function MakeRow(t: TickerData, sqrt: real -> real): (r: Row)
    requires ValidInput(t)
    ensures r.ticker == t.ticker
    ensures RowInvariant(r)
    ensures t.info.None? ==> r.fund == MISSING_FUNDAMENTALS
    ensures t.prices.None? || t.spy.None? ==> r.stats == MISSING_STATS
  {
    var s := StatisticalFeatures(t.prices, t.spy, sqrt);
    assert s.drawdown.Some? ==> s.drawdown.value <= 0.0;
    Row(t.ticker, GetFundamentals(t.info), s)
  }

  /** The rows of the feature matrix, in ticker order. */
  function Rows(inputs: seq<TickerData>, sqrt: real -> real): (rows: seq<Row>)
    requires ValidInputs(inputs)
    ensures |rows| == |inputs|
    ensures forall i :: 0 <= i < |inputs| ==> rows[i] == MakeRow(inputs[i], sqrt)
  {
    seq(|inputs|, i requires 0 <= i < |inputs| => MakeRow(inputs[i], sqrt))
  }

  lemma RowsAppend(inputs: seq<TickerData>, i: nat, sqrt: real -> real)
    requires i < |inputs| && ValidInputs(inputs)
    ensures ValidInputs(inputs[..i]) && ValidInputs(inputs[..i + 1])
    ensures Rows(inputs[..i + 1], sqrt) == Rows(inputs[..i], sqrt) + [MakeRow(inputs[i], sqrt)]
  {
    var a := inputs[..i];
    var b := inputs[..i + 1];
    assert ValidInputs(a) && ValidInputs(b) by {
      forall k | 0 <= k < i + 1 ensures ValidInput(b[k]) && (k < i ==> ValidInput(a[k])) {
        assert b[k] == inputs[k];
      }
    }
    assert b == a + [inputs[i]];
    var ra := Rows(a, sqrt);
    var rb := Rows(b, sqrt);
    forall k | 0 <= k < |rb| ensures rb[k] == (ra + [MakeRow(inputs[i], sqrt)])[k] {
      assert b[k] == (a + [inputs[i]])[k];
    }
  }

  lemma RowsKeepInvariant(inputs: seq<TickerData>, sqrt: real -> real)
    requires ValidInputs(inputs)
    ensures var rows := Rows(inputs, sqrt);
      forall i :: 0 <= i < |rows| ==> RowInvariant(rows[i]) && rows[i].ticker == inputs[i].ticker
  {
  }

  /** The ticker loop of screening_v7.py and screening_v8.py: append one row per ticker. */
  method BuildFeatures(inputs: seq<TickerData>, sqrt: real -> real) returns (rows: seq<Row>)
    requires ValidInputs(inputs)
    ensures rows == Rows(inputs, sqrt)
  {
    rows := [];
    var i := 0;
    while i < |inputs|
      invariant 0 <= i <= |inputs|
      invariant rows == Rows(inputs[..i], sqrt)
    {
      RowsAppend(inputs, i, sqrt);
      rows := rows + [MakeRow(inputs[i], sqrt)];
      i := i + 1;
    }
    assert inputs[..i] == inputs;
  }

  /** The ticker loop of stock_risk_return_screening.py, whose extractor finds the close column by an explicit scan. */
  method BuildFeaturesByScan(inputs: seq<TickerData>, sqrt: real -> real) returns (rows: seq<Row>)
    requires ValidInputs(inputs)
    ensures rows == Rows(inputs, sqrt)
  {
    rows := [];
    var i := 0;
    while i < |inputs|
      invariant 0 <= i <= |inputs|
      invariant rows == Rows(inputs[..i], sqrt)
    {
      var t := inputs[i];
      var f := GetFundamentals(t.info);
      var s := StatisticalFeaturesByScan(t.prices, t.spy, sqrt);
      var row := Row(t.ticker, f, s);
      assert row == MakeRow(inputs[i], sqrt);
      RowsAppend(inputs, i, sqrt);
      rows := rows + [row];
      i := i + 1;
    }
    assert inputs[..i] == inputs;
  }

  /** The DataFrame's columns, named as the row dictionaries name them. */
  datatype Col =
    | Pe | Roe | DebtEquity | InsiderOwn | RevenueGrowth | EpsGrowth
    | Volatility | Sharpe | Momentum1m | Momentum3m | Drawdown | Beta
    | Ticker

  function Name(c: Col): string
  {
    match c
    case Pe => "pe"
    case Roe => "roe"
    case DebtEquity => "debt_equity"
    case InsiderOwn => "insider_own"
    case RevenueGrowth => "revenue_growth"
    case EpsGrowth => "eps_growth"
    case Volatility => "volatility"
    case Sharpe => "sharpe"
    case Momentum1m => "momentum_1m"
    case Momentum3m => "momentum_3m"
    case Drawdown => "drawdown"
    case Beta => "beta"
    case Ticker => "ticker"
  }

  /** A column's place in the DataFrame: the order in which each row dictionary inserts its keys. */
  function Position(c: Col): (p: nat)
    ensures p < 13
  {
    match c
    case Pe => 0 case Roe => 1 case DebtEquity => 2 case InsiderOwn => 3
    case RevenueGrowth => 4 case EpsGrowth => 5 case Volatility => 6 case Sharpe => 7
    case Momentum1m => 8 case Momentum3m => 9 case Drawdown => 10 case Beta => 11
    case Ticker => 12
  }

  /** The column at place p. */
  function ColumnAt(p: nat): (c: Col)
    requires p < 13
    ensures Position(c) == p
  {
    [Pe, Roe, DebtEquity, InsiderOwn, RevenueGrowth, EpsGrowth,
     Volatility, Sharpe, Momentum1m, Momentum3m, Drawdown, Beta, Ticker][p]
  }

  /** The DataFrame's columns in order: each exactly once. */
  const COLUMNS: seq<Col> := seq(13, p requires 0 <= p < 13 => ColumnAt(p))

  lemma ColumnsAreDistinctAndComplete()
    ensures forall p, q :: 0 <= p < q < |COLUMNS| ==> COLUMNS[p] != COLUMNS[q]
    ensures forall c :: c in COLUMNS
  {
    forall c ensures c in COLUMNS {
      assert COLUMNS[Position(c)] == c;
    }
  }

  /** `row[name]` for a numeric column; the ticker column holds no number. */
  function Field(r: Row, c: Col): Option<real>
  {
    match c
    case Pe => r.fund.pe
    case Roe => r.fund.roe
    case DebtEquity => r.fund.debtEquity
    case InsiderOwn => r.fund.insiderOwn
    case RevenueGrowth => r.fund.revenueGrowth
    case EpsGrowth => r.fund.epsGrowth
    case Volatility => r.stats.volatility
    case Sharpe => r.stats.sharpe
    case Momentum1m => r.stats.momentum1m
    case Momentum3m => r.stats.momentum3m
    case Drawdown => r.stats.drawdown
    case Beta => r.stats.beta
    case Ticker => None
  }

  /** `df[name]`. */
  function Column(rows: seq<Row>, name: Col): (col: seq<Option<real>>)
    ensures |col| == |rows|
    ensures forall i :: 0 <= i < |rows| ==> col[i] == Field(rows[i], name)
  {
    seq(|rows|, i requires 0 <= i < |rows| => Field(rows[i], name))
  }

  predicate HasAll(r: Row, names: seq<Col>)
  {
    forall k :: 0 <= k < |names| ==> Field(r, names[k]).Some?
  }

  /** Boolean-mask selection: the elements that pass, in their original order. */
  function Filter<T>(xs: seq<T>, keep: T -> bool): (ys: seq<T>)
    ensures |ys| <= |xs|
    ensures multiset(ys) <= multiset(xs)
    ensures forall i :: 0 <= i < |ys| ==> ys[i] in xs && keep(ys[i])
    ensures forall i :: 0 <= i < |xs| ==> (xs[i] in ys <==> keep(xs[i]))
    ensures (forall i :: 0 <= i < |xs| ==> keep(xs[i])) ==> ys == xs
  {
    if |xs| == 0 then []
    else
      assert xs == [xs[0]] + xs[1..];
      (if keep(xs[0]) then [xs[0]] else []) + Filter(xs[1..], keep)
  }

  /** A row that passes is kept as often as it occurs; a row that fails, never. */
  lemma {:induction false} FilterCounts<T(!new)>(xs: seq<T>, keep: T -> bool)
    ensures forall x :: multiset(Filter(xs, keep))[x] == if keep(x) then multiset(xs)[x] else 0
  {
    if |xs| > 0 {
      FilterCounts(xs[1..], keep);
      assert xs == [xs[0]] + xs[1..];
    }
  }

  /** A mask over two tables end to end is the mask over each, end to end: the kept rows stay in order. */
  lemma {:induction false} FilterAppend<T>(a: seq<T>, b: seq<T>, keep: T -> bool)
    ensures Filter(a + b, keep) == Filter(a, keep) + Filter(b, keep)
  {
    if |a| == 0 {
      assert a + b == b;
    } else {
      assert (a + b)[1..] == a[1..] + b;
      FilterAppend(a[1..], b, keep);
    }
  }

  /** One row: kept when it passes, dropped otherwise. */
  lemma FilterOfOne<T>(x: T, keep: T -> bool)
    ensures Filter([x], keep) == if keep(x) then [x] else []
  {
    assert [x][1..] == [];
  }

  /** The mask of `dropna(subset=names)`. */
  function CompleteIn(names: seq<Col>): Row -> bool
  {
    r => HasAll(r, names)
  }

  /** `df.dropna(subset=names)`: each row with every listed column present is kept as often as it occurs, and no other row. */
  function DropNa(rows: seq<Row>, names: seq<Col>): (kept: seq<Row>)
    ensures multiset(kept) <= multiset(rows)
    ensures forall r :: multiset(kept)[r] == if HasAll(r, names) then multiset(rows)[r] else 0
    ensures forall i :: 0 <= i < |kept| ==> kept[i] in rows && HasAll(kept[i], names)
    ensures forall i :: 0 <= i < |rows| ==> (rows[i] in kept <==> HasAll(rows[i], names))
  {
    FilterCounts(rows, CompleteIn(names));
    Filter(rows, CompleteIn(names))
  }

  /** `dropna` keeps the order of the rows: over two tables end to end it is the `dropna` of each, end to end. */
  lemma DropNaAppend(a: seq<Row>, b: seq<Row>, names: seq<Col>)
    ensures DropNa(a + b, names) == DropNa(a, names) + DropNa(b, names)
    ensures forall r :: DropNa([r], names) == if HasAll(r, names) then [r] else []
  {
    FilterAppend(a, b, CompleteIn(names));
    forall r ensures DropNa([r], names) == if HasAll(r, names) then [r] else [] {
      FilterOfOne(r, CompleteIn(names));
    }
  }

  /** After `dropna(subset=names)` every listed column is present in every row, so its present values are the whole column. */
  lemma DropNaColumnsFull(rows: seq<Row>, names: seq<Col>, k: nat)
    requires k < |names|
    ensures var kept := DropNa(rows, names);
      && |Present(Column(kept, names[k]))| == |kept|
      && forall i :: 0 <= i < |kept| ==> Present(Column(kept, names[k]))[i] == Field(kept[i], names[k]).value
  {
    var kept := DropNa(rows, names);
    var col := Column(kept, names[k]);
    PresentOfFull(col);
  }
}
