/**
 * The statistical feature extractor (`get_statistical_features`, the same in
 * all three scripts): from one ticker's daily close prices and the SPY
 * benchmark's, six features, each a real number or missing.
 */
module PriceFeatures {
  import opened Wrappers
  import opened Stats
  import opened Missing
  import opened ColumnNames

  /** Fewer present closes than this and every feature is missing. */
  const MIN_CLOSES: nat := 60
  /** Trading days per year, the annualisation factor under the square root. */
  const TRADING_DAYS: real := 252.0
  /** Closes in the one-month momentum window (20 daily changes). */
  const MONTH_CLOSES: nat := 21
  /** Closes in the three-month momentum window (62 daily changes). */
  const QUARTER_CLOSES: nat := 63

  /** A downloaded daily frame: its column index and, column by column, its cells. */
  datatype Frame = Frame(columns: ColumnIndex, data: seq<seq<Option<real>>>)

  predicate WellFormed(f: Frame)
  {
    |f.data| == Width(f.columns)
  }

  /** `data[close_col].dropna()` after flattening, or None when no column name starts with "Close". */
  function CloseSeries(f: Frame): (closes: Option<seq<real>>)
    requires WellFormed(f)
    ensures closes.None? <==> FirstClose(FlatNames(f.columns)).None?
  {
    match FirstClose(FlatNames(f.columns))
    case None => None
    case Some(j) => Some(Present(f.data[j]))
  }

  /**
   * More than one column carries the first "Close" name, so `data[close_col]`
   * selects a frame of columns rather than one series.
   */
  predicate SharedClose(f: Frame)
  {
    var names := FlatNames(f.columns);
    var j := FirstClose(names);
    j.Some? && Repeated(names, j.value)
  }

  predicate Positive(c: seq<real>)
  {
    forall i :: 0 <= i < |c| ==> c[i] > 0.0
  }

  /**
   * A download outcome the extractor is defined on: None is a download that
   * raised; a frame must be well formed and its close prices positive, so
   * that every percentage change is defined.
   */
  predicate ValidDownload(d: Option<Frame>)
  {
    d.Some? ==> WellFormed(d.value) && (CloseSeries(d.value).Some? ==> Positive(CloseSeries(d.value).value))
  }

  /** `closes.pct_change().dropna()`: the simple day-over-day returns. */
  function Returns(c: seq<real>): (r: seq<real>)
    requires Positive(c)
    ensures |r| == if |c| == 0 then 0 else |c| - 1
  {
    if |c| == 0 then []
    else seq(|c| - 1, i requires 0 <= i < |c| - 1 => c[i + 1] / c[i] - 1.0)
  }

  /** Each return is the growth from one close to the next: c[i] * (1 + r[i]) == c[i + 1]. */
  lemma ReturnsCompound(c: seq<real>)
    requires Positive(c)
    ensures forall i :: 0 <= i < |Returns(c)| ==> Mul(c[i], 1.0 + Returns(c)[i]) == c[i + 1]
  {
    forall i | 0 <= i < |Returns(c)|
      ensures Mul(c[i], 1.0 + Returns(c)[i]) == c[i + 1]
    {
      DivThenMul(c[i + 1], c[i]);
      assert 1.0 + Returns(c)[i] == c[i + 1] / c[i];
    }
  }

  lemma PositiveOfSuffix(c: seq<real>, s: nat)
    requires Positive(c) && s <= |c|
    ensures Positive(c[s..])
  {
    forall i | 0 <= i < |c| - s ensures c[s..][i] > 0.0 {
      assert c[s..][i] == c[s + i];
    }
  }

  /** A return depends only on the two closes it is computed from. */
  lemma ReturnsAgree(a: seq<real>, b: seq<real>, i: nat, j: nat)
    requires Positive(a) && Positive(b) && i + 1 < |a| && j + 1 < |b|
    requires a[i] == b[j] && a[i + 1] == b[j + 1]
    ensures Returns(a)[i] == Returns(b)[j]
  {
    var prev, next := a[i], a[i + 1];
    assert Returns(a)[i] == next / prev - 1.0;
    assert Returns(b)[j] == next / prev - 1.0;
  }

  /** The returns of the last k closes are the last k - 1 returns of the whole series. */
  lemma ReturnsOfTail(c: seq<real>, k: nat)
    requires Positive(c) && 1 <= k <= |c|
    ensures Positive(c[|c| - k..])
    ensures Returns(c[|c| - k..]) == Returns(c)[|c| - k..]
  {
    var s := |c| - k;
    var t := c[s..];
    PositiveOfSuffix(c, s);
    assert |Returns(t)| == k - 1 == |Returns(c)[s..]|;
    forall i | 0 <= i < k - 1 ensures Returns(t)[i] == Returns(c)[s..][i] {
      assert t[i] == c[s + i] && t[i + 1] == c[s + i + 1];
      ReturnsAgree(t, c, i, s + i);
    }
  }

  /** `closes[-n:].pct_change().sum()` when there are at least n closes, missing otherwise. */
  function Momentum(c: seq<real>, n: nat): (m: Option<real>)
    requires Positive(c) && n >= 1
    ensures m.Some? <==> |c| >= n
    ensures m.Some? ==> m.value == Sum(Returns(c)[|c| - n..])
  {
    if |c| >= n then
      ReturnsOfTail(c, n);
      Some(Sum(Returns(c[|c| - n..])))
    else None
  }

  function Max(a: real, b: real): real
  {
    if a >= b then a else b
  }

  /** `closes.cummax()` at position i: the highest close up to and including day i. */
  function PrefixMax(c: seq<real>, i: nat): (m: real)
    requires Positive(c) && i < |c|
    ensures m >= c[i] && m > 0.0
    ensures exists j :: 0 <= j <= i && m == c[j]
  {
    if i == 0 then c[0] else Max(PrefixMax(c, i - 1), c[i])
  }

  /** The running maximum bounds every earlier close. */
  lemma {:induction false} PrefixMaxBounds(c: seq<real>, i: nat)
    requires Positive(c) && i < |c|
    ensures forall j :: 0 <= j <= i ==> c[j] <= PrefixMax(c, i)
  {
    if i > 0 {
      PrefixMaxBounds(c, i - 1);
    }
  }

  predicate NonDecreasing(c: seq<real>)
  {
    forall i, j :: 0 <= i <= j < |c| ==> c[i] <= c[j]
  }

  /** On a non-decreasing series the running maximum is the close itself. */
  lemma {:induction false} PrefixMaxOfNonDecreasing(c: seq<real>, i: nat)
    requires Positive(c) && i < |c| && NonDecreasing(c)
    ensures PrefixMax(c, i) == c[i]
  {
    if i > 0 {
      PrefixMaxOfNonDecreasing(c, i - 1);
    }
  }

  /** `closes / closes.cummax() - 1`: the fall from the running peak, day by day. */
  function Drawdowns(c: seq<real>): (d: seq<real>)
    requires Positive(c)
    ensures |d| == |c|
    ensures forall i :: 0 <= i < |c| ==> d[i] == c[i] / PrefixMax(c, i) - 1.0
  {
    seq(|c|, i requires 0 <= i < |c| => c[i] / PrefixMax(c, i) - 1.0)
  }

  function SeqMin(s: seq<real>): (m: real)
    requires |s| > 0
    ensures m in s
    ensures forall i :: 0 <= i < |s| ==> m <= s[i]
  {
    if |s| == 1 then s[0]
    else
      var rest := SeqMin(s[1..]);
      if s[0] <= rest then s[0] else rest
  }

  /** `(closes / closes.cummax() - 1).min()`: the maximum drawdown, never positive. */
  function MaxDrawdown(c: seq<real>): (dd: real)
    requires Positive(c) && |c| > 0
    ensures dd <= 0.0
  {
    var d := Drawdowns(c);
    RatioMinusOne(c[0], PrefixMax(c, 0));
    SeqMin(d)
  }

  /** The maximum drawdown is zero exactly when the close series never falls. */
  lemma MaxDrawdownZeroIff(c: seq<real>)
    requires Positive(c) && |c| > 0
    ensures MaxDrawdown(c) == 0.0 <==> NonDecreasing(c)
  {
    var d := Drawdowns(c);
    if NonDecreasing(c) {
      forall i | 0 <= i < |c| ensures d[i] == 0.0 {
        PrefixMaxOfNonDecreasing(c, i);
        RatioMinusOne(c[i], PrefixMax(c, i));
      }
    }
    if MaxDrawdown(c) == 0.0 {
      forall i, j | 0 <= i <= j < |c| ensures c[i] <= c[j] {
        assert d[j] >= 0.0;
        RatioMinusOne(c[j], PrefixMax(c, j));
        PrefixMaxBounds(c, j);
      }
    }
  }

  /**
   * Beta against the benchmark over the last min_len returns of each series:
   * `np.cov(r, sr)[0][1] / np.var(sr)`, that is a sample covariance (ddof = 1)
   * over a population variance (ddof = 0), missing when the overlap is empty
   * or the benchmark's variance is zero.
   */
  function Beta(rets: seq<real>, benchRets: seq<real>): (b: Option<real>)
    ensures var n := MinNat(|rets|, |benchRets|);
      b.None? <==> (n == 0 || PopVar(benchRets[|benchRets| - n..]) == 0.0)
    ensures var n := MinNat(|rets|, |benchRets|);
      b.Some? ==> n >= 2 && b.value == SampleCov(rets[|rets| - n..], benchRets[|benchRets| - n..]) / PopVar(benchRets[|benchRets| - n..])
  {
    var n := MinNat(|rets|, |benchRets|);
    if n == 0 then None
    else
      var r := rets[|rets| - n..];
      var sr := benchRets[|benchRets| - n..];
      PopVarNonZeroLength(sr);
      if PopVar(sr) != 0.0 then Some(SampleCov(r, sr) / PopVar(sr)) else None
  }

  /** Only the aligned tails count: trimming both series to their last min_len returns leaves beta unchanged. */
  lemma BetaOfAlignedTails(rets: seq<real>, benchRets: seq<real>)
    ensures var n := MinNat(|rets|, |benchRets|);
      Beta(rets[|rets| - n..], benchRets[|benchRets| - n..]) == Beta(rets, benchRets)
  {
    var n := MinNat(|rets|, |benchRets|);
    var r := rets[|rets| - n..];
    var sr := benchRets[|benchRets| - n..];
    assert MinNat(|r|, |sr|) == n;
    assert r[|r| - n..] == r;
    assert sr[|sr| - n..] == sr;
    if n > 0 {
      PopVarNonZeroLength(sr);
    }
  }

  /** The SPY download as the extractor sees it. */
  datatype Benchmark =
    | BenchmarkFailed               // the download raised: caught by the same handler as the ticker's
    | NoBenchmarkClose              // no column name starts with "Close"
    | BenchmarkCloses(closes: seq<real>)

  function BenchmarkOf(spy: Option<Frame>): (b: Benchmark)
    requires ValidDownload(spy)
    ensures b.BenchmarkFailed? <==> spy.None?
    ensures b.BenchmarkCloses? ==> Positive(b.closes)
  {
    match spy
    case None => BenchmarkFailed
    case Some(f) =>
      match CloseSeries(f)
      case None => NoBenchmarkClose
      case Some(c) => BenchmarkCloses(c)
  }

  predicate ValidBenchmark(b: Benchmark)
  {
    b.BenchmarkCloses? ==> Positive(b.closes)
  }

  /** The six statistical features of one ticker; None is NaN. */
  datatype StatFeatures = StatFeatures(
    volatility: Option<real>,
    sharpe: Option<real>,
    momentum1m: Option<real>,
    momentum3m: Option<real>,
    drawdown: Option<real>,
    beta: Option<real>)

  const MISSING_STATS := StatFeatures(None, None, None, None, None, None)

  /** `returns.std() * np.sqrt(252)`. */
  function Volatility(rets: seq<real>, sqrt: real -> real): real
    requires |rets| >= 2
  {
    Mul(Std(rets, sqrt), sqrt(TRADING_DAYS))
  }

  /** `returns.mean() / returns.std() * np.sqrt(252)`. */
  function Sharpe(rets: seq<real>, sqrt: real -> real): real
    requires |rets| >= 2 && Std(rets, sqrt) != 0.0
  {
    Mean(rets) / Std(rets, sqrt) * sqrt(TRADING_DAYS)
  }

  /** The gate in front of every feature: at least 60 closes, and returns that vary. */
  predicate Gated(closes: seq<real>, sqrt: real -> real)
    requires Positive(closes)
  {
    |closes| >= MIN_CLOSES && Std(Returns(closes), sqrt) != 0.0
  }

  /** The features of a ticker that passed the gates and whose benchmark download did not raise. */
  function GatedFeatures(closes: seq<real>, bench: Benchmark, sqrt: real -> real): (s: StatFeatures)
    requires Positive(closes) && ValidBenchmark(bench)
    requires Gated(closes, sqrt) && !bench.BenchmarkFailed?
    ensures s.volatility.Some? && s.sharpe.Some? && s.momentum1m.Some? && s.drawdown.Some?
    ensures s.momentum3m.Some? <==> |closes| >= QUARTER_CLOSES
    ensures s.volatility.value == Volatility(Returns(closes), sqrt)
    ensures s.sharpe.value == Sharpe(Returns(closes), sqrt)
    ensures s.momentum1m.value == Sum(Returns(closes)[|closes| - MONTH_CLOSES..])
    ensures s.drawdown.value == MaxDrawdown(closes) && s.drawdown.value <= 0.0
    ensures s.momentum3m.Some? ==> s.momentum3m.value == Sum(Returns(closes)[|closes| - QUARTER_CLOSES..])
    ensures s.beta.Some? ==> bench.BenchmarkCloses?
    ensures bench.BenchmarkCloses? ==> s.beta == Beta(Returns(closes), Returns(bench.closes))
  {
    var rets := Returns(closes);
    var beta := match bench
      case NoBenchmarkClose => None
      case BenchmarkCloses(spyCloses) => Beta(rets, Returns(spyCloses));
    StatFeatures(
      Some(Volatility(rets, sqrt)),
      Some(Sharpe(rets, sqrt)),
      Momentum(closes, MONTH_CLOSES),
      Momentum(closes, QUARTER_CLOSES),
      Some(MaxDrawdown(closes)),
      beta)
  }

  /**
   * The features computed from the ticker's present closes and the benchmark.
   * Volatility is the annualised sample standard deviation of the returns;
   * sharpe the annualised mean over standard deviation (no risk-free rate);
   * momentum the sum of the returns in the last 21 and 63 closes; drawdown
   * the maximum drawdown; beta against the benchmark.
   */
  function FeaturesFrom(closes: seq<real>, bench: Benchmark, sqrt: real -> real): (s: StatFeatures)
    requires Positive(closes) && ValidBenchmark(bench)
    ensures !Gated(closes, sqrt) || bench.BenchmarkFailed? ==> s == MISSING_STATS
    ensures s.volatility.Some? <==> Gated(closes, sqrt) && !bench.BenchmarkFailed?
    ensures s.volatility.Some? ==> s.sharpe.Some? && s.momentum1m.Some? && s.drawdown.Some?
    ensures s.momentum3m.Some? <==> s.volatility.Some? && |closes| >= QUARTER_CLOSES
    ensures s.volatility.Some? ==>
      && s.volatility.value == Volatility(Returns(closes), sqrt)
      && s.sharpe.value == Sharpe(Returns(closes), sqrt)
      && s.momentum1m.value == Sum(Returns(closes)[|closes| - MONTH_CLOSES..])
      && s.drawdown.value == MaxDrawdown(closes)
      && s.drawdown.value <= 0.0
    ensures s.momentum3m.Some? ==> s.momentum3m.value == Sum(Returns(closes)[|closes| - QUARTER_CLOSES..])
    ensures s.beta.Some? ==> s.volatility.Some? && bench.BenchmarkCloses?
    ensures s.volatility.Some? && bench.BenchmarkCloses? ==> s.beta == Beta(Returns(closes), Returns(bench.closes))
  {
    // The three early returns (too few closes; empty or constant returns; a
    // raising SPY download) all give six missing features. With 60 closes
    // the returns are never empty, so `Gated` is the first two together.
    if Gated(closes, sqrt) && !bench.BenchmarkFailed? then GatedFeatures(closes, bench, sqrt)
    else MISSING_STATS
  }

  /**
   * `get_statistical_features`: None for a download that raised, which the
   * handler turns into all-missing, as it does a frame without a close column.
   */
  function StatisticalFeatures(data: Option<Frame>, spy: Option<Frame>, sqrt: real -> real): (s: StatFeatures)
    requires ValidDownload(data) && ValidDownload(spy)
    ensures data.None? || CloseSeries(data.value).None? ==> s == MISSING_STATS
    ensures data.Some? && SharedClose(data.value) ==> s == MISSING_STATS
    ensures data.Some? && CloseSeries(data.value).Some? && !SharedClose(data.value) ==>
      s == FeaturesFrom(CloseSeries(data.value).value, BenchmarkOf(spy), sqrt)
  {
    match data
    case None => MISSING_STATS
    case Some(f) =>
      match CloseSeries(f)
      case None => MISSING_STATS
      case Some(closes) =>
        // With a shared close name, `returns.std() == 0` is a Series and `if` on it raises.
        if SharedClose(f) then MISSING_STATS else FeaturesFrom(closes, BenchmarkOf(spy), sqrt)
  }

  /** Two columns both named "Close": the handler's all-missing result, whatever the closes. */
  lemma SharedCloseAllMissing(a: seq<Option<real>>, b: seq<Option<real>>, spy: Option<Frame>, sqrt: real -> real)
    requires ValidDownload(Some(Frame(Flat(["Close", "Close"]), [a, b]))) && ValidDownload(spy)
    ensures StatisticalFeatures(Some(Frame(Flat(["Close", "Close"]), [a, b])), spy, sqrt) == MISSING_STATS
  {
    var names := ["Close", "Close"];
    assert IsCloseName(names[0]);
    assert FirstClose(names) == Some(0);
    assert multiset(names)[names[0]] == 2;
  }

  /** With a true square root, a present volatility is strictly positive. */
  lemma VolatilityPositive(closes: seq<real>, bench: Benchmark, sqrt: real -> real)
    requires Positive(closes) && ValidBenchmark(bench) && IsSqrt(sqrt)
    ensures FeaturesFrom(closes, bench, sqrt).volatility.Some? ==> FeaturesFrom(closes, bench, sqrt).volatility.value > 0.0
  {
    var s := FeaturesFrom(closes, bench, sqrt);
    if s.volatility.Some? {
      VolatilityOfVaryingReturns(Returns(closes), sqrt);
    }
  }

  /** With a true square root, the squared volatility is 252 times the sample variance of the returns. */
  lemma VolatilitySquared(rets: seq<real>, sqrt: real -> real)
    requires |rets| >= 2 && IsSqrt(sqrt)
    ensures Volatility(rets, sqrt) >= 0.0
    ensures Square(Volatility(rets, sqrt)) == Mul(TRADING_DAYS, SampleVar(rets))
  {
    StdSquared(rets, sqrt);
    assert Square(sqrt(TRADING_DAYS)) == TRADING_DAYS;
    SquareOfProduct(Std(rets, sqrt), sqrt(TRADING_DAYS));
    SquareFacts(sqrt(TRADING_DAYS));
    if Std(rets, sqrt) == 0.0 {
      MulZero(Std(rets, sqrt), sqrt(TRADING_DAYS));
    } else {
      MulPositive(Std(rets, sqrt), sqrt(TRADING_DAYS));
    }
  }

  /** With a true square root, returns that vary have a strictly positive volatility. */
  lemma VolatilityOfVaryingReturns(rets: seq<real>, sqrt: real -> real)
    requires |rets| >= 2 && Std(rets, sqrt) != 0.0 && IsSqrt(sqrt)
    ensures Volatility(rets, sqrt) > 0.0
  {
    StdZeroIff(rets, sqrt);
    SquareFacts(sqrt(TRADING_DAYS));
    MulPositive(Std(rets, sqrt), sqrt(TRADING_DAYS));
  }

  /** With a true square root, sharpe is 252 times the mean return over the volatility. */
  lemma SharpeOverVolatility(rets: seq<real>, sqrt: real -> real)
    requires |rets| >= 2 && Std(rets, sqrt) != 0.0 && IsSqrt(sqrt)
    ensures Volatility(rets, sqrt) != 0.0
    ensures Sharpe(rets, sqrt) == TRADING_DAYS * Mean(rets) / Volatility(rets, sqrt)
  {
    var q := sqrt(TRADING_DAYS);
    var sd := Std(rets, sqrt);
    assert 0.0 <= q && Mul(q, q) == TRADING_DAYS;
    if q == 0.0 {
      MulZero(q, q);
      assert false;
    }
    ScaledRatio(Mean(rets), sd, q);
    assert Sharpe(rets, sqrt) == Mul(q, q) * Mean(rets) / Mul(sd, q);
  }

  /** A series growing at one constant rate has constant returns, and so no features at all. */
  lemma ConstantReturnsAllMissing(closes: seq<real>, bench: Benchmark, sqrt: real -> real)
    requires Positive(closes) && ValidBenchmark(bench) && IsSqrt(sqrt)
    requires |Returns(closes)| >= 2 && Constant(Returns(closes))
    ensures FeaturesFrom(closes, bench, sqrt) == MISSING_STATS
  {
    StdZeroIff(Returns(closes), sqrt);
  }

  /**
   * The same extractor with the close column found by the explicit scan that
   * stock_risk_return_screening.py writes, for the ticker and for SPY.
   */
  method StatisticalFeaturesByScan(data: Option<Frame>, spy: Option<Frame>, sqrt: real -> real) returns (s: StatFeatures)
    requires ValidDownload(data) && ValidDownload(spy)
    ensures s == StatisticalFeatures(data, spy, sqrt)
  {
    if data.None? {
      return MISSING_STATS;
    }
    var f := data.value;
    var closeCol := FindCloseColumn(FlatNames(f.columns));
    if closeCol.None? {
      return MISSING_STATS;
    }
    var names := FlatNames(f.columns);
    if multiset(names)[names[closeCol.value]] > 1 {
      // `data[close_col]` is a frame; the zero-std test on it raises inside the handler.
      return MISSING_STATS;
    }
    var closes := Present(f.data[closeCol.value]);
    var bench: Benchmark;
    if spy.None? {
      bench := BenchmarkFailed;
    } else {
      var spyCol := FindCloseColumn(FlatNames(spy.value.columns));
      if spyCol.None? {
        bench := NoBenchmarkClose;
      } else {
        bench := BenchmarkCloses(Present(spy.value.data[spyCol.value]));
      }
    }
    assert bench == BenchmarkOf(spy);
    s := FeaturesFrom(closes, bench, sqrt);
  }
}
