/**
 * screening_v7.py: the "bargain quality" screen. Rows missing any of six
 * columns are dropped; the score adds quality, value and the raw sharpe
 * minus lambda times the raw volatility, and the ten best are kept.
 */
module ScreeningV7 {
  import opened Wrappers
  import opened Stats
  import opened Missing
  import opened Ranking
  import opened FeatureTable
  import opened ScreenConfig
  import opened ScreeningV8

  const V7_REQUIRED := [Sharpe, Volatility, Pe, Roe, RevenueGrowth, EpsGrowth]

  /** The ValueError raised when no row survives the filter. */
  const V7_NO_CANDIDATES := "No stocks with valid metrics. Try different tickers or check data."

  /** `df.dropna(subset=[...six columns...])`. */
  function CandidatesV7(rows: seq<Row>): (df: seq<Row>)
    ensures multiset(df) <= multiset(rows)
    ensures forall i :: 0 <= i < |df| ==> df[i] in rows && HasAll(df[i], V7_REQUIRED)
    ensures forall i :: 0 <= i < |rows| ==> (rows[i] in df <==> HasAll(rows[i], V7_REQUIRED))
    ensures forall r :: multiset(df)[r] == if HasAll(r, V7_REQUIRED) then multiset(rows)[r] else 0
  {
    DropNa(rows, V7_REQUIRED)
  }

  /** The candidates keep the order of the rows. */
  lemma CandidatesV7Append(a: seq<Row>, b: seq<Row>)
    ensures CandidatesV7(a + b) == CandidatesV7(a) + CandidatesV7(b)
    ensures forall r :: CandidatesV7([r]) == if HasAll(r, V7_REQUIRED) then [r] else []
  {
    DropNaAppend(a, b, V7_REQUIRED);
  }

  /** `df['quality'] + df['value'] + (df['sharpe'] - RISK_AVERSION_LAMBDA * df['volatility'])`. */
  function ScoresV7(df: seq<Row>, sqrt: real -> real): (s: seq<Option<real>>)
    ensures |s| == |df|
  {
    var q := Quality(df, sqrt);
    var v := Value(df, sqrt);
    seq(|df|, i requires 0 <= i < |df| =>
      Add(Add(q[i], v[i]), Sub(Field(df[i], Sharpe), Scale(RISK_AVERSION_LAMBDA, Field(df[i], Volatility)))))
  }

  /** The v7 score as a v8 weighting: quality and value at 1, no dip or distance from the high, raw sharpe at 1, raw volatility at -lambda. */
  const V7_WEIGHTS := Weights(1.0, 1.0, 0.0, 0.0, 1.0, -RISK_AVERSION_LAMBDA)

  /** The v7 score is the weighted score with the v7 weights, whatever the (unused) dip components hold. */
  lemma ScoresV7AreWeighted(df: seq<Row>, sqrt: real -> real, i: nat, dip: real, offHigh: real)
    requires i < |df|
    ensures ScoresV7(df, sqrt)[i] == WeightedScore(V7_WEIGHTS, Components(
      Quality(df, sqrt)[i], Value(df, sqrt)[i], Some(dip), Some(offHigh), Field(df[i], Sharpe), Field(df[i], Volatility)))
  {
    V7Formula(Quality(df, sqrt)[i], Value(df, sqrt)[i], Field(df[i], Sharpe), Field(df[i], Volatility), dip, offHigh);
  }

  lemma V7Formula(q: Option<real>, v: Option<real>, sharpe: Option<real>, vol: Option<real>, dip: real, offHigh: real)
    ensures Add(Add(q, v), Sub(sharpe, Scale(RISK_AVERSION_LAMBDA, vol)))
      == WeightedScore(V7_WEIGHTS, Components(q, v, Some(dip), Some(offHigh), sharpe, vol))
  {
    var c := Components(q, v, Some(dip), Some(offHigh), sharpe, vol);
    SumLeftOfSix(Terms(V7_WEIGHTS, c));
  }

  /** The whole script from the downloaded data to the ten best rows and their scores. */
  method ScreenV7(inputs: seq<TickerData>, sqrt: real -> real) returns (result: Result<seq<Ranked<Row>>, ScreenError>)
    requires ValidInputs(inputs)
    ensures var df := CandidatesV7(Rows(inputs, sqrt));
      && (result.Failure? <==> |df| == 0)
      && (result.Success? ==> IsTopN(result.value, Zip(df, ScoresV7(df, sqrt)), TOP_N))
    ensures result.Failure? ==> result.error == NoCandidates(V7_NO_CANDIDATES)
    ensures result.Success? ==> forall k :: 0 <= k < |result.value| ==> HasAll(result.value[k].item, V7_REQUIRED)
  {
    var rows := BuildFeatures(inputs, sqrt);
    var df := DropNa(rows, V7_REQUIRED);
    if |df| == 0 {
      return Failure(NoCandidates(V7_NO_CANDIDATES));
    }
    var score := ScoresV7(df, sqrt);
    var ranked := Zip(df, score);
    var top := TopN(ranked, TOP_N);
    SelectionFromZip(top, df, score);
    result := Success(top);
  }
}
