/**
 * screening_v8.py: the "bargain dip" screen. Rows missing any of nine
 * columns are dropped, then rows whose trailing P/E is not below MAX_PE;
 * the survivors are scored by a weighted sum of quality, value, dip,
 * distance from the high, sharpe and volatility, and the ten best are kept.
 */
module ScreeningV8 {
  import opened Wrappers
  import opened Stats
  import opened Missing
  import opened Standardize
  import opened Ranking
  import opened FeatureTable
  import opened ScreenConfig

  const MAX_PE := 30.0

  const V8_REQUIRED := [Sharpe, Volatility, Pe, Roe, RevenueGrowth, EpsGrowth, Momentum1m, Momentum3m, Drawdown]

  /** The ValueError raised when no row survives the filters. */
  const V8_NO_CANDIDATES := "No bargain candidates found. Try a higher PE threshold or check your data."

  /** One weight per score component. */
  datatype Weights = Weights(quality: real, value: real, dip: real, offHigh: real, sharpe: real, volatility: real)

  /** `score_weights`. */
  const V8_WEIGHTS := Weights(1.0, 1.0, 0.7, 0.7, 0.5, -RISK_AVERSION_LAMBDA)

  /** The six score components of one row; missing where pandas would hold NaN. */
  datatype Components = Components(
    quality: Option<real>, value: Option<real>, dip: Option<real>,
    offHigh: Option<real>, sharpe: Option<real>, volatility: Option<real>)

  /** The weighted terms `score_weights[k] * df[k]`, in the order the source adds them. */
  function Terms(w: Weights, c: Components): (t: seq<Option<real>>)
    ensures |t| == 6
  {
    [Scale(w.quality, c.quality), Scale(w.value, c.value), Scale(w.dip, c.dip),
     Scale(w.offHigh, c.offHigh), Scale(w.sharpe, c.sharpe), Scale(w.volatility, c.volatility)]
  }

  /** `t[0] + t[1] + ... + t[n-1]`, added left to right; missing if any term is. */
  function SumLeft(ts: seq<Option<real>>): (r: Option<real>)
    requires |ts| > 0
  {
    if |ts| == 1 then ts[0] else Add(SumLeft(ts[..|ts| - 1]), ts[|ts| - 1])
  }

  /** A six-term left sum, written out. */
  lemma SumLeftOfSix(t: seq<Option<real>>)
    requires |t| == 6
    ensures SumLeft(t) == Add(Add(Add(Add(Add(t[0], t[1]), t[2]), t[3]), t[4]), t[5])
  {
    assert t[..5][..4] == t[..4];
    assert t[..4][..3] == t[..3];
    assert t[..3][..2] == t[..2];
    assert t[..2][..1] == t[..1];
    assert SumLeft(t[..1]) == t[0];
    assert SumLeft(t[..2]) == Add(t[0], t[1]);
    assert SumLeft(t[..3]) == Add(SumLeft(t[..2]), t[2]);
    assert SumLeft(t[..4]) == Add(SumLeft(t[..3]), t[3]);
    assert SumLeft(t[..5]) == Add(SumLeft(t[..4]), t[4]);
  }

  /** The composite score. */
  function WeightedScore(w: Weights, c: Components): Option<real>
  {
    SumLeft(Terms(w, c))
  }

  lemma {:induction false} SumLeftPresence(ts: seq<Option<real>>)
    requires |ts| > 0
    ensures SumLeft(ts).Some? <==> forall i :: 0 <= i < |ts| ==> ts[i].Some?
  {
    if |ts| > 1 {
      SumLeftPresence(ts[..|ts| - 1]);
    }
  }

  /** With every component present, the score is the weighted sum of the components. */
  lemma WeightedScoreValue(w: Weights, c: Components)
    requires AllPresent(c)
    ensures WeightedScore(w, c) == Some(
      Mul(w.quality, c.quality.value) + Mul(w.value, c.value.value) + Mul(w.dip, c.dip.value)
      + Mul(w.offHigh, c.offHigh.value) + Mul(w.sharpe, c.sharpe.value) + Mul(w.volatility, c.volatility.value))
  {
    SumLeftOfSix(Terms(w, c));
  }

  predicate AllPresent(c: Components)
  {
    c.quality.Some? && c.value.Some? && c.dip.Some? && c.offHigh.Some? && c.sharpe.Some? && c.volatility.Some?
  }

  /** A score is present exactly when all six components are. */
  lemma WeightedScorePresence(w: Weights, c: Components)
    ensures WeightedScore(w, c).Some? <==> AllPresent(c)
  {
    var t := Terms(w, c);
    SumLeftPresence(t);
    assert (forall i :: 0 <= i < 6 ==> t[i].Some?) <==> AllPresent(c) by {
      assert t[0] == Scale(w.quality, c.quality);
      assert t[1] == Scale(w.value, c.value);
      assert t[2] == Scale(w.dip, c.dip);
      assert t[3] == Scale(w.offHigh, c.offHigh);
      assert t[4] == Scale(w.sharpe, c.sharpe);
      assert t[5] == Scale(w.volatility, c.volatility);
    }
  }

  function ScaleWeights(k: real, w: Weights): Weights
  {
    Weights(Mul(k, w.quality), Mul(k, w.value), Mul(k, w.dip), Mul(k, w.offHigh), Mul(k, w.sharpe), Mul(k, w.volatility))
  }

  lemma ScaleOfScale(k: real, w: real, x: Option<real>)
    ensures Scale(Mul(k, w), x) == Scale(k, Scale(w, x))
  {
    if x.Some? {
      MulAssociates(k, w, x.value);
    }
  }

  lemma ScaleOfAdd(k: real, a: Option<real>, b: Option<real>)
    ensures Scale(k, Add(a, b)) == Add(Scale(k, a), Scale(k, b))
  {
    if a.Some? && b.Some? {
      MulDistributes(k, a.value, b.value);
    }
  }

  lemma {:induction false} SumLeftOfScaled(k: real, ts: seq<Option<real>>, us: seq<Option<real>>)
    requires |ts| > 0 && |us| == |ts|
    requires forall i :: 0 <= i < |ts| ==> us[i] == Scale(k, ts[i])
    ensures SumLeft(us) == Scale(k, SumLeft(ts))
  {
    if |ts| > 1 {
      SumLeftOfScaled(k, ts[..|ts| - 1], us[..|us| - 1]);
      ScaleOfAdd(k, SumLeft(ts[..|ts| - 1]), ts[|ts| - 1]);
    }
  }

  /** The score is linear in the weights: scaling every weight by k scales the score by k. */
  lemma ScaledWeightsScaleScore(k: real, w: Weights, c: Components)
    ensures WeightedScore(ScaleWeights(k, w), c) == Scale(k, WeightedScore(w, c))
  {
    var ts := Terms(w, c);
    var us := Terms(ScaleWeights(k, w), c);
    ScaleOfScale(k, w.quality, c.quality);
    ScaleOfScale(k, w.value, c.value);
    ScaleOfScale(k, w.dip, c.dip);
    ScaleOfScale(k, w.offHigh, c.offHigh);
    ScaleOfScale(k, w.sharpe, c.sharpe);
    ScaleOfScale(k, w.volatility, c.volatility);
    assert us[0] == Scale(k, ts[0]) && us[1] == Scale(k, ts[1]) && us[2] == Scale(k, ts[2]);
    assert us[3] == Scale(k, ts[3]) && us[4] == Scale(k, ts[4]) && us[5] == Scale(k, ts[5]);
    SumLeftOfScaled(k, ts, us);
  }

  /** The score of every row under weights w. */
  function ScoresUnder(comps: seq<Components>, w: Weights): (s: seq<Option<real>>)
    ensures |s| == |comps|
    ensures forall i :: 0 <= i < |comps| ==> s[i] == WeightedScore(w, comps[i])
  {
    seq(|comps|, i requires 0 <= i < |comps| => WeightedScore(w, comps[i]))
  }

  /** Rows paired with their scores under weights w. */
  function RankedBy<T>(items: seq<T>, comps: seq<Components>, w: Weights): (r: seq<Ranked<T>>)
    requires |items| == |comps|
    ensures |r| == |items|
    ensures forall i :: 0 <= i < |items| ==> r[i] == Ranked(items[i], WeightedScore(w, comps[i]))
  {
    Zip(items, ScoresUnder(comps, w))
  }

  /** Scaling every weight by the same positive constant leaves the ranking order unchanged. */
  lemma ScaledWeightsKeepOrder<T>(k: real, items: seq<T>, comps: seq<Components>, w: Weights)
    requires k > 0.0 && |items| == |comps|
    ensures forall i, j :: 0 <= i < |items| && 0 <= j < |items| ==>
      (RanksAtLeast(RankedBy(items, comps, w)[i], RankedBy(items, comps, w)[j])
       <==> RanksAtLeast(RankedBy(items, comps, ScaleWeights(k, w))[i], RankedBy(items, comps, ScaleWeights(k, w))[j]))
    ensures SortedByScore(RankedBy(items, comps, w)) <==> SortedByScore(RankedBy(items, comps, ScaleWeights(k, w)))
  {
    var a := RankedBy(items, comps, w);
    var b := RankedBy(items, comps, ScaleWeights(k, w));
    forall i, j | 0 <= i < |items| && 0 <= j < |items|
      ensures RanksAtLeast(a[i], a[j]) <==> RanksAtLeast(b[i], b[j])
    {
      ScaledWeightsScaleScore(k, w, comps[i]);
      ScaledWeightsScaleScore(k, w, comps[j]);
      if a[i].score.Some? && a[j].score.Some? {
        MulMonotone(k, a[j].score.value, a[i].score.value);
      }
    }
  }

  /** `df[['roe', 'revenue_growth', 'eps_growth']].apply(zscore).sum(axis=1)`: missing z-scores are skipped, so an all-missing row sums to 0. */
  function Quality(df: seq<Row>, sqrt: real -> real): (q: seq<Option<real>>)
    ensures |q| == |df|
    ensures forall i :: 0 <= i < |df| ==> q[i].Some?
  {
    var zr := ZScores(Column(df, Roe), sqrt);
    var zg := ZScores(Column(df, RevenueGrowth), sqrt);
    var ze := ZScores(Column(df, EpsGrowth), sqrt);
    seq(|df|, i requires 0 <= i < |df| => Some(SumSkipNa([zr[i], zg[i], ze[i]])))
  }

  /** `-zscore(df['pe'])`: lower P/E is better value. */
  function Value(df: seq<Row>, sqrt: real -> real): (v: seq<Option<real>>)
    ensures |v| == |df|
  {
    var zp := ZScores(Column(df, Pe), sqrt);
    seq(|df|, i requires 0 <= i < |df| => Neg(zp[i]))
  }

  /** `-((df['momentum_1m'] + df['momentum_3m']) / 2)`, on the raw momenta. */
  function Dip(df: seq<Row>): (d: seq<Option<real>>)
    ensures |d| == |df|
  {
    seq(|df|, i requires 0 <= i < |df| => Neg(Halve(Add(Field(df[i], Momentum1m), Field(df[i], Momentum3m)))))
  }

  /** `-df['drawdown']`, on the raw drawdown. */
  function OffHigh(df: seq<Row>): (o: seq<Option<real>>)
    ensures |o| == |df|
  {
    seq(|df|, i requires 0 <= i < |df| => Neg(Field(df[i], Drawdown)))
  }

  /** When all three quality columns can be standardised, each row's quality is the sum of its three z-scores. */
  lemma QualityIsSumOfZScores(df: seq<Row>, sqrt: real -> real, i: nat)
    requires i < |df| && Field(df[i], Roe).Some? && Field(df[i], RevenueGrowth).Some? && Field(df[i], EpsGrowth).Some?
    requires Standardizable(Column(df, Roe), sqrt)
    requires Standardizable(Column(df, RevenueGrowth), sqrt)
    requires Standardizable(Column(df, EpsGrowth), sqrt)
    ensures Quality(df, sqrt)[i].value
      == ZScores(Column(df, Roe), sqrt)[i].value
       + ZScores(Column(df, RevenueGrowth), sqrt)[i].value
       + ZScores(Column(df, EpsGrowth), sqrt)[i].value
  {
    var zr := ZScores(Column(df, Roe), sqrt);
    var zg := ZScores(Column(df, RevenueGrowth), sqrt);
    var ze := ZScores(Column(df, EpsGrowth), sqrt);
    assert Quality(df, sqrt)[i] == Some(SumSkipNa([zr[i], zg[i], ze[i]]));
    assert zr[i].Some? && zg[i].Some? && ze[i].Some?;
    PresentOfThree(zr[i], zg[i], ze[i]);
    assert Present([zr[i], zg[i], ze[i]]) == [zr[i].value, zg[i].value, ze[i].value];
    SumOfThree(zr[i].value, zg[i].value, ze[i].value);
  }

  /**
   * In every row, quality adds the z-scores that are present and counts a
   * missing one (a column that cannot be standardised, or a missing cell) as 0.
   */
  lemma QualitySkipsMissing(df: seq<Row>, sqrt: real -> real, i: nat)
    requires i < |df|
    ensures Quality(df, sqrt)[i].value
      == OrZero(ZScores(Column(df, Roe), sqrt)[i])
       + OrZero(ZScores(Column(df, RevenueGrowth), sqrt)[i])
       + OrZero(ZScores(Column(df, EpsGrowth), sqrt)[i])
  {
    var zr := ZScores(Column(df, Roe), sqrt);
    var zg := ZScores(Column(df, RevenueGrowth), sqrt);
    var ze := ZScores(Column(df, EpsGrowth), sqrt);
    assert Quality(df, sqrt)[i] == Some(SumSkipNa([zr[i], zg[i], ze[i]]));
    assert [zr[i], zg[i], ze[i]] == [zr[i]] + [zg[i]] + [ze[i]];
    SumSkipNaSplits([zr[i]] + [zg[i]], [ze[i]], ze[i]);
    SumSkipNaSplits([zr[i]], [zg[i]], zr[i]);
    SumSkipNaSplits([], [], zg[i]);
  }

  /** When none of the quality columns can be standardised, every row's quality is 0. */
  lemma QualityOfDegenerateColumns(df: seq<Row>, sqrt: real -> real, i: nat)
    requires i < |df|
    requires !Standardizable(Column(df, Roe), sqrt)
    requires !Standardizable(Column(df, RevenueGrowth), sqrt)
    requires !Standardizable(Column(df, EpsGrowth), sqrt)
    ensures Quality(df, sqrt)[i] == Some(0.0)
  {
    var zr := ZScores(Column(df, Roe), sqrt);
    var zg := ZScores(Column(df, RevenueGrowth), sqrt);
    var ze := ZScores(Column(df, EpsGrowth), sqrt);
    assert Quality(df, sqrt)[i] == Some(SumSkipNa([zr[i], zg[i], ze[i]]));
    assert zr[i].None? && zg[i].None? && ze[i].None?;
    PresentOfThree(zr[i], zg[i], ze[i]);
    assert Present([zr[i], zg[i], ze[i]]) == [];
  }

  /** A lower P/E never has a lower value score. */
  lemma ValueReversesPe(df: seq<Row>, sqrt: real -> real, i: nat, j: nat)
    requires IsSqrt(sqrt) && Standardizable(Column(df, Pe), sqrt)
    requires i < |df| && j < |df| && Field(df[i], Pe).Some? && Field(df[j], Pe).Some?
    ensures Value(df, sqrt)[i].Some? && Value(df, sqrt)[j].Some?
    ensures Field(df[i], Pe).value <= Field(df[j], Pe).value <==> Value(df, sqrt)[i].value >= Value(df, sqrt)[j].value
  {
    ZScoresMonotone(Column(df, Pe), sqrt, i, j);
  }

  /** Distance from the high is never negative, because drawdown never is positive. */
  lemma OffHighNonNegative(df: seq<Row>, i: nat)
    requires i < |df| && RowInvariant(df[i])
    ensures OffHigh(df)[i].Some? ==> OffHigh(df)[i].value >= 0.0
  {
  }

  /** The dip is positive exactly when the average of the two momenta is negative. */
  lemma DipPositiveIffFalling(df: seq<Row>, i: nat)
    requires i < |df| && Field(df[i], Momentum1m).Some? && Field(df[i], Momentum3m).Some?
    ensures Dip(df)[i].Some?
    ensures Dip(df)[i].value > 0.0 <==> Field(df[i], Momentum1m).value + Field(df[i], Momentum3m).value < 0.0
  {
  }

  /** The score components of every row of the candidate table. */
  function ComponentsV8(df: seq<Row>, sqrt: real -> real): (c: seq<Components>)
    ensures |c| == |df|
  {
    var q := Quality(df, sqrt);
    var v := Value(df, sqrt);
    var d := Dip(df);
    var o := OffHigh(df);
    seq(|df|, i requires 0 <= i < |df| => Components(q[i], v[i], d[i], o[i], Field(df[i], Sharpe), Field(df[i], Volatility)))
  }

  /** A P/E column that cannot be standardised leaves every value, and so every score, missing. */
  lemma DegeneratePeMissesEveryScore(df: seq<Row>, sqrt: real -> real)
    requires !Standardizable(Column(df, Pe), sqrt)
    ensures forall i :: 0 <= i < |df| ==> WeightedScore(V8_WEIGHTS, ComponentsV8(df, sqrt)[i]).None?
  {
    forall i | 0 <= i < |df|
      ensures WeightedScore(V8_WEIGHTS, ComponentsV8(df, sqrt)[i]).None?
    {
      assert ComponentsV8(df, sqrt)[i].value == Value(df, sqrt)[i];
      WeightedScorePresence(V8_WEIGHTS, ComponentsV8(df, sqrt)[i]);
    }
  }

  predicate CheapPe(r: Row)
  {
    r.fund.pe.Some? && r.fund.pe.value < MAX_PE
  }

  /** `df.dropna(subset=[...nine columns...])` then `df[df['pe'] < MAX_PE]`. */
  function CandidatesV8(rows: seq<Row>): (df: seq<Row>)
    ensures multiset(df) <= multiset(rows)
    ensures forall i :: 0 <= i < |df| ==> df[i] in rows && HasAll(df[i], V8_REQUIRED) && CheapPe(df[i])
    ensures forall i :: 0 <= i < |rows| ==> (rows[i] in df <==> HasAll(rows[i], V8_REQUIRED) && CheapPe(rows[i]))
    ensures forall r :: multiset(df)[r] == if HasAll(r, V8_REQUIRED) && CheapPe(r) then multiset(rows)[r] else 0
  {
    var complete := DropNa(rows, V8_REQUIRED);
    FilterCounts(complete, CheapPe);
    Filter(complete, CheapPe)
  }

  /** The candidates keep the order of the rows. */
  lemma CandidatesV8Append(a: seq<Row>, b: seq<Row>)
    ensures CandidatesV8(a + b) == CandidatesV8(a) + CandidatesV8(b)
    ensures forall r :: CandidatesV8([r]) == if HasAll(r, V8_REQUIRED) && CheapPe(r) then [r] else []
  {
    DropNaAppend(a, b, V8_REQUIRED);
    FilterAppend(DropNa(a, V8_REQUIRED), DropNa(b, V8_REQUIRED), CheapPe);
    forall r ensures CandidatesV8([r]) == if HasAll(r, V8_REQUIRED) && CheapPe(r) then [r] else [] {
      DropNaAppend([], [], V8_REQUIRED);
      FilterOfOne(r, CheapPe);
    }
  }

  /** A candidate row has all nine columns, a P/E below MAX_PE and, from the extractor, a drawdown at most zero. */
  lemma CandidateRowFacts(rows: seq<Row>, r: Row)
    requires forall i :: 0 <= i < |rows| ==> RowInvariant(rows[i])
    requires r in CandidatesV8(rows)
    ensures HasAll(r, V8_REQUIRED) && CheapPe(r)
    ensures r.stats.drawdown.Some? && r.stats.drawdown.value <= 0.0
  {
    var df := CandidatesV8(rows);
    var i :| 0 <= i < |df| && df[i] == r;
    assert HasAll(r, V8_REQUIRED) && CheapPe(r) && r in rows;
    DrawdownOfComplete(r);
    var j :| 0 <= j < |rows| && rows[j] == r;
    assert RowInvariant(rows[j]);
  }

  lemma DrawdownOfComplete(r: Row)
    requires HasAll(r, V8_REQUIRED)
    ensures r.stats.drawdown.Some?
  {
    assert Field(r, V8_REQUIRED[8]).Some?;
  }

  /** The whole script from the downloaded data to the ten best rows and their scores. */
  method ScreenV8(inputs: seq<TickerData>, sqrt: real -> real) returns (result: Result<seq<Ranked<Row>>, ScreenError>)
    requires ValidInputs(inputs)
    ensures var df := CandidatesV8(Rows(inputs, sqrt));
      && (result.Failure? <==> |df| == 0)
      && (result.Success? ==> IsTopN(result.value, RankedBy(df, ComponentsV8(df, sqrt), V8_WEIGHTS), TOP_N))
    ensures result.Failure? ==> result.error == NoCandidates(V8_NO_CANDIDATES)
    ensures result.Success? ==> forall k :: 0 <= k < |result.value| ==>
      && HasAll(result.value[k].item, V8_REQUIRED)
      && CheapPe(result.value[k].item)
      && result.value[k].item.stats.drawdown.Some?
      && result.value[k].item.stats.drawdown.value <= 0.0
  {
    var rows := BuildFeatures(inputs, sqrt);
    var df := DropNa(rows, V8_REQUIRED);
    df := Filter(df, CheapPe);
    assert df == CandidatesV8(rows);
    if |df| == 0 {
      return Failure(NoCandidates(V8_NO_CANDIDATES));
    }
    var components := ComponentsV8(df, sqrt);
    var ranked := RankedBy(df, components, V8_WEIGHTS);
    var top := TopN(ranked, TOP_N);
    SelectionFromZip(top, df, ScoresUnder(components, V8_WEIGHTS));
    RowsKeepInvariant(inputs, sqrt);
    forall k | 0 <= k < |top|
      ensures HasAll(top[k].item, V8_REQUIRED) && CheapPe(top[k].item)
      ensures top[k].item.stats.drawdown.Some? && top[k].item.stats.drawdown.value <= 0.0
    {
      CandidateRowFacts(rows, top[k].item);
    }
    result := Success(top);
  }
}
