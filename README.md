# Stock screener: features, standardisation and ranking

A model, over exact reals, of the core of three screening scripts
(`screening_v8.py`, `screening_v7.py`, `stock_risk_return_screening.py`).
Each script builds one row per ticker out of six fundamentals and six
statistical features. It drops rows that lack a required column (v8 also
drops rows whose P/E is not below 30) and fails with a message when no rows
remain. It then standardises columns across the surviving rows, computes a
score and keeps the ten best.

- Missing values (NaN) are `Option<real>`, and `None` is NaN.
- pandas reductions skip missing cells. Element-wise arithmetic propagates them.
- The square root is a parameter `sqrt: real -> real`. Lemmas that need its
  laws require `Stats.IsSqrt(sqrt)`.
- Downloads are inputs (`FeatureTable.TickerData`):
  - the info dictionary, or `None` when the fetch raised;
  - the ticker's daily frame;
  - the SPY frame, downloaded again for every ticker as the source does.

Modules, in dependency order:

| module | file | models |
|---|---|---|
| `Wrappers` | wrappers.dfy | `Option`, `Result` |
| `ScreenConfig` | screen_config.dfy | `RISK_AVERSION_LAMBDA`, the top 10, the "no candidates" error |
| `Stats` | stats.dfy | sum, mean, sample/population variance, sample covariance, std |
| `Missing` | missing.dfy | `dropna` on a Series, NaN-propagating arithmetic |
| `ColumnNames` | column_names.dfy | MultiIndex flattening, the first `Close*` column |
| `Fundamentals` | fundamentals.dfy | `get_fundamentals`, `pd.to_numeric(errors='coerce')` |
| `PriceFeatures` | price_features.dfy | `get_statistical_features` |
| `Standardize` | standardize.dfy | `(x - x.mean()) / x.std()` on one column |
| `Ranking` | ranking.dfy | `sort_values(ascending=False).head(n)` |
| `FeatureTable` | feature_table.dfy | the ticker loop, `df[col]`, `dropna(subset=...)`, boolean filters |
| `ScreeningV8` | screening_v8.dfy | quality, value, dip, off_high, weighted score |
| `ScreeningV7` | screening_v7.dfy | quality + value + raw sharpe − λ·raw volatility |
| `RiskReturnScreening` | risk_return_screening.dfy | `numeric_cols`, `df_std`, z(sharpe) − λ·z(volatility) |

The ticker loops and the explicit close-column scan are methods with loop
invariants. Each is proved equal to a specification function, and the
properties are proved about that function. The three whole scripts are
methods (`ScreenV8`, `ScreenV7`, `ScreenRiskReturn`). Each returns
`Failure` exactly when the filtered table is empty. Otherwise it returns a
top-10 of the scored table, in the sense of `Ranking.IsTopN`:
- it has `min(10, n)` rows;
- they come from the table;
- they are in non-increasing score order, missing scores last;
- no row left out outranks a row kept.

Behaviour the model keeps as the code writes it:
- **Dip and off-high in v8** are computed from the raw momenta and the raw
  drawdown (screening_v8.py:112-113), not from their z-scores.
- **No abort on a degenerate column, in any of the three scripts.** A column
  with fewer than two present values, or with zero standard deviation,
  standardises to all missing.
  - In v8's `quality` these are summed as 0 (row `sum` skips NaN), see
    `ScreeningV8.QualitySkipsMissing`.
  - In v8's `value` they make every score missing, see
    `ScreeningV8.DegeneratePeMissesEveryScore`.
  - In the risk-return score a degenerate sharpe or volatility makes every
    score missing, see `RiskReturnScreening.ScoresRRDegenerate`.
  - The run goes on and does not abort.
- **Ties are not stable.** `sort_values` uses an unstable sort by default,
  so no order among equal scores is claimed.
- **Beta** is the sample covariance (ddof = 1) over the population variance
  of the benchmark (ddof = 0), as written.
- **The benchmark is fetched once per ticker**, inside the ticker's own
  error handler, so a failed SPY download makes all six of that ticker's
  statistical features missing.
- **v7 uses raw sharpe and volatility** in its score (screening_v7.py:110).

## Model

| member | source | states |
|---|---|---|
| ColumnNames.Strip | screening_v8.py:36 | `s.strip('_')` is the middle of s after its leading and trailing runs of `_`; the result neither starts nor ends with `_` |
| ColumnNames.StripIdempotent | screening_v8.py:36 | stripping twice equals stripping once |
| ColumnNames.Split | screening_v8.py:36 | not source behaviour: the model's reference inverse of the `'_'.join` at line 36, Python's `str.split(sep)`; at least one piece, and no piece holds sep |
| ColumnNames.JoinSplit | screening_v8.py:36 | joining the pieces of `s.split(sep)` with sep gives back s, for every s |
| ColumnNames.SplitJoin | screening_v8.py:36 | splitting `sep.join(parts)` at sep gives back the parts, for any non-empty list of parts free of sep |
| ColumnNames.FlatNames | screening_v8.py:35-36 | a flat index keeps its names; a MultiIndex becomes one name per tuple, `'_'.join(parts).strip('_')`, in column order |
| ColumnNames.FirstClose | screening_v8.py:37 | the result is the first position whose name starts with "Close"; it is None exactly when no name does |
| ColumnNames.FindCloseColumn | stock_risk_return_screening.py:39-43 | the explicit scan with `break` finds the first name starting with "Close", or None when there is none, and agrees with `FirstClose` |
| Fundamentals.ToNumeric | screening_v8.py:21-26 | a number is kept, Python None is missing, and text is parsed as a plain decimal |
| Fundamentals.ParseDecimal | screening_v8.py:21-26 | a parsed text is non-empty; a leading `-` gives a value ≤ 0 and otherwise the value is ≥ 0 (the values themselves: `ParseDecimalOfInteger`, `ParseDecimalOfFraction`) |
| Fundamentals.ParseDecimalOfInteger | screening_v8.py:21-26 | unsigned, `+`-signed and `-`-signed decimal integers coerce to the integer they spell |
| Fundamentals.ParseUnsignedOfFraction | screening_v8.py:21-26 | digits, a point and digits parse to the whole part plus the fractional digits over 10 to the number of those digits |
| Fundamentals.ParseDecimalOfFraction | screening_v8.py:21-26 | the same decimals unsigned, `+`-signed and `-`-signed coerce to that value and its negation; either side of the point may be empty, not both |
| Fundamentals.SignedParse | screening_v8.py:21-26 | text without a sign parses as unsigned; a leading `+` changes nothing and a leading `-` negates the value, missing staying missing |
| Fundamentals.DigitsValueBelowPow10 | screening_v8.py:21-26 | k digits spell a number below 10^k |
| Fundamentals.DecimalValueBounds | screening_v8.py:21-26 | the fractional part adds at least 0 and less than 1 to the whole part |
| Fundamentals.NonNumericTextIsMissing | screening_v8.py:21-26 | text with no digit (such as "N/A", or the empty string) coerces to missing |
| Fundamentals.ParseUnsignedAccepts | screening_v8.py:21-26 | the unsigned parser yields a number exactly for texts of digits and at most one point, other than the point alone |
| Fundamentals.ParseDecimalAccepts | screening_v8.py:21-26 | text coerces to a number exactly when it is such a plain decimal, optionally behind one `-` or `+`; every other text is missing |
| Fundamentals.ForeignCharacterIsMissing | screening_v8.py:21-26 | a character other than a digit, a point or one leading sign makes the text missing ("12abc", "1e5", "1,000", " 12", "--5") |
| Fundamentals.SecondPointIsMissing | screening_v8.py:21-26 | a second point makes the text missing ("1.2.3") |
| Fundamentals.Coerce | screening_v8.py:21-26 | an absent key gives missing (not 0); a numeric entry gives its number; a None entry gives missing |
| Fundamentals.GetFundamentals | screening_v8.py:16-29 | a failed fetch gives six missing fields; otherwise field i is the coercion of key i, in the source's key order |
| Fundamentals.FieldsIndependent | screening_v7.py:19-26 | rewriting one of the six keys changes that field only, to the coercion of the new value |
| Fundamentals.OtherKeysIgnored | screening_v7.py:19-26 | keys other than the six never change the fundamentals |
| Missing.Present | screening_v8.py:40 | `dropna` keeps at most the cells it is given, and all of them when none is missing |
| Missing.PresentAppend | screening_v8.py:40 | `dropna` of two pieces end to end is the two `dropna`s end to end, so the present values keep their order |
| Missing.PresentOfCell | screening_v8.py:40 | one present cell contributes its value, one missing cell nothing |
| Missing.PresentCounts | screening_v8.py:40 | every value occurs among the present values exactly as often as the column holds it as a present cell |
| Missing.PresentOfFull | screening_v8.py:92 | a column with every cell present has exactly its cells, in order, as present values |
| Missing.SumSkipNaSplits | screening_v8.py:106 | a row `sum` with skipna splits over concatenation; a present cell adds its value, a missing one adds 0 |
| PriceFeatures.CloseSeries | screening_v8.py:35-40 | the close series is missing exactly when no flattened name starts with "Close" |
| PriceFeatures.Returns | screening_v8.py:42 | `pct_change().dropna()` has one return fewer than there are closes |
| PriceFeatures.ReturnsCompound | screening_v8.py:42 | each return compounds its close into the next: `c[i] * (1 + r[i]) == c[i+1]` |
| PriceFeatures.ReturnsOfTail | screening_v8.py:63-64 | the returns of the last k closes are the last k − 1 returns of the series |
| PriceFeatures.Momentum | screening_v8.py:63-64 | momentum over n closes is present exactly when there are at least n closes, and is the sum of the last n − 1 returns |
| PriceFeatures.PrefixMax | screening_v8.py:65 | the running maximum at day i is positive, at least the close of day i, and equal to the close of some day up to i |
| PriceFeatures.PrefixMaxBounds | screening_v8.py:65 | the running maximum at day i bounds every close up to day i |
| PriceFeatures.PrefixMaxOfNonDecreasing | screening_v8.py:65 | on a non-decreasing series the running maximum is the close itself |
| PriceFeatures.Drawdowns | screening_v8.py:65 | one drawdown per close, `close / cummax − 1` |
| PriceFeatures.SeqMin | screening_v8.py:65 | `.min()` is an element of the series and no element is below it |
| PriceFeatures.MaxDrawdown | screening_v8.py:65 | the maximum drawdown of a non-empty positive series is ≤ 0 |
| PriceFeatures.MaxDrawdownZeroIff | screening_v8.py:65 | the maximum drawdown is 0 exactly when the series is non-decreasing |
| PriceFeatures.Beta | screening_v8.py:54-62 | beta is missing exactly when `min_len` is 0 or the benchmark tail's population variance is 0; otherwise it is sample covariance over population variance of the aligned last `min_len` returns |
| PriceFeatures.BetaOfAlignedTails | screening_v8.py:54-57 | only the aligned tails matter: trimming both series to their last `min_len` returns leaves beta unchanged |
| PriceFeatures.BenchmarkOf | screening_v8.py:47-50 | the benchmark is "failed" exactly when its download raised, and its closes are positive whenever present |
| PriceFeatures.GatedFeatures | screening_v8.py:45-73 | past the gates, volatility, sharpe, 1-month momentum and drawdown are present with their formulas; 3-month momentum is present iff there are ≥ 63 closes; drawdown ≤ 0; beta is missing without a benchmark close column |
| PriceFeatures.FeaturesFrom | screening_v8.py:40-73 | fewer than 60 closes, or returns with zero std, or a failed benchmark download gives all six missing; otherwise the features are present with their formulas, as in `GatedFeatures` |
| PriceFeatures.StatisticalFeatures | screening_v8.py:31-76 | a failed download, a frame without a close column, or a frame with two columns under its first close name gives all six missing (the last because the zero-std test on a frame raises, line 43, inside the handler, lines 74-76); otherwise the features of its present closes |
| PriceFeatures.SharedCloseAllMissing | screening_v8.py:37-43 | a frame whose two columns are both named "Close" gives all six features missing, whatever its closes |
| PriceFeatures.VolatilityPositive | screening_v8.py:43-45 | with a true square root, a present volatility is strictly positive |
| PriceFeatures.VolatilityOfVaryingReturns | screening_v8.py:43-45 | with a true square root, returns with non-zero std have a strictly positive volatility |
| PriceFeatures.VolatilitySquared | screening_v8.py:45 | with a true square root, `returns.std() * sqrt(252)` is ≥ 0 and its square is 252 times the sample variance |
| PriceFeatures.SharpeOverVolatility | screening_v8.py:45-46 | with a true square root, volatility is non-zero past the gate and sharpe is 252 · mean / volatility |
| PriceFeatures.ConstantReturnsAllMissing | screening_v8.py:43-44 | a series with constant returns has all six features missing |
| PriceFeatures.StatisticalFeaturesByScan | stock_risk_return_screening.py:31-93 | the extractor with the loop-based close lookup computes the same features as `StatisticalFeatures`, the shared close name included |
| Stats.SampleVar | screening_v8.py:43-45 | pandas `std()` squared, ddof = 1, is never negative |
| Stats.PopVar | screening_v8.py:58 | `np.var`, ddof = 0, is never negative |
| Stats.SampleVarZeroIff | screening_v8.py:43 | the sample variance is 0 exactly when the series is constant |
| Stats.StdZeroIff | screening_v8.py:43 | with a true square root, `returns.std() == 0` exactly when the returns are constant, and std ≥ 0 |
| Stats.PopVarNonZeroLength | screening_v8.py:58 | a non-zero population variance needs at least two values, so the sample covariance beside it is defined |
| Stats.SumAppend | screening_v8.py:46 | the sum of two pieces end to end is the sum of their sums |
| Stats.MeanTimesCount | screening_v8.py:46 | `mean()` times the number of values is their sum |
| Stats.MeanOfConstant | screening_v8.py:46 | the mean of a constant series is that constant |
| Stats.SumCrossDevSelf | screening_v8.py:58 | the cross deviations of a series with itself are its squared deviations |
| Stats.SampleCovSelf | screening_v8.py:58 | `np.cov(x, x)[0][1]` is the sample variance of x |
| Stats.StdSquared | screening_v8.py:43-45 | with a true square root, `std()` is ≥ 0 and squares to the sample variance (ddof = 1) |
| Standardize.ZScores | screening_v8.py:106 | a z-score is present exactly when its cell is present and the column is standardisable; then it is `(x − mean) / std` over the present cells |
| Standardize.ZScoresCentred | stock_risk_return_screening.py:125 | the present z-scores of a standardisable column sum to 0 |
| Standardize.ZScoresMonotone | stock_risk_return_screening.py:125 | with a true square root, z-scores keep the order of the values, both ways |
| Standardize.ZScoresRoundTrip | stock_risk_return_screening.py:125 | `std · z + mean` gives back the value |
| Standardize.Unscale | screening_v8.py:106 | `(x − m) / sd` multiplied back by sd and shifted by m is x |
| Standardize.ZScoreMonotone | screening_v8.py:106 | for sd > 0, `(x − m) / sd` keeps the order of x, both ways |
| Standardize.Rescale | stock_risk_return_screening.py:125 | rescaling keeps the column's length and its missing cells, and maps each present x to `(x − m) / sd` |
| Standardize.PresentOfRescale | stock_risk_return_screening.py:125 | the present cells of a rescaled column are the rescaled present cells, in order |
| Standardize.SumOfRescale | stock_risk_return_screening.py:125 | rescaled values sum to (Σx − n·m) / sd |
| Ranking.Zip | screening_v8.py:125-134 | pairing rows with their score column keeps positions |
| Ranking.SelectionFromZip | screening_v8.py:134-135 | every row drawn from a scored table is one of the table's rows |
| Ranking.Insert | screening_v8.py:134 | insertion into a sorted sequence keeps it sorted and adds exactly one element |
| Ranking.SortByScore | screening_v8.py:134 | the result is sorted by non-increasing score (missing last) and is a permutation of the input |
| Ranking.Head | screening_v8.py:135 | `head(n)` is the prefix of length `min(n, len)` |
| Ranking.SortedSplit | screening_v8.py:134-135 | in a sorted sequence everything before a cut ranks at least as high as everything after it |
| Ranking.HeadOfSorted | screening_v8.py:134-135 | the first n of a sorted sequence are a top-n |
| Ranking.TopN | screening_v8.py:134-135 | `sort_values(ascending=False).head(n)` is a top-n: `min(n, len)` rows from the input, sorted, none outranked by a row left out |
| FeatureTable.MakeRow | screening_v8.py:82-85 | a row keeps its ticker, has drawdown ≤ 0 when present, six missing fundamentals when the info fetch failed and six missing features when a download failed |
| FeatureTable.Rows | screening_v8.py:79-90 | one row per ticker, in ticker order |
| FeatureTable.RowsAppend | screening_v8.py:86 | appending a ticker's row to the rows of the tickers before it gives the rows of one more ticker |
| FeatureTable.RowsKeepInvariant | screening_v8.py:65 | every row of the table has its ticker and a drawdown ≤ 0 when present |
| FeatureTable.BuildFeatures | screening_v8.py:79-88 | the append loop builds exactly `Rows(inputs)` |
| FeatureTable.BuildFeaturesByScan | stock_risk_return_screening.py:96-105 | the append loop with the scanning extractor builds exactly `Rows(inputs)` |
| FeatureTable.ColumnsAreDistinctAndComplete | screening_v8.py:90 | the frame's 13 columns are pairwise distinct and every column is among them |
| FeatureTable.Column | screening_v8.py:106 | `df[name]` has one cell per row, that row's field |
| FeatureTable.Filter | screening_v8.py:95 | a boolean mask keeps exactly the rows that pass, never more rows, and the rows unchanged when all pass |
| FeatureTable.FilterCounts | screening_v8.py:95 | a row that passes is kept as often as it occurs, one that fails never |
| FeatureTable.FilterAppend | screening_v8.py:95 | masking two pieces end to end is the two masked pieces end to end, so the kept rows keep their order |
| FeatureTable.FilterOfOne | screening_v8.py:95 | a single row is kept exactly when it passes |
| FeatureTable.DropNa | screening_v8.py:92 | `dropna(subset=names)` keeps exactly the rows with every listed column present, each as often as it occurs |
| FeatureTable.DropNaAppend | screening_v8.py:92 | `dropna` of two pieces end to end is the two results end to end, and a single row is kept exactly when complete: the kept rows keep their order |
| FeatureTable.DropNaColumnsFull | screening_v8.py:92 | after `dropna`, a listed column's present values are all its cells |
| ScreeningV8.Terms | screening_v8.py:125-132 | six weighted terms, one per component |
| ScreeningV8.SumLeftOfSix | screening_v8.py:125-132 | the left-to-right sum of six terms is `((((t0 + t1) + t2) + t3) + t4) + t5` |
| ScreeningV8.SumLeftPresence | screening_v8.py:125-132 | a left sum is present exactly when every term is |
| ScreeningV8.WeightedScoreValue | screening_v8.py:125-132 | with all six components present, the score is Σ weight · component |
| ScreeningV8.WeightedScorePresence | screening_v8.py:125-132 | the score is present exactly when all six components are |
| ScreeningV8.ScaledWeightsScaleScore | screening_v8.py:117-132 | the score is linear in the weights: scaling all weights by k scales the score by k |
| ScreeningV8.ScoresUnder | screening_v8.py:125-132 | one score per row, that row's weighted score |
| ScreeningV8.RankedBy | screening_v8.py:125-134 | each row is paired with its weighted score |
| ScreeningV8.ScaledWeightsKeepOrder | screening_v8.py:117-134 | scaling every weight by a positive constant changes no pairwise ranking and no sortedness |
| ScreeningV8.Quality | screening_v8.py:106 | quality is present in every row (row `sum` skips NaN) |
| ScreeningV8.QualityIsSumOfZScores | screening_v8.py:106 | with its three columns standardisable, quality is z(roe) + z(revenue_growth) + z(eps_growth) |
| ScreeningV8.QualitySkipsMissing | screening_v8.py:106 | in every row, quality is the sum of the three z-scores with each missing one counted as 0 |
| ScreeningV8.QualityOfDegenerateColumns | screening_v8.py:106 | with none of the three columns standardisable, quality is 0 in every row |
| ScreeningV8.Value | screening_v8.py:109 | one value per row |
| ScreeningV8.ValueReversesPe | screening_v8.py:109 | value is present and reverses P/E order, both ways |
| ScreeningV8.DegeneratePeMissesEveryScore | screening_v8.py:109-132 | a P/E column that cannot be standardised makes every v8 score missing |
| ScreeningV8.Dip | screening_v8.py:112 | one dip per row |
| ScreeningV8.DipPositiveIffFalling | screening_v8.py:112 | dip is present and positive exactly when the two raw momenta sum below 0 |
| ScreeningV8.OffHigh | screening_v8.py:113 | one off-high value per row |
| ScreeningV8.OffHighNonNegative | screening_v8.py:113 | off-high is ≥ 0 in every row built by the extractor |
| ScreeningV8.ComponentsV8 | screening_v8.py:106-131 | one component record per candidate row |
| ScreeningV8.CandidatesV8 | screening_v8.py:92-95 | a row survives exactly when it has all nine columns and P/E < 30, as often as it occurs; the survivors are drawn from the rows |
| ScreeningV8.CandidatesV8Append | screening_v8.py:92-95 | the candidates of two pieces are the two pieces' candidates end to end, and one row is kept exactly when it survives: the rows keep their order |
| ScreeningV8.CandidateRowFacts | screening_v8.py:92-95 | a surviving row has the nine columns, P/E < 30 and a present drawdown ≤ 0 |
| ScreeningV8.ScreenV8 | screening_v8.py:79-135 | failure with the source's message exactly when no row survives; otherwise the top 10 by the v8 score, each with the nine columns, P/E < 30 and drawdown ≤ 0 |
| ScreeningV7.CandidatesV7 | screening_v7.py:90 | a row survives exactly when it has all six columns, as often as it occurs |
| ScreeningV7.CandidatesV7Append | screening_v7.py:90 | the candidates keep the rows' order, and one row is kept exactly when complete |
| ScreeningV7.ScoresV7 | screening_v7.py:110 | one score per row |
| ScreeningV7.ScoresV7AreWeighted | screening_v7.py:110 | the v7 score is the v8 weighted score with weights (1, 1, 0, 0, 1, −λ) on raw sharpe and volatility |
| ScreeningV7.V7Formula | screening_v7.py:110 | `q + v + (sharpe − λ·vol)` equals that weighted sum, cell by cell, missing included |
| ScreeningV7.ScreenV7 | screening_v7.py:78-112 | failure with the source's message exactly when no row survives; otherwise the top 10 by the v7 score, each with the six columns |
| RiskReturnScreening.OtherNumericColumnsMembers | stock_risk_return_screening.py:119-122 | the other numeric columns are exactly the numeric columns of the frame except sharpe and volatility |
| RiskReturnScreening.OtherNumericColumnsNoDuplicates | stock_risk_return_screening.py:119-122 | they repeat no column when the frame does not |
| RiskReturnScreening.OtherNumericColumnsInOrder | stock_risk_return_screening.py:119-122 | they keep the frame's column order |
| RiskReturnScreening.NumericColumns | stock_risk_return_screening.py:119-122 | `numeric_cols` starts with sharpe, then volatility |
| RiskReturnScreening.NumericColumnsMembers | stock_risk_return_screening.py:119-122 | `numeric_cols` holds sharpe, volatility and every numeric column of the frame, and nothing else; no duplicates when the frame has none |
| RiskReturnScreening.NoDuplicatesCons | stock_risk_return_screening.py:119 | putting a new column in front of a duplicate-free list keeps it duplicate-free |
| RiskReturnScreening.NumericColumnsOfCompleteFrame | stock_risk_return_screening.py:119-122 | over a frame holding every column once, `numeric_cols` is every column but the ticker, none twice |
| RiskReturnScreening.NumericColumnsOfFrame | stock_risk_return_screening.py:119-122 | for this frame, `numeric_cols` is every column but the ticker, none twice, with sharpe and volatility first and the rest in frame order |
| RiskReturnScreening.CandidatesRR | stock_risk_return_screening.py:108 | a row survives exactly when it has sharpe and volatility, as often as it occurs |
| RiskReturnScreening.CandidatesRRAppend | stock_risk_return_screening.py:108 | the candidates keep the rows' order, and one row is kept exactly when it has both |
| RiskReturnScreening.Combine | stock_risk_return_screening.py:134 | cell by cell, z(sharpe) − λ·z(volatility), missing when either is |
| RiskReturnScreening.ScoresRR | stock_risk_return_screening.py:134 | one score per candidate |
| RiskReturnScreening.Standardized | stock_risk_return_screening.py:125 | `df_std` has exactly the listed columns, each the z-scores of that column |
| RiskReturnScreening.ScoresRRFormula | stock_risk_return_screening.py:125-134 | with both columns standardisable, each candidate's score is present and equals its z(sharpe) − λ·z(volatility) |
| RiskReturnScreening.ScoresRRDegenerate | stock_risk_return_screening.py:125-134 | when sharpe or volatility cannot be standardised, every score is missing |
| RiskReturnScreening.SumOfCombine | stock_risk_return_screening.py:134 | over fully present columns, the scores sum to Σ z(sharpe) − λ·Σ z(volatility) |
| RiskReturnScreening.ScoresRRCentred | stock_risk_return_screening.py:125-134 | with both columns standardisable, the candidates' scores sum to 0 |
| RiskReturnScreening.StandardizedScores | stock_risk_return_screening.py:119-134 | `df_std` always has sharpe and volatility, so the check at lines 128-131 never fires, and the score read from `df_std` is `ScoresRR` |
| RiskReturnScreening.SelectedCandidatesComplete | stock_risk_return_screening.py:108-136 | every selected row has sharpe and volatility |
| RiskReturnScreening.ScoreCandidates | stock_risk_return_screening.py:119-134 | standardising `numeric_cols` and combining sharpe and volatility yields `ScoresRR` |
| RiskReturnScreening.RankRiskReturn | stock_risk_return_screening.py:107-136 | failure with the source's message exactly when no row has sharpe and volatility; otherwise the top 10 by `ScoresRR`, each with sharpe and volatility |
| RiskReturnScreening.ScreenRiskReturn | stock_risk_return_screening.py:96-136 | the same from the downloads: the rows are `Rows(inputs)`, built by the scanning loop |

## Left out

- Downloads (`yf.download`, `yf.Ticker(...).info`), `pd.read_csv` of the
  ticker list, `print` and `warnings` are input/output. Their results are
  the inputs in `TickerData`, and the ticker list is the order of `inputs`.
- Floating point: the model works over exact reals. It does not model
  IEEE-754 rounding, infinities, or NaN as a value. A missing value is
  `None`.
- `np.sqrt` is a parameter. Only the laws in `Stats.IsSqrt` are required where
  a lemma needs them.
- `pd.to_numeric(errors='coerce')` on strings: `Fundamentals.ParseDecimal`
  accepts plain decimals with an optional sign. Exponents, "inf", "nan",
  surrounding spaces and thousands separators are not parsed. Such text is
  treated as missing.
- Dictionary values other than numbers, text and None (lists, booleans) are
  not modelled.
- A frame's close prices are required to be positive (`ValidDownload`), so
  every percentage change is defined. The source does not check this. A
  zero close would put infinities into its returns.
- The `pd.to_numeric` loops over already-numeric columns
  (screening_v8.py:102-103, screening_v7.py:97-98,
  stock_risk_return_screening.py:115-116) change nothing and are not
  modelled as steps.
- The ticker loop's own `except` (screening_v8.py:87-88) never fires, since
  both extractors catch everything themselves. Every ticker therefore gets
  a row.
- With an empty ticker list, `pandas` raises a `KeyError` in `dropna`
  before the "no candidates" message. The model returns the
  no-candidates failure.
- `df_std['score']` (stock_risk_return_screening.py:134) is written but
  never read, and is not modelled.
- The final column projection of `head(10)[[...]]` is not modelled. The
  result holds whole rows with their scores.
- The diagnostic prints of `numeric_cols` and `df_std.columns` are not
  modelled.
- PriceFeatures.BenchmarkOf: when the SPY frame has two columns under its
  first close name, pandas hands a two-column frame to `np.var` and `np.cov`
  (screening_v8.py:50-58). Depending on the overlap length this raises (all
  six features missing), gives a beta over mixed columns, or gives no beta.
  The model reads the first of those columns as the benchmark instead.
- Ranking.TopN: does not fix the order among equal scores, because
  pandas' default quicksort is not stable.
- Standardize.ZScores: the sample variance of the z-scores equalling 1 is
  not proved. Only centring, monotonicity and the round trip are.
- RiskReturnScreening.NumericColumnsMembers: duplicate column names in a
  frame are not modelled. The frame built from the row dictionaries has
  13 distinct columns.
- test_yfinance_data.py only downloads and prints. It is not part of this
  model.
- export_qcom_data.py writes one ticker's metrics to a spreadsheet. Its
  formulas repeat `get_statistical_features`. It is not part of this model.
