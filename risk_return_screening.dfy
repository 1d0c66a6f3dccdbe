/**
 * stock_risk_return_screening.py: rows without sharpe or volatility are
 * dropped, every numeric column is standardised, and the score is the
 * standardised sharpe minus lambda times the standardised volatility; the
 * ten best are kept.
 */
module RiskReturnScreening {
  import opened Wrappers
  import opened Stats
  import opened Missing
  import opened Standardize
  import opened Ranking
  import opened FeatureTable
  import opened ScreenConfig

  const RR_REQUIRED := [Sharpe, Volatility]

  /** The ValueError raised when no row has both sharpe and volatility. */
  const RR_NO_CANDIDATES := "No stocks with valid sharpe and volatility. Try different tickers or check your internet connection."

  /** `select_dtypes(include=[np.number])`: every column but the ticker holds floats. */
  predicate IsNumeric(c: Col)
  {
    c != Ticker
  }

  predicate NoDuplicates<T(==)>(s: seq<T>)
  {
    forall i, j :: 0 <= i < j < |s| ==> s[i] != s[j]
  }

  /** A numeric column other than the two listed first. */
  predicate OtherNumeric(c: Col)
  {
    IsNumeric(c) && c != Sharpe && c != Volatility
  }

  /** The numeric columns of cols other than sharpe and volatility, in frame order. */
  function OtherNumericColumns(cols: seq<Col>): seq<Col>
  {
    if |cols| == 0 then []
    else (if OtherNumeric(cols[0]) then [cols[0]] else []) + OtherNumericColumns(cols[1..])
  }

  lemma {:induction false} OtherNumericColumnsMembers(cols: seq<Col>)
    ensures forall c :: c in OtherNumericColumns(cols) <==> c in cols && OtherNumeric(c)
  {
    if |cols| > 0 {
      OtherNumericColumnsMembers(cols[1..]);
      assert cols == [cols[0]] + cols[1..];
    }
  }

  lemma {:induction false} OtherNumericColumnsNoDuplicates(cols: seq<Col>)
    requires NoDuplicates(cols)
    ensures NoDuplicates(OtherNumericColumns(cols))
  {
    if |cols| > 0 {
      assert NoDuplicates(cols[1..]) by {
        forall i, j | 0 <= i < j < |cols[1..]| ensures cols[1..][i] != cols[1..][j] {
          assert cols[1..][i] == cols[i + 1] && cols[1..][j] == cols[j + 1];
        }
      }
      OtherNumericColumnsNoDuplicates(cols[1..]);
      OtherNumericColumnsMembers(cols[1..]);
      if OtherNumeric(cols[0]) {
        assert cols[0] !in cols[1..];
        NoDuplicatesCons(cols[0], OtherNumericColumns(cols[1..]));
      }
    }
  }

  /** The columns appear in the order the frame holds them. */
  predicate InFrameOrder(cs: seq<Col>)
  {
    forall i, j :: 0 <= i < j < |cs| ==> Position(cs[i]) < Position(cs[j])
  }

  /** Every column of cs lies after position p of the frame. */
  predicate AllAfter(p: nat, cs: seq<Col>)
  {
    forall k :: 0 <= k < |cs| ==> p < Position(cs[k])
  }

  lemma {:induction false} OtherNumericColumnsAfter(p: nat, cols: seq<Col>)
    requires AllAfter(p, cols)
    ensures AllAfter(p, OtherNumericColumns(cols))
  {
    if |cols| > 0 {
      assert AllAfter(p, cols[1..]) by {
        forall k | 0 <= k < |cols[1..]| ensures p < Position(cols[1..][k]) {
          assert cols[1..][k] == cols[k + 1];
        }
      }
      OtherNumericColumnsAfter(p, cols[1..]);
    }
  }

  /** Selecting the other numeric columns keeps the frame's order. */
  lemma {:induction false} OtherNumericColumnsInOrder(cols: seq<Col>)
    requires InFrameOrder(cols)
    ensures InFrameOrder(OtherNumericColumns(cols))
  {
    if |cols| > 0 {
      var rest := cols[1..];
      assert InFrameOrder(rest) by {
        forall i, j | 0 <= i < j < |rest| ensures Position(rest[i]) < Position(rest[j]) {
          assert rest[i] == cols[i + 1] && rest[j] == cols[j + 1];
        }
      }
      OtherNumericColumnsInOrder(rest);
      if OtherNumeric(cols[0]) {
        var r := OtherNumericColumns(rest);
        assert AllAfter(Position(cols[0]), rest) by {
          forall k | 0 <= k < |rest| ensures Position(cols[0]) < Position(rest[k]) {
            assert rest[k] == cols[k + 1];
          }
        }
        OtherNumericColumnsAfter(Position(cols[0]), rest);
        var s := [cols[0]] + r;
        assert OtherNumericColumns(cols) == s;
        forall i, j | 0 <= i < j < |s| ensures Position(s[i]) < Position(s[j]) {
          assert s[j] == r[j - 1];
          if i > 0 {
            assert s[i] == r[i - 1];
          }
        }
      }
    }
  }

  /** `['sharpe', 'volatility'] + [col for col in numeric columns if col not in ['sharpe', 'volatility']]`. */
  function NumericColumns(cols: seq<Col>): (nc: seq<Col>)
    ensures |nc| >= 2 && nc[0] == Sharpe && nc[1] == Volatility
  {
    [Sharpe, Volatility] + OtherNumericColumns(cols)
  }

  /** Every numeric column is listed, sharpe and volatility always, and nothing else; none twice when the frame has no duplicate columns. */
  lemma NumericColumnsMembers(cols: seq<Col>)
    ensures forall c :: c in NumericColumns(cols) <==> c == Sharpe || c == Volatility || (c in cols && IsNumeric(c))
    ensures NoDuplicates(cols) ==> NoDuplicates(NumericColumns(cols))
  {
    var rest := OtherNumericColumns(cols);
    OtherNumericColumnsMembers(cols);
    if NoDuplicates(cols) {
      OtherNumericColumnsNoDuplicates(cols);
      NoDuplicatesCons(Volatility, rest);
      NoDuplicatesCons(Sharpe, [Volatility] + rest);
      assert [Sharpe] + ([Volatility] + rest) == NumericColumns(cols);
    }
  }

  lemma NoDuplicatesCons<T>(x: T, t: seq<T>)
    requires x !in t && NoDuplicates(t)
    ensures NoDuplicates([x] + t)
  {
    var s := [x] + t;
    forall i, j | 0 <= i < j < |s| ensures s[i] != s[j] {
      assert s[j] == t[j - 1];
      if i > 0 {
        assert s[i] == t[i - 1];
      }
    }
  }

  lemma NumericColumnsOfCompleteFrame(cols: seq<Col>)
    requires NoDuplicates(cols) && forall c :: c in cols
    ensures forall c :: c in NumericColumns(cols) <==> c != Ticker
    ensures NoDuplicates(NumericColumns(cols))
  {
    NumericColumnsMembers(cols);
  }

  /**
   * For this frame: every column but the ticker is standardised, none twice,
   * sharpe and volatility first and the others after them in frame order.
   */
  lemma NumericColumnsOfFrame()
    ensures forall c :: c in NumericColumns(COLUMNS) <==> c != Ticker
    ensures NoDuplicates(NumericColumns(COLUMNS))
    ensures InFrameOrder(NumericColumns(COLUMNS)[2..])
  {
    ColumnsAreDistinctAndComplete();
    assert NoDuplicates(COLUMNS);
    NumericColumnsOfCompleteFrame(COLUMNS);
    assert InFrameOrder(COLUMNS) by {
      forall i, j | 0 <= i < j < |COLUMNS| ensures Position(COLUMNS[i]) < Position(COLUMNS[j]) {
        assert COLUMNS[i] == ColumnAt(i) && COLUMNS[j] == ColumnAt(j);
      }
    }
    OtherNumericColumnsInOrder(COLUMNS);
    assert NumericColumns(COLUMNS)[2..] == OtherNumericColumns(COLUMNS);
  }

  /** `df.dropna(subset=['sharpe', 'volatility'])`. */
  function CandidatesRR(rows: seq<Row>): (df: seq<Row>)
    ensures multiset(df) <= multiset(rows)
    ensures forall i :: 0 <= i < |df| ==> df[i] in rows && HasAll(df[i], RR_REQUIRED)
    ensures forall i :: 0 <= i < |rows| ==> (rows[i] in df <==> HasAll(rows[i], RR_REQUIRED))
    ensures forall r :: multiset(df)[r] == if HasAll(r, RR_REQUIRED) then multiset(rows)[r] else 0
  {
    DropNa(rows, RR_REQUIRED)
  }

  /** The candidates keep the order of the rows. */
  lemma CandidatesRRAppend(a: seq<Row>, b: seq<Row>)
    ensures CandidatesRR(a + b) == CandidatesRR(a) + CandidatesRR(b)
    ensures forall r :: CandidatesRR([r]) == if HasAll(r, RR_REQUIRED) then [r] else []
  {
    DropNaAppend(a, b, RR_REQUIRED);
  }

  /** `z_sharpe - RISK_AVERSION_LAMBDA * z_volatility`, element by element, missing where either is. */
  function Combine(zs: seq<Option<real>>, zv: seq<Option<real>>): (s: seq<Option<real>>)
    requires |zs| == |zv|
    ensures |s| == |zs|
    ensures forall i :: 0 <= i < |s| ==> s[i] == Sub(zs[i], Scale(RISK_AVERSION_LAMBDA, zv[i]))
  {
    seq(|zs|, i requires 0 <= i < |zs| => Sub(zs[i], Scale(RISK_AVERSION_LAMBDA, zv[i])))
  }

  /** `df_std['sharpe'] - RISK_AVERSION_LAMBDA * df_std['volatility']`. */
  function ScoresRR(df: seq<Row>, sqrt: real -> real): (s: seq<Option<real>>)
    ensures |s| == |df|
  {
    Combine(ZScores(Column(df, Sharpe), sqrt), ZScores(Column(df, Volatility), sqrt))
  }

  /** `df[numeric_cols].apply(lambda x: (x - x.mean()) / x.std())`, keyed by column. */
  function Standardized(df: seq<Row>, cols: seq<Col>, sqrt: real -> real): (dfStd: map<Col, seq<Option<real>>>)
    ensures forall c :: c in dfStd <==> c in cols
    ensures forall c :: c in dfStd ==> dfStd[c] == ZScores(Column(df, c), sqrt)
  {
    map c | c in cols :: ZScores(Column(df, c), sqrt)
  }

  /** With both columns standardisable, the score of each candidate is its z(sharpe) minus lambda times its z(volatility). */
  lemma ScoresRRFormula(df: seq<Row>, sqrt: real -> real, i: nat)
    requires i < |df| && HasAll(df[i], RR_REQUIRED)
    requires Standardizable(Column(df, Sharpe), sqrt) && Standardizable(Column(df, Volatility), sqrt)
    ensures ScoresRR(df, sqrt)[i].Some?
    ensures var s := Present(Column(df, Sharpe));
      var v := Present(Column(df, Volatility));
      ScoresRR(df, sqrt)[i].value
      == ZScore(Field(df[i], Sharpe).value, Mean(s), Std(s, sqrt))
       - RISK_AVERSION_LAMBDA * ZScore(Field(df[i], Volatility).value, Mean(v), Std(v, sqrt))
  {
    assert Field(df[i], RR_REQUIRED[0]).Some? && Field(df[i], RR_REQUIRED[1]).Some?;
  }

  /** When sharpe or volatility cannot be standardised (fewer than two rows, or all equal), every score is missing. */
  lemma ScoresRRDegenerate(df: seq<Row>, sqrt: real -> real)
    requires !Standardizable(Column(df, Sharpe), sqrt) || !Standardizable(Column(df, Volatility), sqrt)
    ensures forall i :: 0 <= i < |df| ==> ScoresRR(df, sqrt)[i].None?
  {
  }

  /** Over fully present columns, the combined scores sum to the sum of the first minus lambda times the sum of the second. */
  lemma {:induction false} SumOfCombine(a: seq<Option<real>>, b: seq<Option<real>>)
    requires |a| == |b|
    requires forall i :: 0 <= i < |a| ==> a[i].Some? && b[i].Some?
    ensures Sum(Present(Combine(a, b))) == Sum(Present(a)) - Mul(RISK_AVERSION_LAMBDA, Sum(Present(b)))
  {
    var d := Combine(a, b);
    if |a| > 0 {
      SumOfCombine(a[1..], b[1..]);
      assert d[1..] == Combine(a[1..], b[1..]);
      assert Present(d) == [d[0].value] + Present(d[1..]);
      assert Present(a) == [a[0].value] + Present(a[1..]);
      assert Present(b) == [b[0].value] + Present(b[1..]);
      MulDistributes(RISK_AVERSION_LAMBDA, b[0].value, Sum(Present(b[1..])));
    }
  }

  /** With both columns standardisable, the candidates' scores sum to zero. */
  lemma ScoresRRCentred(rows: seq<Row>, sqrt: real -> real)
    requires var df := CandidatesRR(rows);
      Standardizable(Column(df, Sharpe), sqrt) && Standardizable(Column(df, Volatility), sqrt)
    ensures Sum(Present(ScoresRR(CandidatesRR(rows), sqrt))) == 0.0
  {
    var df := CandidatesRR(rows);
    var zs := ZScores(Column(df, Sharpe), sqrt);
    var zv := ZScores(Column(df, Volatility), sqrt);
    forall i | 0 <= i < |df| ensures zs[i].Some? && zv[i].Some? {
      assert Field(df[i], RR_REQUIRED[0]).Some? && Field(df[i], RR_REQUIRED[1]).Some?;
    }
    SumOfCombine(zs, zv);
    ZScoresCentred(Column(df, Sharpe), sqrt);
    ZScoresCentred(Column(df, Volatility), sqrt);
    MulZero(0.0, RISK_AVERSION_LAMBDA);
  }

  /** The standardised frame has both ranked columns, so the check for them cannot fire, and the score computed from it is ScoresRR. */
  lemma StandardizedScores(df: seq<Row>, cols: seq<Col>, sqrt: real -> real)
    ensures var dfStd := Standardized(df, NumericColumns(cols), sqrt);
      && Sharpe in dfStd && Volatility in dfStd
      && |dfStd[Sharpe]| == |dfStd[Volatility]|
      && Combine(dfStd[Sharpe], dfStd[Volatility]) == ScoresRR(df, sqrt)
  {
  }

  /** Whatever is selected from the scored candidates has both sharpe and volatility. */
  lemma SelectedCandidatesComplete(df: seq<Row>, score: seq<Option<real>>, top: seq<Ranked<Row>>)
    requires |df| == |score| && multiset(top) <= multiset(Zip(df, score))
    requires forall i :: 0 <= i < |df| ==> HasAll(df[i], RR_REQUIRED)
    ensures forall k :: 0 <= k < |top| ==> HasAll(top[k].item, RR_REQUIRED)
  {
    SelectionFromZip(top, df, score);
    forall k | 0 <= k < |top| ensures HasAll(top[k].item, RR_REQUIRED) {
      var j :| 0 <= j < |df| && df[j] == top[k].item;
    }
  }

  /** Standardise every numeric column of the candidates, then score them from the standardised sharpe and volatility. */
  method ScoreCandidates(df: seq<Row>, sqrt: real -> real) returns (score: seq<Option<real>>)
    ensures score == ScoresRR(df, sqrt)
  {
    var numericCols := NumericColumns(COLUMNS);
    var dfStd := Standardized(df, numericCols, sqrt);
    StandardizedScores(df, COLUMNS, sqrt);
    score := Combine(dfStd[Sharpe], dfStd[Volatility]);
  }

  /** Everything the script does once the feature matrix is built: drop incomplete rows, standardise, score and keep the best. */
  method RankRiskReturn(rows: seq<Row>, sqrt: real -> real) returns (result: Result<seq<Ranked<Row>>, ScreenError>)
    ensures var df := CandidatesRR(rows);
      && (result.Failure? <==> |df| == 0)
      && (result.Success? ==> IsTopN(result.value, Zip(df, ScoresRR(df, sqrt)), TOP_N))
    ensures result.Failure? ==> result.error == NoCandidates(RR_NO_CANDIDATES)
    ensures result.Success? ==> forall k :: 0 <= k < |result.value| ==> HasAll(result.value[k].item, RR_REQUIRED)
  {
    var df := CandidatesRR(rows);
    if |df| == 0 {
      return Failure(NoCandidates(RR_NO_CANDIDATES));
    }
    var score := ScoreCandidates(df, sqrt);
    var ranked := Zip(df, score);
    var top := TopN(ranked, TOP_N);
    SelectedCandidatesComplete(df, score, top);
    result := Success(top);
  }

  /** The whole script from the downloaded data to the ten best rows and their scores. */
  method ScreenRiskReturn(inputs: seq<TickerData>, sqrt: real -> real) returns (result: Result<seq<Ranked<Row>>, ScreenError>)
    requires ValidInputs(inputs)
    ensures var df := CandidatesRR(Rows(inputs, sqrt));
      && (result.Failure? <==> |df| == 0)
      && (result.Success? ==> IsTopN(result.value, Zip(df, ScoresRR(df, sqrt)), TOP_N))
    ensures result.Failure? ==> result.error == NoCandidates(RR_NO_CANDIDATES)
    ensures result.Success? ==> forall k :: 0 <= k < |result.value| ==> HasAll(result.value[k].item, RR_REQUIRED)
  {
    var rows := BuildFeaturesByScan(inputs, sqrt);
    result := RankRiskReturn(rows, sqrt);
  }
}
