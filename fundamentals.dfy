/**
 * Fundamentals normalisation (`get_fundamentals`): six named entries of a
 * ticker's info dictionary, each coerced to a number on its own, missing
 * when absent or not numeric, and all six missing when the fetch fails.
 */
module Fundamentals {
  import opened Wrappers
  import Stats

  /** A value in the info dictionary. */
  datatype InfoValue =
    | Number(x: real)
    | Text(s: string)
    | NoValue          // Python None

  type Info = map<string, InfoValue>

  const PE_KEY := "trailingPE"
  const ROE_KEY := "returnOnEquity"
  const DEBT_EQUITY_KEY := "debtToEquity"
  const INSIDER_KEY := "heldPercentInsiders"
  const REVENUE_GROWTH_KEY := "revenueGrowth"
  const EPS_GROWTH_KEY := "earningsGrowth"

  const KEYS := [PE_KEY, ROE_KEY, DEBT_EQUITY_KEY, INSIDER_KEY, REVENUE_GROWTH_KEY, EPS_GROWTH_KEY]

  predicate IsDigit(c: char)
  {
    '0' <= c <= '9'
  }

  predicate AllDigits(s: string)
  {
    forall i :: 0 <= i < |s| ==> IsDigit(s[i])
  }

  function DigitValue(c: char): (d: nat)
    requires IsDigit(c)
    ensures d < 10
  {
    (c as int - '0' as int) as nat
  }

  function DigitChar(d: nat): (c: char)
    requires d < 10
    ensures IsDigit(c) && DigitValue(c) == d
  {
    ('0' as int + d) as char
  }

  /** The value of a string of decimal digits, most significant first. */
  function DigitsValue(s: string): nat
    requires AllDigits(s)
  {
    if |s| == 0 then 0 else 10 * DigitsValue(s[..|s| - 1]) + DigitValue(s[|s| - 1])
  }

  function Pow10(k: nat): (p: nat)
    ensures p >= 1
  {
    if k == 0 then 1 else 10 * Pow10(k - 1)
  }

  /** The shortest decimal spelling of n. */
  function NatToString(n: nat): (s: string)
    ensures |s| > 0 && AllDigits(s)
  {
    if n < 10 then [DigitChar(n)] else NatToString(n / 10) + [DigitChar(n % 10)]
  }

  lemma {:induction false} NatToStringValue(n: nat)
    ensures DigitsValue(NatToString(n)) == n
  {
    if n >= 10 {
      var s := NatToString(n);
      assert s[..|s| - 1] == NatToString(n / 10);
      NatToStringValue(n / 10);
    }
  }

  function IndexOfDot(s: string): (k: nat)
    ensures k <= |s|
    ensures forall i :: 0 <= i < k ==> s[i] != '.'
    ensures k < |s| ==> s[k] == '.'
  {
    if |s| == 0 then 0 else if s[0] == '.' then 0 else 1 + IndexOfDot(s[1..])
  }

  /** The value of a decimal with the given whole and fractional digits. */
  function DecimalValue(whole: string, frac: string): real
    requires AllDigits(whole) && AllDigits(frac)
  {
    DigitsValue(whole) as real + DigitsValue(frac) as real / Pow10(|frac|) as real
  }

  /** k digits spell a number below 10^k. */
  lemma {:induction false} DigitsValueBelowPow10(s: string)
    requires AllDigits(s)
    ensures DigitsValue(s) < Pow10(|s|)
  {
    if |s| > 0 {
      DigitsValueBelowPow10(s[..|s| - 1]);
    }
  }

  /** The fractional digits add less than one to the whole part. */
  lemma DecimalValueBounds(whole: string, frac: string)
    requires AllDigits(whole) && AllDigits(frac)
    ensures DigitsValue(whole) as real <= DecimalValue(whole, frac) < DigitsValue(whole) as real + 1.0
  {
    DigitsValueBelowPow10(frac);
    var p := Pow10(|frac|) as real;
    Stats.RatioMinusOne(DigitsValue(frac) as real, p);
    Stats.DivMonotone(0.0, DigitsValue(frac) as real, p);
  }

  /** Digits, optionally followed by a point and more digits; at least one digit in all. */
  function ParseUnsigned(s: string): (r: Option<real>)
    ensures r.Some? ==> r.value >= 0.0
    ensures r.Some? ==> |s| > 0
    ensures AllDigits(s) && |s| > 0 ==> r == Some(DigitsValue(s) as real)
  {
    var k := IndexOfDot(s);
    var whole := s[..k];
    if k == |s| then
      if |s| > 0 && AllDigits(s) then Some(DigitsValue(s) as real) else None
    else
      var frac := s[k + 1..];
      if AllDigits(whole) && AllDigits(frac) && |whole| + |frac| > 0 then
        Some(DecimalValue(whole, frac))
      else None
  }

  /**
   * The plain decimal strings that coercion accepts: an optional sign, then
   * digits with an optional fractional part. Anything else is missing.
   */
  function ParseDecimal(s: string): (r: Option<real>)
    ensures r.Some? ==> |s| > 0
    ensures r.Some? && s[0] == '-' ==> r.value <= 0.0
    ensures r.Some? && s[0] != '-' ==> r.value >= 0.0
  {
    if |s| > 0 && s[0] == '-' then
      match ParseUnsigned(s[1..])
      case None => None
      case Some(x) => Some(-x)
    else if |s| > 0 && s[0] == '+' then ParseUnsigned(s[1..])
    else ParseUnsigned(s)
  }

  /** Decimal integers, signed or not, parse back to the number they spell. */
  lemma ParseDecimalOfInteger(n: nat)
    ensures ParseDecimal(NatToString(n)) == Some(n as real)
    ensures ParseDecimal("+" + NatToString(n)) == Some(n as real)
    ensures ParseDecimal("-" + NatToString(n)) == Some(-(n as real))
  {
    var s := NatToString(n);
    NatToStringValue(n);
    assert ("+" + s)[1..] == s;
    assert ("-" + s)[1..] == s;
  }

  /** In digits, a point and anything after them, the first point is the one after the digits. */
  lemma {:induction false} IndexOfDotAfterDigits(whole: string, rest: string)
    requires AllDigits(whole)
    ensures IndexOfDot(whole + "." + rest) == |whole|
  {
    if |whole| > 0 {
      assert (whole + "." + rest)[1..] == whole[1..] + "." + rest;
      IndexOfDotAfterDigits(whole[1..], rest);
    }
  }

  /** Digits, a point and digits parse to the whole part plus the fraction's digits over the matching power of ten. */
  lemma ParseUnsignedOfFraction(whole: string, frac: string)
    requires AllDigits(whole) && AllDigits(frac) && |whole| + |frac| > 0
    ensures ParseUnsigned(whole + "." + frac) == Some(DecimalValue(whole, frac))
  {
    var s := whole + "." + frac;
    IndexOfDotAfterDigits(whole, frac);
    var k := IndexOfDot(s);
    assert k == |whole| < |s|;
    assert s[..k] == whole;
    assert s[k + 1..] == frac;
  }

  /**
   * Decimals with a fractional part, signed or not, parse to that value;
   * either the whole part or the fraction may be empty, but not both.
   */
  lemma ParseDecimalOfFraction(whole: string, frac: string)
    requires AllDigits(whole) && AllDigits(frac) && |whole| + |frac| > 0
    ensures var s, v := whole + "." + frac, DecimalValue(whole, frac);
      && ParseDecimal(s) == Some(v)
      && ParseDecimal("+" + s) == Some(v)
      && ParseDecimal("-" + s) == Some(-v)
  {
    var s := whole + "." + frac;
    ParseUnsignedOfFraction(whole, frac);
    assert s[0] != '-' && s[0] != '+' by {
      if |whole| > 0 {
        assert s[0] == whole[0];
      }
    }
    SignedParse(s);
  }

  /** A text without a sign parses as unsigned; a `+` in front changes nothing and a `-` negates. */
  lemma SignedParse(s: string)
    requires |s| > 0 && s[0] != '-' && s[0] != '+'
    ensures ParseDecimal(s) == ParseUnsigned(s)
    ensures ParseDecimal("+" + s) == ParseUnsigned(s)
    ensures ParseDecimal("-" + s) == if ParseUnsigned(s).Some? then Some(-ParseUnsigned(s).value) else None
  {
    assert ("+" + s)[1..] == s;
    assert ("-" + s)[1..] == s;
  }

  /** Words such as a placeholder "N/A" or an empty string coerce to missing. */
  lemma NonNumericTextIsMissing(s: string)
    requires forall i :: 0 <= i < |s| ==> !IsDigit(s[i])
    ensures ParseDecimal(s) == None
  {
    if |s| > 0 && (s[0] == '-' || s[0] == '+') {
      NoDigitsUnparsed(s[1..]);
    } else {
      NoDigitsUnparsed(s);
    }
  }

  lemma NoDigitsUnparsed(s: string)
    requires forall i :: 0 <= i < |s| ==> !IsDigit(s[i])
    ensures ParseUnsigned(s) == None
  {
    var k := IndexOfDot(s);
    if k < |s| {
      if |s[..k]| > 0 {
        assert !IsDigit(s[..k][0]);
      } else if |s[k + 1..]| > 0 {
        assert !IsDigit(s[k + 1..][0]);
      }
    } else if |s| > 0 {
      assert !IsDigit(s[0]);
    }
  }

  /**
   * The unsigned texts coercion accepts, described character by character:
   * only digits and points, at most one point, and not the point alone.
   */
  predicate PlainUnsigned(s: string)
  {
    && |s| > 0
    && s != "."
    && (forall i :: 0 <= i < |s| ==> IsDigit(s[i]) || s[i] == '.')
    && (forall i, j :: 0 <= i < j < |s| && s[i] == '.' ==> s[j] != '.')
  }

  /** A plain unsigned text, or one behind a single `-` or `+`. */
  predicate PlainDecimal(s: string)
  {
    PlainUnsigned(s) || (|s| > 0 && (s[0] == '-' || s[0] == '+') && PlainUnsigned(s[1..]))
  }

  /** The unsigned parser accepts exactly the plain unsigned texts. */
  lemma ParseUnsignedAccepts(s: string)
    ensures ParseUnsigned(s).Some? <==> PlainUnsigned(s)
  {
    var k := IndexOfDot(s);
    if k == |s| {
      if PlainUnsigned(s) {
        assert AllDigits(s);
      }
    } else {
      var whole, frac := s[..k], s[k + 1..];
      if ParseUnsigned(s).Some? {
        assert AllDigits(whole) && AllDigits(frac);
        forall i | 0 <= i < |s| ensures IsDigit(s[i]) || s[i] == '.' {
          if i < k {
            assert s[i] == whole[i];
          } else if i > k {
            assert s[i] == frac[i - k - 1];
          }
        }
        forall i, j | 0 <= i < j < |s| && s[i] == '.' ensures s[j] != '.' {
          assert s[j] == frac[j - k - 1];
        }
        assert |s| > 1;
        assert s != "." by {
          assert |"."| == 1;
        }
      }
      if PlainUnsigned(s) {
        assert AllDigits(whole) by {
          forall i | 0 <= i < |whole| ensures IsDigit(whole[i]) {
            assert whole[i] == s[i];
          }
        }
        assert AllDigits(frac) by {
          forall i | 0 <= i < |frac| ensures IsDigit(frac[i]) {
            assert frac[i] == s[k + 1 + i];
          }
        }
      }
    }
  }

  /** Coercion of text yields a number exactly for the plain decimals; any other text is missing. */
  lemma ParseDecimalAccepts(s: string)
    ensures ParseDecimal(s).Some? <==> PlainDecimal(s)
  {
    ParseUnsignedAccepts(s);
    if |s| > 0 && (s[0] == '-' || s[0] == '+') {
      ParseUnsignedAccepts(s[1..]);
      assert !PlainUnsigned(s) by {
        assert !(IsDigit(s[0]) || s[0] == '.');
      }
    }
  }

  /**
   * A character that is neither a digit nor a point, other than one leading
   * sign, makes the text missing: "12abc", "1e5", "1,000", " 12", "--5".
   */
  lemma ForeignCharacterIsMissing(s: string, i: nat)
    requires i < |s| && !IsDigit(s[i]) && s[i] != '.'
    requires i > 0 || (s[0] != '-' && s[0] != '+')
    ensures ParseDecimal(s) == None
  {
    ParseDecimalAccepts(s);
    if i > 0 && |s| > 0 && (s[0] == '-' || s[0] == '+') {
      assert s[1..][i - 1] == s[i];
    }
  }

  /** A second point makes the text missing: "1.2.3". */
  lemma SecondPointIsMissing(s: string, i: nat, j: nat)
    requires i < j < |s| && s[i] == '.' && s[j] == '.'
    ensures ParseDecimal(s) == None
  {
    ParseDecimalAccepts(s);
    if s[0] == '-' || s[0] == '+' {
      assert i > 0;
      assert s[1..][i - 1] == s[i] && s[1..][j - 1] == s[j];
    }
  }

  /** `pd.to_numeric(v, errors='coerce')` on one dictionary value. */
  function ToNumeric(v: InfoValue): (r: Option<real>)
    ensures v.Number? ==> r == Some(v.x)
    ensures v.NoValue? ==> r.None?
    ensures v.Text? ==> r == ParseDecimal(v.s)
  {
    match v
    case Number(x) => Some(x)
    case Text(s) => ParseDecimal(s)
    case NoValue => None
  }

  /** `pd.to_numeric(info.get(key, np.nan), errors='coerce')`. */
  function Coerce(info: Info, key: string): (r: Option<real>)
    ensures key !in info ==> r.None?
    ensures key in info && info[key].Number? ==> r == Some(info[key].x)
    ensures key in info && info[key].NoValue? ==> r.None?
  {
    if key in info then ToNumeric(info[key]) else None
  }

  datatype FundamentalFeatures = FundamentalFeatures(
    pe: Option<real>,
    roe: Option<real>,
    debtEquity: Option<real>,
    insiderOwn: Option<real>,
    revenueGrowth: Option<real>,
    epsGrowth: Option<real>)

  const MISSING_FUNDAMENTALS := FundamentalFeatures(None, None, None, None, None, None)

  /** The fields in the order of their keys. */
  function FieldsOf(f: FundamentalFeatures): seq<Option<real>>
  {
    [f.pe, f.roe, f.debtEquity, f.insiderOwn, f.revenueGrowth, f.epsGrowth]
  }

  /**
   * `get_fundamentals`, with the info dictionary as input: None is a fetch
   * that raised, which the handler turns into six missing fields.
   */
  function GetFundamentals(info: Option<Info>): (f: FundamentalFeatures)
    ensures info.None? ==> f == MISSING_FUNDAMENTALS
    ensures info.Some? ==> forall i :: 0 <= i < |KEYS| ==> FieldsOf(f)[i] == Coerce(info.value, KEYS[i])
  {
    match info
    case None => MISSING_FUNDAMENTALS
    case Some(m) =>
      FundamentalFeatures(
        Coerce(m, PE_KEY),
        Coerce(m, ROE_KEY),
        Coerce(m, DEBT_EQUITY_KEY),
        Coerce(m, INSIDER_KEY),
        Coerce(m, REVENUE_GROWTH_KEY),
        Coerce(m, EPS_GROWTH_KEY))
  }

  /** Each field is coerced on its own: rewriting one key changes that field and no other. */
  lemma FieldsIndependent(m: Info, i: nat, v: InfoValue)
    requires i < |KEYS|
    ensures var before := FieldsOf(GetFundamentals(Some(m)));
      var after := FieldsOf(GetFundamentals(Some(m[KEYS[i] := v])));
      && after[i] == ToNumeric(v)
      && forall j :: 0 <= j < |KEYS| && j != i ==> after[j] == before[j]
  {
    var m' := m[KEYS[i] := v];
    forall j | 0 <= j < |KEYS| && j != i
      ensures Coerce(m', KEYS[j]) == Coerce(m, KEYS[j])
    {
      assert KEYS[j] != KEYS[i];
    }
  }

  /** Keys other than the six never matter. */
  lemma OtherKeysIgnored(m: Info, key: string, v: InfoValue)
    requires key !in KEYS
    ensures GetFundamentals(Some(m[key := v])) == GetFundamentals(Some(m))
  {
  }
}
