/**
 * The small string core shared by the three screening scripts: yfinance may
 * return its columns as a MultiIndex of tuples, which the scripts flatten to
 * single names (`'_'.join(parts).strip('_')`), and the close-price column is
 * the first one whose name starts with "Close".
 */
module ColumnNames {
  import opened Wrappers

  /** The columns of a downloaded frame: plain names, or a MultiIndex of name tuples. */
  datatype ColumnIndex = Flat(names: seq<string>) | Multi(tuples: seq<seq<string>>)

  function Width(index: ColumnIndex): nat
  {
    match index
    case Flat(names) => |names|
    case Multi(tuples) => |tuples|
  }

  /** `sep.join(parts)`. */
  function Join(parts: seq<string>, sep: char): string
  {
    if |parts| == 0 then ""
    else if |parts| == 1 then parts[0]
    else parts[0] + [sep] + Join(parts[1..], sep)
  }

  /** The position of the first ch in s, or |s| when there is none. */
  function IndexOf(s: string, ch: char): (k: nat)
    ensures k <= |s|
    ensures forall i :: 0 <= i < k ==> s[i] != ch
    ensures k < |s| ==> s[k] == ch
  {
    if |s| == 0 || s[0] == ch then 0 else 1 + IndexOf(s[1..], ch)
  }

  /** `s.split(sep)`: the pieces between the copies of sep, one more than there are copies. */
  function Split(s: string, sep: char): (parts: seq<string>)
    ensures |parts| > 0
    ensures forall i :: 0 <= i < |parts| ==> sep !in parts[i]
    decreases |s|
  {
    var k := IndexOf(s, sep);
    if k == |s| then [s] else [s[..k]] + Split(s[k + 1..], sep)
  }

  /** Joining the pieces of a split gives back the string. */
  lemma {:induction false} JoinSplit(s: string, sep: char)
    ensures Join(Split(s, sep), sep) == s
    decreases |s|
  {
    var k := IndexOf(s, sep);
    if k < |s| {
      var rest := s[k + 1..];
      var tail := Split(rest, sep);
      var parts := Split(s, sep);
      assert parts == [s[..k]] + tail;
      assert |parts| >= 2 && parts[0] == s[..k] && parts[1..] == tail;
      JoinSplit(rest, sep);
      assert Join(parts, sep) == s[..k] + [sep] + Join(tail, sep);
      assert s == s[..k] + [sep] + rest;
    }
  }

  /** In prefix + [ch] + rest, with no ch in prefix, the first ch is the one after the prefix. */
  lemma {:induction false} IndexOfAfter(prefix: string, ch: char, rest: string)
    requires ch !in prefix
    ensures IndexOf(prefix + [ch] + rest, ch) == |prefix|
  {
    if |prefix| > 0 {
      assert (prefix + [ch] + rest)[1..] == prefix[1..] + [ch] + rest;
      IndexOfAfter(prefix[1..], ch, rest);
    }
  }

  /** Splitting a join of pieces free of the separator gives back the pieces. */
  lemma {:induction false} SplitJoin(parts: seq<string>, sep: char)
    requires |parts| > 0
    requires forall i :: 0 <= i < |parts| ==> sep !in parts[i]
    ensures Split(Join(parts, sep), sep) == parts
  {
    var s := Join(parts, sep);
    if |parts| == 1 {
      assert IndexOf(s, sep) == |s|;
    } else {
      var rest := Join(parts[1..], sep);
      IndexOfAfter(parts[0], sep, rest);
      assert s[..|parts[0]|] == parts[0];
      assert s[|parts[0]| + 1..] == rest;
      SplitJoin(parts[1..], sep);
    }
  }

  /** The number of leading copies of ch in s. */
  function LeadingRun(s: string, ch: char): (k: nat)
    ensures k <= |s|
    ensures forall i :: 0 <= i < k ==> s[i] == ch
    ensures k == |s| || s[k] != ch
  {
    if |s| > 0 && s[0] == ch then 1 + LeadingRun(s[1..], ch) else 0
  }

  /** The number of trailing copies of ch in s. */
  function TrailingRun(s: string, ch: char): (k: nat)
    ensures k <= |s|
    ensures forall i :: |s| - k <= i < |s| ==> s[i] == ch
    ensures k == |s| || s[|s| - 1 - k] != ch
  {
    if |s| > 0 && s[|s| - 1] == ch then 1 + TrailingRun(s[..|s| - 1], ch) else 0
  }

  /**
   * Python's `s.strip(ch)`: the longest run of ch is removed from each end.
   * What remains is the middle of s, and it neither starts nor ends with ch.
   */
  function Strip(s: string, ch: char): (r: string)
    ensures |r| == 0 || (r[0] != ch && r[|r| - 1] != ch)
    ensures var lo := LeadingRun(s, ch);
      && lo + |r| <= |s|
      && s[lo..lo + |r|] == r
      && (forall i :: 0 <= i < lo ==> s[i] == ch)
      && (forall i :: lo + |r| <= i < |s| ==> s[i] == ch)
  {
    var lo := LeadingRun(s, ch);
    var rest := s[lo..];
    var hi := |rest| - TrailingRun(rest, ch);
    assert s[lo..lo + hi] == rest[..hi];
    rest[..hi]
  }

  /** Stripping twice is stripping once. */
  lemma StripIdempotent(s: string, ch: char)
    ensures Strip(Strip(s, ch), ch) == Strip(s, ch)
  {
    var r := Strip(s, ch);
    if |r| > 0 {
      assert LeadingRun(r, ch) == 0;
      assert TrailingRun(r, ch) == 0;
      assert r[0..][..|r|] == r;
    }
  }

  /** The flattened name of one MultiIndex tuple. */
  function FlatName(parts: seq<string>): string
  {
    Strip(Join(parts, '_'), '_')
  }

  /** The column names after the flattening step of the scripts. */
  function FlatNames(index: ColumnIndex): (names: seq<string>)
    ensures |names| == Width(index)
    ensures index.Flat? ==> names == index.names
    ensures index.Multi? ==> forall i :: 0 <= i < |names| ==> names[i] == FlatName(index.tuples[i])
  {
    match index
    case Flat(names) => names
    case Multi(tuples) => seq(|tuples|, i requires 0 <= i < |tuples| => FlatName(tuples[i]))
  }

  predicate StartsWith(s: string, prefix: string)
  {
    |prefix| <= |s| && s[..|prefix|] == prefix
  }

  predicate IsCloseName(name: string)
  {
    StartsWith(name, "Close")
  }

  /**
   * `next((c for c in columns if str(c).startswith('Close')), None)`,
   * as a position: the first close column from position k on.
   */
  function FirstCloseFrom(names: seq<string>, k: nat): (r: Option<nat>)
    requires k <= |names|
    ensures r.Some? ==>
      && k <= r.value < |names|
      && IsCloseName(names[r.value])
      && forall j :: k <= j < r.value ==> !IsCloseName(names[j])
    ensures r.None? ==> forall j :: k <= j < |names| ==> !IsCloseName(names[j])
    decreases |names| - k
  {
    if k == |names| then None
    else if IsCloseName(names[k]) then Some(k)
    else FirstCloseFrom(names, k + 1)
  }

  function FirstClose(names: seq<string>): (r: Option<nat>)
    ensures r.Some? ==>
      && r.value < |names|
      && IsCloseName(names[r.value])
      && forall j :: 0 <= j < r.value ==> !IsCloseName(names[j])
    ensures r.None? ==> forall j :: 0 <= j < |names| ==> !IsCloseName(names[j])
  {
    FirstCloseFrom(names, 0)
  }

  /** The name at position j is also the name of another column. */
  predicate Repeated(names: seq<string>, j: nat)
    requires j < |names|
  {
    multiset(names)[names[j]] > 1
  }

  /**
   * The explicit `for c in data.columns: ... break` scan of
   * stock_risk_return_screening.py, which finds the same column.
   */
  method FindCloseColumn(names: seq<string>) returns (closeCol: Option<nat>)
    ensures closeCol.Some? ==>
      && closeCol.value < |names|
      && IsCloseName(names[closeCol.value])
      && forall j :: 0 <= j < closeCol.value ==> !IsCloseName(names[j])
    ensures closeCol.None? ==> forall j :: 0 <= j < |names| ==> !IsCloseName(names[j])
    ensures closeCol == FirstClose(names)
  {
    closeCol := None;
    var i := 0;
    while i < |names|
      invariant 0 <= i <= |names|
      invariant forall j :: 0 <= j < i ==> !IsCloseName(names[j])
      invariant FirstClose(names) == FirstCloseFrom(names, i)
    {
      if IsCloseName(names[i]) {
        closeCol := Some(i);
        break;
      }
      i := i + 1;
    }
  }
}
