/**
 * The `lowmem_reserve[]:` rows of the zone dump.  Every line holding one contributes, in line
 * order, the numbers the row's capture splits into.
 */
module LowmemExtractor {
  import opened Wrappers
  import opened Chars
  import opened Strings
  import opened Numerals
  import opened Matching
  import opened Scans
  import opened OOMTypes

  const ReserveLabel := "lowmem_reserve[]:"

  /** `[\d\s]` */
  predicate IsDigitOrSpace(c: char) { IsDigit(c) || IsSpace(c) }

  /** `lowmem_reserve\[\]:\s*([\d\s]+)` at `i`: the captured group. */
  function ReserveAt(s: string, i: nat): (r: Option<string>)
    ensures r.Some? ==> StartsAt(s, i, ReserveLabel)
    ensures r.Some? ==> r.value != [] && forall k :: 0 <= k < |r.value| ==> IsDigitOrSpace(r.value[k])
  {
    if StartsAt(s, i, ReserveLabel) then
      match SpacesThenRun(s, i + |ReserveLabel|, IsDigitOrSpace)
      case None => None
      case Some((k, e)) =>
        assert forall j :: 0 <= j < e - k ==> s[k..e][j] == s[k + j];
        Some(s[k..e])
    else None
  }

  /** `t.split(/\s+/)`: the pieces between maximal runs of white space, `[""]` for the empty text. */
  function SplitOnSpaces(t: string): (parts: seq<string>)
    ensures parts != []
    decreases |t|
  {
    var k := SpanEnd(t, 0, IsNonSpace);
    if k == |t| then [t]
    else
      var m := SpanEnd(t, k, IsSpace);
      assert m > k by { assert IsSpace(t[k]); }
      [t[..k]] + SplitOnSpaces(t[m..])
  }

  /** `parseInt(v, 10)` for the pieces here, which hold no sign and no white space. */
  function ParseIntToken(v: string): (r: ParsedInt)
    ensures r.Parsed? <==> v != [] && IsDigit(v[0])
  {
    if v != [] && IsDigit(v[0]) then Parsed(NatOf(v[..SpanEnd(v, 0, IsDigit)])) else NotANumber
  }

  /** `.map((v) => parseInt(v, 10))` */
  function ParseAll(parts: seq<string>): (r: seq<ParsedInt>)
    ensures |r| == |parts|
  {
    if parts == [] then [] else [ParseIntToken(parts[0])] + ParseAll(parts[1..])
  }

  /** The numbers of one captured group: trimmed, split at white space, each piece parsed. */
  function ReserveValues(g: string): seq<ParsedInt> {
    ParseAll(SplitOnSpaces(Trim(g)))
  }

  /** The reserve row a line yields: the values of the first `lowmem_reserve[]:` match in it. */
  function LowmemOfLine(line: string): (r: Option<seq<ParsedInt>>)
    ensures r.Some? <==> Leftmost(line, ReserveAt).Some?
    ensures r.Some? ==> Contains(line, ReserveLabel) && r.value == ReserveValues(Leftmost(line, ReserveAt).value)
  {
    LeftmostNeedsLabel(line, ReserveAt, ReserveLabel);
    match Leftmost(line, ReserveAt)
    case None => None
    case Some(g) => Some(ReserveValues(g))
  }

  /** `parseLowmemReserve`: one row per matching line, in line order. */
  method ParseLowmemReserve(lines: seq<string>) returns (reserves: seq<seq<ParsedInt>>)
    ensures reserves == Collect(lines, LowmemOfLine)
  {
    reserves := CollectEach(lines, LowmemOfLine);
  }

  // ---------------------------------------------------------------- what a row holds

  /**
   * A row holds numbers only, except that a capture of white space alone (the label followed by
   * spaces and then something that is no digit) trims to the empty text and gives `[NaN]`.
   */
  lemma RowValues(line: string)
    requires LowmemOfLine(line).Some?
    ensures var g := Leftmost(line, ReserveAt).value;
      AllSpace(g) ==> LowmemOfLine(line).value == [NotANumber]
    ensures var g := Leftmost(line, ReserveAt).value;
      !AllSpace(g) ==> forall k :: 0 <= k < |LowmemOfLine(line).value| ==> LowmemOfLine(line).value[k].Parsed?
  {
    var g := Leftmost(line, ReserveAt).value;
    GroupValues(g);
  }

  lemma GroupValues(g: string)
    requires forall k :: 0 <= k < |g| ==> IsDigitOrSpace(g[k])
    ensures AllSpace(g) ==> ReserveValues(g) == [NotANumber]
    ensures !AllSpace(g) ==> forall k :: 0 <= k < |ReserveValues(g)| ==> ReserveValues(g)[k].Parsed?
  {
    if AllSpace(g) {
      BlankGroup(g);
    } else {
      NumberGroup(g);
    }
  }

  lemma BlankGroup(g: string)
    requires AllSpace(g)
    ensures ReserveValues(g) == [NotANumber]
  {
    TrimEmptyIff(g);
    assert SplitOnSpaces(Trim(g)) == [""];
  }

  lemma NumberGroup(g: string)
    requires forall k :: 0 <= k < |g| ==> IsDigitOrSpace(g[k])
    requires !AllSpace(g)
    ensures forall k :: 0 <= k < |ReserveValues(g)| ==> ReserveValues(g)[k].Parsed?
  {
    var t := Trim(g);
    TrimEmptyIff(g);
    TrimmedGroupChars(g);
    PiecesStartWithDigits(t);
    ParseAllDigits(SplitOnSpaces(t));
  }

  lemma TrimmedGroupChars(g: string)
    requires forall k :: 0 <= k < |g| ==> IsDigitOrSpace(g[k])
    ensures forall k :: 0 <= k < |Trim(g)| ==> IsDigitOrSpace(Trim(g)[k])
  {
    var t := Trim(g);
    var a, b :| 0 <= a <= b <= |g| && t == g[a..b] && AllSpace(g[..a]) && AllSpace(g[b..]);
    assert forall k :: 0 <= k < |t| ==> t[k] == g[a + k];
  }

  /** Splitting digits and white space with no white space at either end gives digit runs. */
  lemma {:induction false} PiecesStartWithDigits(t: string)
    requires t != [] && !IsSpace(t[0]) && !IsSpace(t[|t| - 1])
    requires forall k :: 0 <= k < |t| ==> IsDigitOrSpace(t[k])
    ensures forall k :: 0 <= k < |SplitOnSpaces(t)| ==> SplitOnSpaces(t)[k] != [] && IsDigit(SplitOnSpaces(t)[k][0])
    decreases |t|
  {
    var k := SpanEnd(t, 0, IsNonSpace);
    assert IsDigit(t[0]);
    assert k >= 1 by { assert IsNonSpace(t[0]); }
    if k < |t| {
      var m := SpanEnd(t, k, IsSpace);
      assert m < |t| by { assert !IsSpace(t[|t| - 1]); }
      var u := t[m..];
      assert forall j :: 0 <= j < |u| ==> u[j] == t[m + j];
      assert u[0] == t[m] && u[|u| - 1] == t[|t| - 1];
      PiecesStartWithDigits(u);
      PiecesCons(t[..k], SplitOnSpaces(u));
      assert t[..k][0] == t[0];
    } else {
      assert SplitOnSpaces(t) == [t];
    }
  }

  lemma PiecesCons(p: string, ps: seq<string>)
    requires p != [] && IsDigit(p[0])
    requires forall k :: 0 <= k < |ps| ==> ps[k] != [] && IsDigit(ps[k][0])
    ensures forall k :: 0 <= k < |[p] + ps| ==> ([p] + ps)[k] != [] && IsDigit(([p] + ps)[k][0])
  {
    assert forall k :: 1 <= k < |[p] + ps| ==> ([p] + ps)[k] == ps[k - 1];
  }

  lemma {:induction false} ParseAllDigits(parts: seq<string>)
    requires forall k :: 0 <= k < |parts| ==> parts[k] != [] && IsDigit(parts[k][0])
    ensures forall k :: 0 <= k < |ParseAll(parts)| ==> ParseAll(parts)[k].Parsed?
  {
    if parts != [] {
      ParseAllDigits(parts[1..]);
      assert forall k :: 1 <= k < |parts| ==> ParseAll(parts)[k] == ParseAll(parts[1..])[k - 1];
    }
  }

  /** The label, one space, and the end of the line: the capture is that space, and the row is `[NaN]`. */
  lemma TrailingSpaceGivesNaN()
    ensures LowmemOfLine(ReserveLabel + " ") == Some([NotANumber])
  {
    var s := ReserveLabel + " ";
    assert s[17] == ' ';
    assert SpacesThenRun(s, 17, IsDigitOrSpace) == Some((17, 18)) by {
      SpanEndAt(s, 17, IsSpace, 18);
      SpanEndAt(s, 17, IsDigitOrSpace, 18);
    }
    assert StartsAt(s, 0, ReserveLabel) by { assert s[..17] == ReserveLabel; }
    assert ReserveAt(s, 0) == Some(" ") by { assert s[17..18] == " "; }
    LeftmostAt(s, ReserveAt, 0);
    assert Trim(" ") == [] by { SpanEndAt(" ", 0, IsSpace, 1); }
    assert SplitOnSpaces([]) == [[]];
    assert ParseAll([[]]) == [NotANumber];
    assert ReserveValues(" ") == [NotANumber];
  }

  // ---------------------------------------------------------------- printed rows

  /** The numbers after the label, each after one space, as the kernel prints them. */
  function ReserveText(xs: seq<nat>): string {
    if xs == [] then "" else " " + (Decimal(xs[0]) + ReserveText(xs[1..]))
  }

  function Decimals(xs: seq<nat>): seq<string> {
    if xs == [] then [] else [Decimal(xs[0])] + Decimals(xs[1..])
  }

  /** A printed row reads back as the numbers printed, in order. */
  lemma RowRoundTrip(xs: seq<nat>)
    requires xs != []
    ensures var r := LowmemOfLine(ReserveLabel + ReserveText(xs));
      r.Some? && |r.value| == |xs| && forall k :: 0 <= k < |xs| ==> r.value[k] == Parsed(xs[k])
  {
    var s := ReserveLabel + ReserveText(xs);
    var g := RowGroup(s, xs);
    RowGroupValues(xs, g);
    ParseAllDecimals(xs);
  }

  /** The capture of a printed row: the numbers and the spaces between them. */
  lemma RowGroup(s: string, xs: seq<nat>) returns (g: string)
    requires xs != [] && s == ReserveLabel + ReserveText(xs)
    ensures g == Decimal(xs[0]) + ReserveText(xs[1..])
    ensures Leftmost(s, ReserveAt) == Some(g)
  {
    g := Decimal(xs[0]) + ReserveText(xs[1..]);
    GroupChars(xs[0], xs[1..]);
    RowLayout(s, xs, g);
    GroupAt(s, g);
    LeftmostAt(s, ReserveAt, 0);
  }

  lemma RowGroupValues(xs: seq<nat>, g: string)
    requires xs != [] && g == Decimal(xs[0]) + ReserveText(xs[1..])
    ensures ReserveValues(g) == ParseAll(Decimals(xs))
  {
    GroupTrimmed(xs[0], xs[1..]);
    SplitRow(xs[0], xs[1..]);
    assert [xs[0]] + xs[1..] == xs;
  }

  lemma GroupTrimmed(x: nat, ys: seq<nat>)
    ensures Trim(Decimal(x) + ReserveText(ys)) == Decimal(x) + ReserveText(ys)
  {
    GroupChars(x, ys);
    TrimUnchanged(Decimal(x) + ReserveText(ys));
  }

  lemma RowLayout(s: string, xs: seq<nat>, g: string)
    requires xs != [] && s == ReserveLabel + ReserveText(xs) && g == Decimal(xs[0]) + ReserveText(xs[1..])
    ensures |s| == 18 + |g| && StartsAt(s, 0, ReserveLabel) && s[17] == ' ' && s[18..] == g
  {
    assert ReserveText(xs) == " " + g;
    assert s[0..] == s;
    SuffixConcat(s, 0, ReserveLabel, " " + g);
    SuffixConcat(s, 17, " ", g);
  }

  /** The group of a printed row is everything after the label and its space. */
  lemma GroupAt(s: string, g: string)
    requires g != [] && IsDigit(g[0])
    requires forall k :: 0 <= k < |g| ==> IsDigitOrSpace(g[k])
    requires |s| == 18 + |g| && StartsAt(s, 0, ReserveLabel) && s[17] == ' ' && s[18..] == g
    ensures ReserveAt(s, 0) == Some(g)
  {
    assert forall k :: 18 <= k < |s| ==> s[k] == g[k - 18];
    assert IsDigit(s[18]) && !IsSpace(s[18]);
    SpacesThenRunAt(s, 17, 18, IsDigitOrSpace);
    SpanEndAt(s, 18, IsDigitOrSpace, |s|);
    assert SpacesThenRun(s, 17, IsDigitOrSpace) == Some((18, |s|));
    assert s[18..|s|] == g;
  }

  /** A printed number and the row text after it: digits and spaces, a digit at both ends. */
  lemma {:induction false} GroupChars(x: nat, ys: seq<nat>)
    ensures var g := Decimal(x) + ReserveText(ys);
      g != [] && IsDigit(g[0]) && IsDigit(g[|g| - 1]) && forall k :: 0 <= k < |g| ==> IsDigitOrSpace(g[k])
    decreases |ys|
  {
    var g := Decimal(x) + ReserveText(ys);
    var d := Decimal(x);
    if ys == [] {
      assert g == d;
    } else {
      var h := Decimal(ys[0]) + ReserveText(ys[1..]);
      GroupChars(ys[0], ys[1..]);
      assert g == d + ([' '] + h);
      assert g[0] == d[0] && g[|g| - 1] == h[|h| - 1];
      assert forall k :: 0 <= k < |d| ==> g[k] == d[k];
      assert g[|d|] == ' ';
      assert forall k :: |d| < k < |g| ==> g[k] == h[k - |d| - 1];
    }
  }

  /** Splitting a printed row's group gives the printed numbers. */
  lemma {:induction false} SplitRow(x: nat, ys: seq<nat>)
    ensures SplitOnSpaces(Decimal(x) + ReserveText(ys)) == Decimals([x] + ys)
    decreases |ys|
  {
    var d := Decimal(x);
    var t := d + ReserveText(ys);
    assert ([x] + ys)[0] == x && ([x] + ys)[1..] == ys;
    assert Decimals([x] + ys) == [d] + Decimals(ys);
    if ys == [] {
      assert t == d;
      SplitDigits(d);
    } else {
      var h := Decimal(ys[0]) + ReserveText(ys[1..]);
      assert t == d + ([' '] + h);
      GroupChars(ys[0], ys[1..]);
      SplitAtSpace(t, d, h);
      SplitRow(ys[0], ys[1..]);
      assert [ys[0]] + ys[1..] == ys;
    }
  }

  /** A digit run is one piece. */
  lemma SplitDigits(d: string)
    requires forall k :: 0 <= k < |d| ==> IsDigit(d[k])
    ensures SplitOnSpaces(d) == [d]
  {
    SpanEndAt(d, 0, IsNonSpace, |d|);
  }

  /** A digit run, one space, and a text that starts with a digit: the run is the first piece. */
  lemma SplitAtSpace(t: string, d: string, h: string)
    requires t == d + ([' '] + h)
    requires d != [] && forall k :: 0 <= k < |d| ==> IsDigit(d[k])
    requires h != [] && IsDigit(h[0])
    ensures SplitOnSpaces(t) == [d] + SplitOnSpaces(h)
  {
    assert forall k :: 0 <= k < |d| ==> t[k] == d[k];
    assert t[|d|] == ' ' && t[|d| + 1] == h[0];
    assert t[..|d|] == d && t[|d| + 1..] == h;
    SpanEndAt(t, 0, IsNonSpace, |d|);
    SpanEndAt(t, |d|, IsSpace, |d| + 1);
  }

  /** Parsing printed numbers gives the numbers. */
  lemma {:induction false} ParseAllDecimals(xs: seq<nat>)
    ensures |ParseAll(Decimals(xs))| == |xs|
    ensures forall k :: 0 <= k < |xs| ==> ParseAll(Decimals(xs))[k] == Parsed(xs[k])
  {
    if xs != [] {
      ParseAllDecimals(xs[1..]);
      var t := Decimal(xs[0]);
      SpanEndAt(t, 0, IsDigit, |t|);
      assert t[..|t|] == t;
      NatOfDecimal(xs[0]);
      assert ParseIntToken(t) == Parsed(xs[0]);
      assert forall k :: 1 <= k < |xs| ==> ParseAll(Decimals(xs))[k] == ParseAll(Decimals(xs[1..]))[k - 1];
    }
  }
}
