/**
 * Hand-written recognizers for the shapes of regular expression the parser uses.
 *
 * `XAt(s, i)` says whether pattern X matches with its match starting at index `i`, and returns
 * what the pattern captures.  `Leftmost` is the search `String.prototype.match` performs without
 * the `g` flag: start positions are tried in order and the first one that matches wins.
 *
 * Each shape is deterministic once its start is fixed.  A greedy run followed by a character
 * outside its class cannot match differently by giving characters back, and where a greedy `\s*`
 * stands before a group that can also match white space, `SpacesThenRun` tries its lengths
 * longest first, as the regular-expression engine does.
 */
module Matching {
  import opened Wrappers
  import opened Chars
  import opened Strings
  import opened Numerals

  function LeftmostFrom<T>(s: string, i: nat, m: (string, nat) -> Option<T>): (r: Option<T>)
    requires i <= |s|
    ensures r.Some? ==> exists k :: i <= k <= |s| && m(s, k) == r && forall j :: i <= j < k ==> m(s, j).None?
    ensures r.None? ==> forall k :: i <= k <= |s| ==> m(s, k).None?
    decreases |s| - i
  {
    if m(s, i).Some? then m(s, i)
    else if i == |s| then None
    else LeftmostFrom(s, i + 1, m)
  }

  /** The match of the pattern recognised by `m` whose start is leftmost, if there is one. */
  function Leftmost<T>(s: string, m: (string, nat) -> Option<T>): (r: Option<T>)
    ensures r.Some? ==> exists k :: 0 <= k <= |s| && m(s, k) == r && forall j :: 0 <= j < k ==> m(s, j).None?
    ensures r.None? ==> forall k :: 0 <= k <= |s| ==> m(s, k).None?
  {
    LeftmostFrom(s, 0, m)
  }

  /** The match starting at `k` is the one reported when no earlier start matches. */
  lemma LeftmostAt<T>(s: string, m: (string, nat) -> Option<T>, k: nat)
    requires k <= |s| && m(s, k).Some?
    requires forall j :: 0 <= j < k ==> m(s, j).None?
    ensures Leftmost(s, m) == m(s, k)
  {
  }

  /** When no start position matches, nothing is found. */
  lemma LeftmostNone<T>(s: string, m: (string, nat) -> Option<T>)
    requires forall k :: 0 <= k <= |s| ==> m(s, k).None?
    ensures Leftmost(s, m).None?
  {
  }

  /** Start positions where the pattern does not match are passed over. */
  lemma {:induction false} LeftmostFromSkip<T>(s: string, m: (string, nat) -> Option<T>, a: nat, b: nat)
    requires a <= b <= |s|
    requires forall j :: a <= j < b ==> m(s, j).None?
    ensures LeftmostFrom(s, a, m) == LeftmostFrom(s, b, m)
    decreases b - a
  {
    if a < b {
      LeftmostFromSkip(s, m, a + 1, b);
    }
  }

  /** A pattern that begins with `lit` finds nothing in text that lacks `lit`. */
  lemma {:induction false} LeftmostNeedsLabel<T>(s: string, m: (string, nat) -> Option<T>, lit: string)
    requires forall i :: 0 <= i <= |s| && m(s, i).Some? ==> StartsAt(s, i, lit)
    ensures Leftmost(s, m).Some? ==> Contains(s, lit)
  {
    if Leftmost(s, m).Some? {
      var k :| 0 <= k <= |s| && m(s, k) == Leftmost(s, m);
      assert StartsAt(s, k, lit);
    }
  }

  /** `X+` at `p`: the end of the maximal run of class `x`, when the run is not empty. */
  function Run1(s: string, p: nat, x: char -> bool): (e: Option<nat>)
    ensures e.Some? <==> p < |s| && x(s[p])
    ensures e.Some? ==> p < e.value <= |s| && e.value == SpanEnd(s, p, x)
  {
    if p < |s| && x(s[p]) then Some(SpanEnd(s, p, x)) else None
  }

  /** `X*` at `p` */
  function Run0(s: string, p: nat, x: char -> bool): (e: nat)
    ensures p <= e
    ensures p <= |s| ==> e == SpanEnd(s, p, x)
  {
    if p <= |s| then SpanEnd(s, p, x) else p
  }

  /** `(\d+)` at `p`: the value `parseInt` gives the digit run, and where the run ends. */
  function NatAt(s: string, p: nat): (r: Option<(nat, nat)>)
    ensures r.Some? <==> p < |s| && IsDigit(s[p])
    ensures r.Some? ==> p < r.value.1 <= |s| && r.value.1 == SpanEnd(s, p, IsDigit)
    ensures r.Some? ==> r.value.0 == NatOf(s[p..r.value.1])
  {
    match Run1(s, p, IsDigit)
    case None => None
    case Some(e) => Some((NatOf(s[p..e]), e))
  }

  /** A printed number followed by a non-digit reads back as that number. */
  lemma NatAtDecimal(s: string, p: nat, n: nat)
    requires StartsAt(s, p, Decimal(n))
    requires p + |Decimal(n)| < |s| ==> !IsDigit(s[p + |Decimal(n)|])
    ensures NatAt(s, p) == Some((n, p + |Decimal(n)|))
  {
    var t := Decimal(n);
    var e := p + |t|;
    assert forall k :: p <= k < e ==> s[k] == t[k - p];
    SpanEndAt(s, p, IsDigit, e);
    NatOfDecimal(n);
  }

  /** The first character of a literal found at `i`. */
  lemma StartsAtHead(s: string, i: nat, lit: string)
    requires StartsAt(s, i, lit) && lit != []
    ensures i < |s| && s[i] == lit[0]
  {
    assert s[i..i + |lit|][0] == s[i];
  }

  /** One white-space character before one that is not is the whole `\s+`. */
  lemma OneSpace(s: string, q: nat)
    requires q + 1 < |s| && IsSpace(s[q]) && !IsSpace(s[q + 1])
    ensures Run1(s, q, IsSpace) == Some(q + 1)
  {
    SpanEndAt(s, q, IsSpace, q + 1);
  }

  /** `(-?\d+)` at `p` */
  function IntAt(s: string, p: nat): (r: Option<(int, nat)>)
    ensures r.Some? <==> (p < |s| && s[p] == '-' && NatAt(s, p + 1).Some?) || (p < |s| && IsDigit(s[p]))
    ensures r.Some? ==> p < r.value.1 <= |s| && r.value.0 == IntOf(s[p..r.value.1])
  {
    if p < |s| && s[p] == '-' then
      match NatAt(s, p + 1)
      case None => None
      case Some((v, e)) =>
        assert s[p..e][1..] == s[p + 1..e];
        Some((-(v as int), e))
    else
      match NatAt(s, p)
      case None => None
      case Some((v, e)) => Some((v as int, e))
  }

  /** A printed signed number followed by a non-digit reads back as that number. */
  lemma IntAtSignedDecimal(s: string, p: nat, z: int)
    requires StartsAt(s, p, SignedDecimal(z))
    requires p + |SignedDecimal(z)| < |s| ==> !IsDigit(s[p + |SignedDecimal(z)|])
    ensures IntAt(s, p) == Some((z, p + |SignedDecimal(z)|))
  {
    if z < 0 {
      NegativeAt(s, p, -z);
    } else {
      NonNegativeAt(s, p, z);
    }
  }

  lemma NegativeAt(s: string, p: nat, n: nat)
    requires StartsAt(s, p, "-" + Decimal(n))
    requires p + 1 + |Decimal(n)| < |s| ==> !IsDigit(s[p + 1 + |Decimal(n)|])
    ensures IntAt(s, p) == Some((-(n as int), p + 1 + |Decimal(n)|))
  {
    StartsAtConcat(s, p, "-", Decimal(n));
    NatAtDecimal(s, p + 1, n);
  }

  lemma NonNegativeAt(s: string, p: nat, n: nat)
    requires StartsAt(s, p, Decimal(n))
    requires p + |Decimal(n)| < |s| ==> !IsDigit(s[p + |Decimal(n)|])
    ensures IntAt(s, p) == Some((n as int, p + |Decimal(n)|))
  {
    StartsAtHead(s, p, Decimal(n));
    NatAtDecimal(s, p, n);
  }

  function Value<T>(r: Option<(T, nat)>): (v: Option<T>)
    ensures v.Some? <==> r.Some?
    ensures v.Some? ==> v.value == r.value.0
  {
    match r
    case None => None
    case Some((x, _)) => Some(x)
  }

  /** `lit(\d+)` */
  function NatAfterAt(s: string, i: nat, lit: string): (r: Option<nat>)
    ensures r.Some? <==> StartsAt(s, i, lit) && NatAt(s, i + |lit|).Some?
    ensures r.Some? ==> r == Value(NatAt(s, i + |lit|))
  {
    if StartsAt(s, i, lit) then Value(NatAt(s, i + |lit|)) else None
  }

  /** `lit(-?\d+)` */
  function IntAfterAt(s: string, i: nat, lit: string): (r: Option<int>)
    ensures r.Some? <==> StartsAt(s, i, lit) && IntAt(s, i + |lit|).Some?
    ensures r.Some? ==> r == Value(IntAt(s, i + |lit|))
  {
    if StartsAt(s, i, lit) then Value(IntAt(s, i + |lit|)) else None
  }

  /** `lit(\d+)kB` */
  function NatKBAfterAt(s: string, i: nat, lit: string): (r: Option<nat>)
    ensures r.Some? ==> StartsAt(s, i, lit)
    ensures r.Some? ==> NatAt(s, i + |lit|).Some? && r.value == NatAt(s, i + |lit|).value.0
    ensures r.Some? ==> StartsAt(s, NatAt(s, i + |lit|).value.1, "kB")
  {
    if StartsAt(s, i, lit) then
      match NatAt(s, i + |lit|)
      case None => None
      case Some((v, e)) => if StartsAt(s, e, "kB") then Some(v) else None
    else None
  }

  /** `lit\s*(\d+)` */
  function NatAfterSpacesAt(s: string, i: nat, lit: string): (r: Option<nat>)
    ensures r.Some? ==> StartsAt(s, i, lit)
    ensures r.Some? ==> r == Value(NatAt(s, Run0(s, i + |lit|, IsSpace)))
  {
    if StartsAt(s, i, lit) then Value(NatAt(s, Run0(s, i + |lit|, IsSpace))) else None
  }

  /** `lit\s*(\S+)` */
  function TokenAfterSpacesAt(s: string, i: nat, lit: string): (r: Option<string>)
    ensures r.Some? ==> StartsAt(s, i, lit)
    ensures r.Some? ==> |r.value| > 0 && forall k :: 0 <= k < |r.value| ==> !IsSpace(r.value[k])
  {
    if StartsAt(s, i, lit) then
      var p := Run0(s, i + |lit|, IsSpace);
      match Run1(s, p, IsNonSpace)
      case None => None
      case Some(e) =>
        assert forall k :: 0 <= k < e - p ==> s[p..e][k] == s[p + k];
        Some(s[p..e])
    else None
  }

  /** `lit(\w+)` */
  function WordAfterAt(s: string, i: nat, lit: string): (r: Option<string>)
    ensures r.Some? ==> StartsAt(s, i, lit)
    ensures r.Some? ==> |r.value| > 0 && forall k :: 0 <= k < |r.value| ==> IsWordChar(r.value[k])
    ensures r.Some? ==> StartsAt(s, i + |lit|, r.value)
    ensures r.Some? ==> i + |lit| + |r.value| == |s| || !IsWordChar(s[i + |lit| + |r.value|])
  {
    if StartsAt(s, i, lit) then
      var p := i + |lit|;
      match Run1(s, p, IsWordChar)
      case None => None
      case Some(e) =>
        assert forall k :: 0 <= k < e - p ==> s[p..e][k] == s[p + k];
        Some(s[p..e])
    else None
  }

  /** The class `[^c]` */
  function Except(c: char): char -> bool {
    ch => ch != c
  }

  /** `lit([^c]+)`: the text after `lit` up to the next `c` or the end of the line. */
  function UpToAt(s: string, i: nat, lit: string, c: char): (r: Option<string>)
    ensures r.Some? ==> StartsAt(s, i, lit)
    ensures r.Some? ==> |r.value| > 0 && c !in r.value
    ensures r.Some? ==> StartsAt(s, i + |lit|, r.value)
    ensures r.Some? ==> i + |lit| + |r.value| == |s| || s[i + |lit| + |r.value|] == c
  {
    if StartsAt(s, i, lit) then
      var p := i + |lit|;
      match Run1(s, p, Except(c))
      case None => None
      case Some(e) =>
        assert forall k :: 0 <= k < e - p ==> s[p..e][k] == s[p + k];
        Some(s[p..e])
    else None
  }

  /** `(\d+)\s+lit` for a lit that starts with a non-space character */
  function NatBeforeAt(s: string, i: nat, lit: string): (r: Option<nat>)
    ensures r.Some? ==> NatAt(s, i).Some? && r.value == NatAt(s, i).value.0
    ensures r.Some? ==> Run1(s, NatAt(s, i).value.1, IsSpace).Some?
    ensures r.Some? ==> StartsAt(s, Run1(s, NatAt(s, i).value.1, IsSpace).value, lit)
  {
    match NatAt(s, i)
    case None => None
    case Some((v, e)) =>
      match Run1(s, e, IsSpace)
      case None => None
      case Some(q) => if StartsAt(s, q, lit) then Some(v) else None
  }

  /** `lit\s*=\s*(\d+)kB` */
  function KBAfterEqualsAt(s: string, i: nat, lit: string): (r: Option<nat>)
    ensures r.Some? ==> StartsAt(s, i, lit)
  {
    if StartsAt(s, i, lit) then
      var p := Run0(s, i + |lit|, IsSpace);
      if p < |s| && s[p] == '=' then
        match NatAt(s, Run0(s, p + 1, IsSpace))
        case None => None
        case Some((v, e)) => if StartsAt(s, e, "kB") then Some(v) else None
      else None
    else None
  }

  function SpacesThenRunFrom(s: string, p: nat, k: nat, x: char -> bool): (r: Option<(nat, nat)>)
    requires p <= k <= |s|
    ensures r.Some? ==> p <= r.value.0 <= k && r.value.0 < r.value.1 <= |s|
    ensures r.Some? ==> r.value.1 == SpanEnd(s, r.value.0, x)
    decreases k - p
  {
    if k < |s| && x(s[k]) then Some((k, SpanEnd(s, k, x)))
    else if k == p then None
    else SpacesThenRunFrom(s, p, k - 1, x)
  }

  /**
   * `\s*(X+)` at `p`: the bounds `(k, e)` of the group.  The greedy `\s*` gives back white space
   * one character at a time until `X+` can start, so the group starts at the largest `k` that
   * `\s*` can reach and from which `X` holds.
   */
  function SpacesThenRun(s: string, p: nat, x: char -> bool): (r: Option<(nat, nat)>)
    requires p <= |s|
    ensures r.Some? ==> p <= r.value.0 < r.value.1 <= |s| && AllSpace(s[p..r.value.0])
    ensures r.Some? ==> r.value.1 == SpanEnd(s, r.value.0, x)
  {
    var m := SpanEnd(s, p, IsSpace);
    var r := SpacesThenRunFrom(s, p, m, x);
    assert r.Some? ==> forall j :: 0 <= j < r.value.0 - p ==> s[p..r.value.0][j] == s[p + j];
    r
  }

  /** When white space runs from `p` to `k` and the group can start at `k`, the group starts at `k`. */
  lemma SpacesThenRunAt(s: string, p: nat, k: nat, x: char -> bool)
    requires p <= k < |s|
    requires forall j :: p <= j < k ==> IsSpace(s[j])
    requires !IsSpace(s[k]) && x(s[k])
    ensures SpacesThenRun(s, p, x) == Some((k, SpanEnd(s, k, x)))
  {
    SpanEndAt(s, p, IsSpace, k);
  }

  /** `\s*(.+)$` at `p`: the rest of the line, when no line terminator stops `.+` before the end. */
  function RestToEnd(s: string, p: nat): (r: Option<string>)
    ensures r.Some? ==> p <= |s| && 0 < |r.value| <= |s| - p && r.value == s[|s| - |r.value|..]
    ensures r.Some? ==> forall k :: 0 <= k < |r.value| ==> !IsLineTerminator(r.value[k])
  {
    if p > |s| then None
    else
      match SpacesThenRun(s, p, IsAnyButTerminator)
      case None => None
      case Some((k, e)) =>
        if e == |s| then
          assert forall j :: 0 <= j < |s| - k ==> s[k..][j] == s[k + j];
          Some(s[k..])
        else None
  }

  /** The rest of a line after white space, free of line terminators, is what `\s*(.+)$` captures. */
  lemma RestToEndAt(s: string, p: nat, k: nat)
    requires p <= k < |s|
    requires forall j :: p <= j < k ==> IsSpace(s[j])
    requires !IsSpace(s[k])
    requires forall j :: k <= j < |s| ==> !IsLineTerminator(s[j])
    ensures RestToEnd(s, p) == Some(s[k..])
  {
    SpanEndAt(s, k, IsAnyButTerminator, |s|);
    SpacesThenRunAt(s, p, k, IsAnyButTerminator);
  }
}
