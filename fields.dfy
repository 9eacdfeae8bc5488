/** The two utility helpers every extractor is built on: picking a line, and reading a kB field. */
module Fields {
  import opened Wrappers
  import opened Chars
  import opened Strings
  import opened Matching
  import opened Numerals

  /**
   * The first line containing `search`.  A found line that is empty counts as not found, since
   * the source's `|| null` treats an empty string as false; that can only happen when `search`
   * is itself empty.
   */
  function FindLineContaining(lines: seq<string>, search: string): (r: Option<string>)
    ensures r.Some? ==>
      exists k :: 0 <= k < |lines| && lines[k] == r.value && Contains(lines[k], search) &&
        forall j :: 0 <= j < k ==> !Contains(lines[j], search)
    ensures r.Some? ==> r.value != ""
    ensures search != "" ==> (r.None? <==> forall k :: 0 <= k < |lines| ==> !Contains(lines[k], search))
  {
    FindFrom(lines, search, 0)
  }

  function FindFrom(lines: seq<string>, search: string, i: nat): (r: Option<string>)
    requires i <= |lines|
    ensures r.Some? ==>
      exists k :: i <= k < |lines| && lines[k] == r.value && Contains(lines[k], search) &&
        forall j :: i <= j < k ==> !Contains(lines[j], search)
    ensures r.Some? ==> r.value != ""
    ensures search != "" ==> (r.None? <==> forall k :: i <= k < |lines| ==> !Contains(lines[k], search))
    decreases |lines| - i
  {
    if i == |lines| then None
    else if Contains(lines[i], search) then
      if lines[i] == "" then None
      else Some(lines[i])
    else FindFrom(lines, search, i + 1)
  }

  /** Whether `FindLineContaining` finds a line: some line contains the (non-empty) text. */
  lemma {:induction false} FindLineContainingFinds(lines: seq<string>, search: string, k: nat)
    requires search != "" && k < |lines| && Contains(lines[k], search)
    ensures FindLineContaining(lines, search).Some?
  {
  }

  /** Line `k` is the first line containing `search`. */
  predicate IsFirstLineWith(lines: seq<string>, search: string, k: nat) {
    k < |lines| && Contains(lines[k], search) && forall j :: 0 <= j < k ==> !Contains(lines[j], search)
  }

  /** `FindLineContaining` returns the first line that contains the (non-empty) text. */
  lemma FindLineContainingIs(lines: seq<string>, search: string)
    requires search != ""
    ensures forall k: nat :: IsFirstLineWith(lines, search, k) ==> FindLineContaining(lines, search) == Some(lines[k])
  {
    forall k: nat | IsFirstLineWith(lines, search, k)
      ensures FindLineContaining(lines, search) == Some(lines[k])
    {
      var r := FindLineContaining(lines, search);
      assert r.Some?;
      var k': nat :| k' < |lines| && lines[k'] == r.value && Contains(lines[k'], search) &&
        forall j :: 0 <= j < k' ==> !Contains(lines[j], search);
      assert !(k < k') && !(k' < k);
    }
  }

  predicate IsColonOrSpace(c: char) { c == ':' || IsSpace(c) }

  /**
   * `field[:\s]*(-?\d+)kB` with the `i` flag, matched at `i`.  The field names callers pass
   * contain no regular-expression operators once their escapes are undone, so the field is
   * literal text matched without regard to case, and so is the `kB` unit.
   */
  function KBFieldAt(s: string, i: nat, field: string): (r: Option<int>)
    ensures r.Some? ==> StartsAtIgnoringCase(s, i, field)
    ensures r.Some? ==> IntAt(s, Run0(s, i + |field|, IsColonOrSpace)).Some?
    ensures r.Some? ==> r.value == IntAt(s, Run0(s, i + |field|, IsColonOrSpace)).value.0
    ensures r.Some? ==> StartsAtIgnoringCase(s, IntAt(s, Run0(s, i + |field|, IsColonOrSpace)).value.1, "kB")
  {
    if StartsAtIgnoringCase(s, i, field) then
      match IntAt(s, Run0(s, i + |field|, IsColonOrSpace))
      case None => None
      case Some((v, e)) => if StartsAtIgnoringCase(s, e, "kB") then Some(v) else None
    else None
  }

  /** `extractKB`: the value of the leftmost match of the field pattern, and `0` when there is none. */
  function ExtractKB(line: string, field: string): int {
    Leftmost(line, (s: string, i: nat) => KBFieldAt(s, i, field)).GetOr(0)
  }

  /** A field that never matches reads as `0`. */
  lemma ExtractKBNoMatch(line: string, field: string)
    requires forall k :: 0 <= k <= |line| ==> KBFieldAt(line, k, field).None?
    ensures ExtractKB(line, field) == 0
  {
    KBFieldLambda(line, field);
  }

  /** Otherwise it reads as the leftmost match. */
  lemma ExtractKBLeftmost(line: string, field: string, k: nat)
    requires k <= |line| && KBFieldAt(line, k, field).Some?
    requires forall j :: 0 <= j < k ==> KBFieldAt(line, j, field).None?
    ensures ExtractKB(line, field) == KBFieldAt(line, k, field).value
  {
    KBFieldLambda(line, field);
    LeftmostAt(line, (s: string, i: nat) => KBFieldAt(s, i, field), k);
  }

  /** A field name that occurs nowhere in the line reads as `0`. */
  lemma ExtractKBNoField(line: string, field: string)
    requires field != "" && forall k :: 0 <= k < |line| ==> !StartsAtIgnoringCase(line, k, field)
    ensures ExtractKB(line, field) == 0
  {
    ExtractKBNoMatch(line, field);
  }

  lemma KBFieldLambda(line: string, field: string)
    ensures forall k :: 0 <= k <= |line| ==>
      ((s: string, i: nat) => KBFieldAt(s, i, field))(line, k) == KBFieldAt(line, k, field)
  {
  }

  /** The leftmost match of `lit(\d+)` in the line. */
  function FirstNatAfter(line: string, lit: string): (r: Option<nat>)
    ensures r.Some? ==> Contains(line, lit)
    ensures r.Some? ==> exists k :: 0 <= k <= |line| && NatAfterAt(line, k, lit) == r
  {
    var m := (s: string, i: nat) => NatAfterAt(s, i, lit);
    LeftmostNeedsLabel(line, m, lit);
    Leftmost(line, m)
  }

  /** A match with no earlier occurrence of the label is the one reported. */
  lemma FirstNatAfterIs(line: string, lit: string, k: nat)
    requires k <= |line| && NatAfterAt(line, k, lit).Some?
    requires forall j :: 0 <= j < k ==> !StartsAt(line, j, lit)
    ensures FirstNatAfter(line, lit) == NatAfterAt(line, k, lit)
  {
    var m := (s: string, i: nat) => NatAfterAt(s, i, lit);
    LeftmostAt(line, m, k);
  }

  /** The same for `lit([^c]+)`. */
  lemma FirstUpToIs(line: string, lit: string, c: char, k: nat)
    requires k <= |line| && UpToAt(line, k, lit, c).Some?
    requires forall j :: 0 <= j < k ==> !StartsAt(line, j, lit)
    ensures FirstUpTo(line, lit, c) == UpToAt(line, k, lit, c)
  {
    LeftmostAt(line, (s: string, i: nat) => UpToAt(s, i, lit, c), k);
  }

  /** A printed number after the first occurrence of its label, ended by a non-digit, is what `lit(\d+)` reads. */
  lemma NatAfterRead(line: string, lit: string, k: nat, n: nat)
    requires FirstOccurrence(line, k, lit) && StartsAt(line, k + |lit|, Decimal(n))
    requires k + |lit| + |Decimal(n)| < |line| ==> !IsDigit(line[k + |lit| + |Decimal(n)|])
    ensures FirstNatAfter(line, lit) == Some(n)
  {
    NatAtDecimal(line, k + |lit|, n);
    FirstNatAfterIs(line, lit, k);
  }

  /** The leftmost match of `lit(-?\d+)` in the line. */
  function FirstIntAfter(line: string, lit: string): (r: Option<int>)
    ensures r.Some? ==> Contains(line, lit)
    ensures r.Some? ==> exists k :: 0 <= k <= |line| && IntAfterAt(line, k, lit) == r
  {
    var m := (s: string, i: nat) => IntAfterAt(s, i, lit);
    LeftmostNeedsLabel(line, m, lit);
    Leftmost(line, m)
  }

  /** A match with no earlier occurrence of the label is the one reported. */
  lemma FirstIntAfterIs(line: string, lit: string, k: nat)
    requires k <= |line| && IntAfterAt(line, k, lit).Some?
    requires forall j :: 0 <= j < k ==> !StartsAt(line, j, lit)
    ensures FirstIntAfter(line, lit) == IntAfterAt(line, k, lit)
  {
    LeftmostAt(line, (s: string, i: nat) => IntAfterAt(s, i, lit), k);
  }

  /** A printed signed number after the first occurrence of its label, ended by a non-digit, is what `lit(-?\d+)` reads. */
  lemma IntAfterRead(line: string, lit: string, k: nat, z: int)
    requires FirstOccurrence(line, k, lit) && StartsAt(line, k + |lit|, SignedDecimal(z))
    requires k + |lit| + |SignedDecimal(z)| < |line| ==> !IsDigit(line[k + |lit| + |SignedDecimal(z)|])
    ensures FirstIntAfter(line, lit) == Some(z)
  {
    IntAtSignedDecimal(line, k + |lit|, z);
    FirstIntAfterIs(line, lit, k);
  }

  /** The leftmost match of `lit(\d+)kB` in the line. */
  function FirstNatKBAfter(line: string, lit: string): (r: Option<nat>)
    ensures r.Some? ==> Contains(line, lit)
    ensures r.Some? ==> exists k :: 0 <= k <= |line| && NatKBAfterAt(line, k, lit) == r
  {
    var m := (s: string, i: nat) => NatKBAfterAt(s, i, lit);
    LeftmostNeedsLabel(line, m, lit);
    Leftmost(line, m)
  }

  /** A match with no earlier occurrence of the label is the one reported. */
  lemma FirstNatKBAfterIs(line: string, lit: string, k: nat)
    requires k <= |line| && NatKBAfterAt(line, k, lit).Some?
    requires forall j :: 0 <= j < k ==> !StartsAt(line, j, lit)
    ensures FirstNatKBAfter(line, lit) == NatKBAfterAt(line, k, lit)
  {
    LeftmostAt(line, (s: string, i: nat) => NatKBAfterAt(s, i, lit), k);
  }

  lemma NumberBeforeKB(s: string, p: nat, n: nat)
    requires StartsAt(s, p, Decimal(n)) && StartsAt(s, p + |Decimal(n)|, "kB")
    ensures NatAt(s, p) == Some((n, p + |Decimal(n)|))
  {
    StartsAtHead(s, p + |Decimal(n)|, "kB");
    NatAtDecimal(s, p, n);
  }

  lemma KBNumberAfter(s: string, k: nat, lit: string, n: nat)
    requires StartsAt(s, k, lit) && StartsAt(s, k + |lit|, Decimal(n))
    requires StartsAt(s, k + |lit| + |Decimal(n)|, "kB")
    ensures NatKBAfterAt(s, k, lit) == Some(n)
  {
    NumberBeforeKB(s, k + |lit|, n);
    NatKBAfterAtIs(s, k, lit, n, k + |lit| + |Decimal(n)|);
  }

  lemma NatKBAfterAtIs(s: string, i: nat, lit: string, n: nat, e: nat)
    requires StartsAt(s, i, lit) && NatAt(s, i + |lit|) == Some((n, e)) && StartsAt(s, e, "kB")
    ensures NatKBAfterAt(s, i, lit) == Some(n)
  {
  }

  /** A printed number and `kB` after the first occurrence of the label is what `lit(\d+)kB` reads. */
  lemma NatKBAfterRead(line: string, lit: string, k: nat, n: nat)
    requires FirstOccurrence(line, k, lit) && StartsAt(line, k + |lit|, Decimal(n))
    requires StartsAt(line, k + |lit| + |Decimal(n)|, "kB")
    ensures FirstNatKBAfter(line, lit) == Some(n)
  {
    KBNumberAfter(line, k, lit, n);
    FirstNatKBAfterIs(line, lit, k);
  }

  /** The leftmost match of `lit\s*(\d+)` in the line. */
  function FirstNatAfterSpaces(line: string, lit: string): (r: Option<nat>)
    ensures r.Some? ==> Contains(line, lit)
    ensures r.Some? ==> exists k :: 0 <= k <= |line| && NatAfterSpacesAt(line, k, lit) == r
  {
    var m := (s: string, i: nat) => NatAfterSpacesAt(s, i, lit);
    LeftmostNeedsLabel(line, m, lit);
    Leftmost(line, m)
  }

  /** The leftmost match of `lit\s*(\S+)` in the line: a non-empty token without white space. */
  function FirstTokenAfterSpaces(line: string, lit: string): (r: Option<string>)
    ensures r.Some? ==> Contains(line, lit)
    ensures r.Some? ==> |r.value| > 0 && forall k :: 0 <= k < |r.value| ==> !IsSpace(r.value[k])
  {
    var m := (s: string, i: nat) => TokenAfterSpacesAt(s, i, lit);
    LeftmostNeedsLabel(line, m, lit);
    Leftmost(line, m)
  }

  /** The leftmost match of `lit(\w+)` in the line: a non-empty run of word characters. */
  function FirstWordAfter(line: string, lit: string): (r: Option<string>)
    ensures r.Some? ==> Contains(line, lit)
    ensures r.Some? ==> |r.value| > 0 && forall k :: 0 <= k < |r.value| ==> IsWordChar(r.value[k])
    ensures r.Some? ==> Contains(line, lit + r.value)
  {
    var m := (s: string, i: nat) => WordAfterAt(s, i, lit);
    var r := Leftmost(line, m);
    if r.Some? then
      var k :| 0 <= k <= |line| && m(line, k) == r;
      WordCaptureAt(line, k, lit, r.value);
      r
    else r
  }

  lemma WordCaptureAt(line: string, k: nat, lit: string, w: string)
    requires WordAfterAt(line, k, lit) == Some(w)
    ensures Contains(line, lit) && Contains(line, lit + w)
  {
    assert StartsAt(line, k, lit + w);
  }

  /** A match with no earlier occurrence of the label is the one reported. */
  lemma FirstWordAfterIs(line: string, lit: string, k: nat)
    requires k <= |line| && WordAfterAt(line, k, lit).Some?
    requires forall j :: 0 <= j < k ==> !StartsAt(line, j, lit)
    ensures FirstWordAfter(line, lit) == WordAfterAt(line, k, lit)
  {
    LeftmostAt(line, (s: string, i: nat) => WordAfterAt(s, i, lit), k);
  }

  /** The leftmost match of `lit([^c]+)` in the line: the non-empty text after `lit` up to the next `c`. */
  function FirstUpTo(line: string, lit: string, c: char): (r: Option<string>)
    ensures r.Some? ==> |r.value| > 0 && c !in r.value
    ensures r.Some? ==> Contains(line, lit + r.value)
  {
    var m := (s: string, i: nat) => UpToAt(s, i, lit, c);
    var r := Leftmost(line, m);
    if r.Some? then
      var k :| 0 <= k <= |line| && m(line, k) == r;
      assert StartsAt(line, k, lit + r.value);
      r
    else r
  }

  /** The "keep the default unless the pattern matched" step of every field update. */
  method CaptureOr<T>(capture: Option<T>, default: T) returns (v: T)
    ensures capture.Some? ==> v == capture.value
    ensures capture.None? ==> v == default
  {
    v := default;
    if capture.Some? {
      v := capture.value;
    }
  }

  /** What follows a value printed at the head of the piece after a label: the rest of that piece, the separator, or the end. */
  lemma PieceHead(s: string, k: nat, lit: string, a: string, t: string, sep: char)
    requires LabelThenPiece(s, k, lit, a + t, sep)
    ensures FirstOccurrence(s, k, lit) && StartsAt(s, k + |lit|, a) && StartsAt(s, k + |lit| + |a|, t)
    ensures k + |lit| + |a| < |s| ==> s[k + |lit| + |a|] == if t == [] then sep else t[0]
  {
    StartsAtSplit(s, k + |lit|, a, t, k + |lit| + |a|);
    if t != [] {
      StartsAtHead(s, k + |lit| + |a|, t);
    }
  }

  /** In a line joined from pieces, `w:` (or `w=`) before a piece printed as `\d+kB...` reads back the number. */
  lemma KBLabelInJoin(parts: seq<string>, sep: char, w: string, i: nat, n: nat, t: string)
    requires sep !in w && i + 1 < |parts| && EndsWith(parts[i], w)
    requires forall m :: 0 <= m <= i ==> sep !in parts[m]
    requires forall m :: 0 <= m < i ==> !EndsWith(parts[m], w)
    requires parts[i + 1] == Decimal(n) + ("kB" + t)
    ensures FirstNatKBAfter(Join(parts, sep), w + [sep]) == Some(n)
  {
    var k := LabelInJoin(parts, sep, w, i);
    KBAfterPiece(Join(parts, sep), k, w + [sep], n, t, sep);
  }

  /** The same for a piece printed as `\d+` and a non-digit. */
  lemma NatLabelInJoin(parts: seq<string>, sep: char, w: string, i: nat, n: nat, t: string)
    requires sep !in w && !IsDigit(sep) && i + 1 < |parts| && EndsWith(parts[i], w)
    requires forall m :: 0 <= m <= i ==> sep !in parts[m]
    requires forall m :: 0 <= m < i ==> !EndsWith(parts[m], w)
    requires parts[i + 1] == Decimal(n) + t && (t == [] || !IsDigit(t[0]))
    ensures FirstNatAfter(Join(parts, sep), w + [sep]) == Some(n)
  {
    var k := LabelInJoin(parts, sep, w, i);
    NatAfterPiece(Join(parts, sep), k, w + [sep], n, t, sep);
  }

  /** The same for a piece printed as `-?\d+` and a non-digit. */
  lemma IntLabelInJoin(parts: seq<string>, sep: char, w: string, i: nat, z: int, t: string)
    requires sep !in w && !IsDigit(sep) && i + 1 < |parts| && EndsWith(parts[i], w)
    requires forall m :: 0 <= m <= i ==> sep !in parts[m]
    requires forall m :: 0 <= m < i ==> !EndsWith(parts[m], w)
    requires parts[i + 1] == SignedDecimal(z) + t && (t == [] || !IsDigit(t[0]))
    ensures FirstIntAfter(Join(parts, sep), w + [sep]) == Some(z)
  {
    var k := LabelInJoin(parts, sep, w, i);
    IntAfterPiece(Join(parts, sep), k, w + [sep], z, t, sep);
  }

  lemma KBAfterPiece(s: string, k: nat, lit: string, n: nat, t: string, sep: char)
    requires LabelThenPiece(s, k, lit, Decimal(n) + ("kB" + t), sep)
    ensures FirstNatKBAfter(s, lit) == Some(n)
  {
    PieceHead(s, k, lit, Decimal(n), "kB" + t, sep);
    StartsAtConcat(s, k + |lit| + |Decimal(n)|, "kB", t);
    NatKBAfterRead(s, lit, k, n);
  }

  lemma NatAfterPiece(s: string, k: nat, lit: string, n: nat, t: string, sep: char)
    requires LabelThenPiece(s, k, lit, Decimal(n) + t, sep) && !IsDigit(sep) && (t == [] || !IsDigit(t[0]))
    ensures FirstNatAfter(s, lit) == Some(n)
  {
    PieceHead(s, k, lit, Decimal(n), t, sep);
    NatAfterRead(s, lit, k, n);
  }

  lemma IntAfterPiece(s: string, k: nat, lit: string, z: int, t: string, sep: char)
    requires LabelThenPiece(s, k, lit, SignedDecimal(z) + t, sep) && !IsDigit(sep) && (t == [] || !IsDigit(t[0]))
    ensures FirstIntAfter(s, lit) == Some(z)
  {
    PieceHead(s, k, lit, SignedDecimal(z), t, sep);
    IntAfterRead(s, lit, k, z);
  }

  /** A word printed after the first occurrence of its label, ended by a non-word character, is what `lit(\w+)` reads. */
  lemma WordAfterPiece(s: string, k: nat, lit: string, a: string, t: string, sep: char)
    requires LabelThenPiece(s, k, lit, a + t, sep) && !IsWordChar(sep) && (t == [] || !IsWordChar(t[0]))
    requires a != [] && forall j :: 0 <= j < |a| ==> IsWordChar(a[j])
    ensures FirstWordAfter(s, lit) == Some(a)
  {
    PieceHead(s, k, lit, a, t, sep);
    WordAt(s, k, lit, a);
    FirstWordAfterIs(s, lit, k);
  }

  lemma WordAt(s: string, k: nat, lit: string, a: string)
    requires StartsAt(s, k, lit) && StartsAt(s, k + |lit|, a)
    requires a != [] && forall j :: 0 <= j < |a| ==> IsWordChar(a[j])
    requires k + |lit| + |a| < |s| ==> !IsWordChar(s[k + |lit| + |a|])
    ensures WordAfterAt(s, k, lit) == Some(a)
  {
    var p := k + |lit|;
    StartsAtLiteral(s, p, a);
    SpanEndAt(s, p, IsWordChar, p + |a|);
    assert s[p..p + |a|] == a;
  }

  /** Text without `c` printed after the first occurrence of its label and ended by `c` is what `lit([^c]+)` reads. */
  lemma UpToAfterPiece(s: string, k: nat, lit: string, a: string, t: string, sep: char, c: char)
    requires LabelThenPiece(s, k, lit, a + t, sep) && t != [] && t[0] == c
    requires a != [] && c !in a
    ensures FirstUpTo(s, lit, c) == Some(a)
  {
    PieceHead(s, k, lit, a, t, sep);
    UpToAtPrinted(s, k, lit, a, c);
    FirstUpToIs(s, lit, c, k);
  }

  lemma UpToAtPrinted(s: string, k: nat, lit: string, a: string, c: char)
    requires StartsAt(s, k, lit) && StartsAt(s, k + |lit|, a) && a != [] && c !in a
    requires k + |lit| + |a| < |s| && s[k + |lit| + |a|] == c
    ensures UpToAt(s, k, lit, c) == Some(a)
  {
    var p := k + |lit|;
    StartsAtLiteral(s, p, a);
    SpanEndAt(s, p, Except(c), p + |a|);
    assert s[p..p + |a|] == a;
  }

  /** A number printed one space after the first occurrence of its label is what `lit\s*(\d+)` reads. */
  lemma NatAfterSpacePiece(s: string, k: nat, lit: string, n: nat)
    requires LabelThenPiece(s, k, lit, [' '] + Decimal(n), ' ')
    ensures FirstNatAfterSpaces(s, lit) == Some(n)
  {
    PieceHead(s, k, lit, [' '], Decimal(n), ' ');
    StartsAtHead(s, k + |lit|, [' ']);
    NatAfterSpaceAt(s, k, lit, n);
    LeftmostAt(s, (s: string, i: nat) => NatAfterSpacesAt(s, i, lit), k);
  }

  lemma NatAfterSpaceAt(s: string, k: nat, lit: string, n: nat)
    requires StartsAt(s, k, lit) && k + |lit| < |s| && s[k + |lit|] == ' '
    requires StartsAt(s, k + |lit| + 1, Decimal(n))
    requires k + |lit| + 1 + |Decimal(n)| < |s| ==> s[k + |lit| + 1 + |Decimal(n)|] == ' '
    ensures NatAfterSpacesAt(s, k, lit) == Some(n)
  {
    NatAtDecimal(s, k + |lit| + 1, n);
    SpaceThenNat(s, k, lit, n, k + |lit| + 1 + |Decimal(n)|);
  }

  lemma SpaceThenNat(s: string, k: nat, lit: string, n: nat, e: nat)
    requires StartsAt(s, k, lit) && k + |lit| < |s| && s[k + |lit|] == ' '
    requires NatAt(s, k + |lit| + 1) == Some((n, e))
    ensures NatAfterSpacesAt(s, k, lit) == Some(n)
  {
    var p := k + |lit|;
    SpanEndAt(s, p, IsSpace, p + 1);
    assert Run0(s, p, IsSpace) == p + 1;
  }

  /** A token printed one space after the first occurrence of its label is what `lit\s*(\S+)` reads. */
  lemma TokenAfterSpacePiece(s: string, k: nat, lit: string, tok: string)
    requires LabelThenPiece(s, k, lit, [' '] + tok, ' ')
    requires tok != [] && forall j :: 0 <= j < |tok| ==> !IsSpace(tok[j])
    ensures FirstTokenAfterSpaces(s, lit) == Some(tok)
  {
    var p := k + |lit|;
    PieceHead(s, k, lit, [' '], tok, ' ');
    StartsAtLiteral(s, p + 1, tok);
    SpanEndAt(s, p, IsSpace, p + 1);
    SpanEndAt(s, p + 1, IsNonSpace, p + 1 + |tok|);
    assert s[p + 1..p + 1 + |tok|] == tok;
    assert TokenAfterSpacesAt(s, k, lit) == Some(tok);
    LeftmostAt(s, (s: string, i: nat) => TokenAfterSpacesAt(s, i, lit), k);
  }
}
