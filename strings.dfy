/**
 * The string operations of JavaScript the OOM parser relies on: `includes`, `trim`, `split` on one
 * character, and the maximal runs that greedy character-class repetitions consume.
 * Strings are sequences of characters; every pattern of the parser is ASCII, so the difference
 * between UTF-16 code units and characters never changes which text a pattern captures.
 */
module Strings {
  import opened Chars

  /** `lit` occurs in `s` starting at index `i`. */
  predicate StartsAt(s: string, i: nat, lit: string) {
    i + |lit| <= |s| && s[i..i + |lit|] == lit
  }

  /** `lit` occurs at `i` when letters are compared up to ASCII case (a literal under the `i` flag). */
  predicate StartsAtIgnoringCase(s: string, i: nat, lit: string) {
    i + |lit| <= |s| && forall k :: 0 <= k < |lit| ==> SameIgnoringCase(s[i + k], lit[k])
  }

  function ContainsFrom(s: string, sub: string, i: nat): (b: bool)
    ensures b <==> exists k :: i <= k && StartsAt(s, k, sub)
    decreases |s| - i
  {
    if i + |sub| > |s| then false
    else if s[i..i + |sub|] == sub then
      assert StartsAt(s, i, sub);
      true
    else ContainsFrom(s, sub, i + 1)
  }

  /** `s.includes(sub)` */
  function Contains(s: string, sub: string): (b: bool)
    ensures b <==> exists k :: StartsAt(s, k, sub)
  {
    ContainsFrom(s, sub, 0)
  }

  /** Text occurring inside a slice of `s` occurs in `s`. */
  lemma ContainsInSlice(s: string, a: nat, b: nat, sub: string)
    requires a <= b <= |s|
    requires Contains(s[a..b], sub)
    ensures Contains(s, sub)
  {
    var k: nat :| StartsAt(s[a..b], k, sub);
    var t := s[a + k..a + k + |sub|];
    assert |t| == |sub|;
    forall j | 0 <= j < |sub| ensures t[j] == sub[j] {
      assert sub[j] == s[a..b][k..k + |sub|][j] == s[a..b][k + j];
    }
    assert t == sub;
    assert StartsAt(s, a + k, sub);
  }

  /** Text occurring in `s` still occurs once anything is written around it. */
  lemma ContainsInContext(pre: string, s: string, post: string, sub: string)
    requires Contains(s, sub)
    ensures Contains(pre + s + post, sub)
  {
    var t := pre + s + post;
    assert t[|pre|..|pre| + |s|] == s;
    ContainsInSlice(t, |pre|, |pre| + |s|, sub);
  }

  /** The end of the maximal run of `p`-characters that starts at `i` (what a greedy `[p]*` consumes). */
  function SpanEnd(s: string, i: nat, p: char -> bool): (e: nat)
    requires i <= |s|
    ensures i <= e <= |s|
    ensures forall k :: i <= k < e ==> p(s[k])
    ensures e < |s| ==> !p(s[e])
    decreases |s| - i
  {
    if i < |s| && p(s[i]) then SpanEnd(s, i + 1, p) else i
  }

  /** A run that holds up to `e` and stops there is the maximal run. */
  lemma SpanEndAt(s: string, i: nat, p: char -> bool, e: nat)
    requires i <= e <= |s|
    requires forall k :: i <= k < e ==> p(s[k])
    requires e < |s| ==> !p(s[e])
    ensures SpanEnd(s, i, p) == e
  {
  }

  /** Every character of `t` is white space. */
  predicate AllSpace(t: string) { forall k :: 0 <= k < |t| ==> IsSpace(t[k]) }

  /** The start of the maximal run of `p`-characters that ends just before `e`. */
  function SpanBack(s: string, e: nat, p: char -> bool): (b: nat)
    requires e <= |s|
    ensures b <= e
    ensures forall k :: b <= k < e ==> p(s[k])
    ensures b > 0 ==> !p(s[b - 1])
    decreases e
  {
    if e > 0 && p(s[e - 1]) then SpanBack(s, e - 1, p) else e
  }

  /**
   * `s.trim()`: the slice of `s` left once leading and trailing white space is removed.
   * The two postconditions determine the result.
   */
  function Trim(s: string): (r: string)
    ensures exists a, b :: 0 <= a <= b <= |s| && r == s[a..b] && AllSpace(s[..a]) && AllSpace(s[b..])
    ensures r == [] || (!IsSpace(r[0]) && !IsSpace(r[|r| - 1]))
  {
    var a := SpanEnd(s, 0, IsSpace);
    if a == |s| then
      assert AllSpace(s[..a]) && AllSpace(s[a..]);
      ""
    else
      var b := SpanBack(s, |s|, IsSpace);
      TrimEnds(s, a, b);
      s[a..b]
  }

  /** When `s` is not all white space, its leading and trailing runs leave a non-space at each end. */
  lemma TrimEnds(s: string, a: nat, b: nat)
    requires a < |s| && a == SpanEnd(s, 0, IsSpace) && b == SpanBack(s, |s|, IsSpace)
    ensures a < b && AllSpace(s[..a]) && AllSpace(s[b..])
    ensures !IsSpace(s[a..b][0]) && !IsSpace(s[a..b][b - a - 1])
  {
    assert AllSpace(s[..a]);
    assert AllSpace(s[b..]);
  }

  /** A string with no white space at either end is its own trim. */
  lemma TrimUnchanged(s: string)
    requires s != [] && !IsSpace(s[0]) && !IsSpace(s[|s| - 1])
    ensures Trim(s) == s
  {
    SpanEndAt(s, 0, IsSpace, 0);
  }

  /** Trimming leaves nothing exactly when the text is all white space. */
  lemma TrimEmptyIff(s: string)
    ensures Trim(s) == [] <==> AllSpace(s)
  {
    var a := SpanEnd(s, 0, IsSpace);
    var b := SpanBack(s, |s|, IsSpace);
    assert AllSpace(s) ==> a == |s| by {
      if AllSpace(s) {
        SpanEndAt(s, 0, IsSpace, |s|);
      }
    }
    assert a < |s| ==> a < b;
  }

  /** Trimming twice is trimming once. */
  lemma {:induction false} TrimIdempotent(s: string)
    ensures Trim(Trim(s)) == Trim(s)
  {
    var t := Trim(s);
    var u := Trim(t);
    var a, b :| 0 <= a <= b <= |t| && u == t[a..b] && AllSpace(t[..a]) && AllSpace(t[b..]);
    assert t != [] ==> a == 0 && b == |t|;
  }

  /** Trimming removes characters and adds none. */
  lemma {:induction false} NotInTrim(s: string, c: char)
    requires c !in s
    ensures c !in Trim(s)
  {
    var a, b :| 0 <= a <= b <= |s| && Trim(s) == s[a..b];
    assert forall j :: 0 <= j < b - a ==> s[a..b][j] == s[a + j];
  }

  /** An occurrence of `lit` fixes the characters it covers. */
  lemma StartsAtLiteral(s: string, i: nat, lit: string)
    requires StartsAt(s, i, lit)
    ensures forall k :: i <= k < i + |lit| ==> s[k] == lit[k - i]
  {
    assert forall k :: i <= k < i + |lit| ==> s[k] == s[i..i + |lit|][k - i];
  }

  /** An occurrence of `a + b` is an occurrence of `a` followed by one of `b`. */
  lemma StartsAtConcat(s: string, i: nat, a: string, b: string)
    requires StartsAt(s, i, a + b)
    ensures StartsAt(s, i, a) && StartsAt(s, i + |a|, b)
  {
    assert s[i..i + |a|] == s[i..i + |a + b|][..|a|];
    assert s[i + |a|..i + |a| + |b|] == s[i..i + |a + b|][|a|..];
  }

  /** The same, with the position where `b` starts given. */
  lemma StartsAtSplit(s: string, i: nat, a: string, b: string, j: nat)
    requires StartsAt(s, i, a + b) && j == i + |a|
    ensures StartsAt(s, i, a) && StartsAt(s, j, b)
  {
    StartsAtConcat(s, i, a, b);
  }

  /** Where each of four concatenated pieces starts. */
  lemma FourPieces(s: string, a: string, b: string, c: string, d: string)
    requires s == a + (b + (c + d))
    ensures StartsAt(s, 0, a) && StartsAt(s, |a|, b) && StartsAt(s, |a| + |b|, c)
    ensures |s| == |a| + |b| + |c| + |d|
  {
    assert s[0..|s|] == s;
    StartsAtConcat(s, 0, a, b + (c + d));
    StartsAtConcat(s, |a|, b, c + d);
    StartsAtConcat(s, |a| + |b|, c, d);
  }


  /** A slice cut at four inner points is the concatenation of the five pieces. */
  lemma FiveSlices(s: string, a: nat, b: nat, c: nat, d: nat, e: nat, f: nat)
    requires a <= b <= c <= d <= e <= f <= |s|
    ensures s[a..f] == s[a..b] + s[b..c] + s[c..d] + s[d..e] + s[e..f]
  {
    assert s[a..f] == s[a..b] + s[b..f];
    assert s[b..f] == s[b..c] + s[c..f];
    assert s[c..f] == s[c..d] + s[d..f];
    assert s[d..f] == s[d..e] + s[e..f];
  }

  /** A suffix made of `a` then `b` holds `a` at its start and `b` after it. */
  lemma SuffixConcat(s: string, p: nat, a: string, b: string)
    requires p <= |s| && s[p..] == a + b
    ensures s[p..p + |a|] == a && s[p + |a|..] == b
    ensures forall j :: 0 <= j < |a| ==> s[p + j] == a[j]
  {
    assert s[p..p + |a|] == s[p..][..|a|];
    assert s[p + |a|..] == s[p..][|a|..];
  }

  /** A text containing `a + b` contains `a`. */
  lemma {:induction false} ContainsPrefix(s: string, a: string, b: string)
    requires Contains(s, a + b)
    ensures Contains(s, a)
  {
    var k: nat :| StartsAt(s, k, a + b);
    assert s[k..k + |a|] == (a + b)[..|a|] == a;
    assert StartsAt(s, k, a);
  }

  /** The first index at or after `i` holding `c`, or `|s|` when there is none. */
  function IndexOfChar(s: string, c: char, i: nat): (k: nat)
    requires i <= |s|
    ensures i <= k <= |s|
    ensures forall j :: i <= j < k ==> s[j] != c
    ensures k < |s| ==> s[k] == c
    decreases |s| - i
  {
    if i == |s| || s[i] == c then i else IndexOfChar(s, c, i + 1)
  }

  /** `s.split(sep)` for a one-character separator: the pieces between separators, in order. */
  function Split(s: string, sep: char): (parts: seq<string>)
    ensures |parts| >= 1
    ensures forall k :: 0 <= k < |parts| ==> sep !in parts[k]
    decreases |s|
  {
    var k := IndexOfChar(s, sep, 0);
    if k == |s| then
      [s]
    else
      assert forall j :: 0 <= j < k ==> s[..k][j] != sep;
      [s[..k]] + Split(s[k + 1..], sep)
  }

  /** `parts.join(sep)` */
  function Join(parts: seq<string>, sep: char): string {
    if |parts| == 0 then ""
    else if |parts| == 1 then parts[0]
    else parts[0] + [sep] + Join(parts[1..], sep)
  }

  /** Splitting loses nothing: joining the pieces back gives the original text. */
  lemma {:induction false} JoinSplit(s: string, sep: char)
    ensures Join(Split(s, sep), sep) == s
    decreases |s|
  {
    var k := IndexOfChar(s, sep, 0);
    if k < |s| {
      JoinSplit(s[k + 1..], sep);
      assert s == s[..k] + [sep] + s[k + 1..];
    }
  }

  /** Joining pieces that hold no separator and splitting again gives back the same pieces. */
  lemma {:induction false} SplitJoin(parts: seq<string>, sep: char)
    requires |parts| >= 1
    requires forall k :: 0 <= k < |parts| ==> sep !in parts[k]
    ensures Split(Join(parts, sep), sep) == parts
    decreases |parts|
  {
    assert sep !in parts[0];
    if |parts| == 1 {
      SplitWithoutSeparator(parts[0], sep);
      assert parts == [parts[0]];
    } else {
      var rest := parts[1..];
      assert forall k :: 0 <= k < |rest| ==> sep !in rest[k] by {
        assert forall k :: 0 <= k < |rest| ==> rest[k] == parts[k + 1];
      }
      SplitJoin(rest, sep);
      SplitAtFirst(parts[0], sep, Join(rest, sep));
      JoinAgain(parts, sep, Split(Join(parts, sep), sep));
    }
  }

  /** Text without the separator is a single piece. */
  lemma SplitWithoutSeparator(p: string, sep: char)
    requires sep !in p
    ensures Split(p, sep) == [p]
  {
    assert forall j :: 0 <= j < |p| ==> p[j] != sep by {
      assert forall j :: 0 <= j < |p| ==> p[j] in p;
    }
    assert IndexOfChar(p, sep, 0) == |p|;
  }

  /** Text without the separator, the separator, and more text: the first piece, then the rest. */
  lemma SplitAtFirst(p: string, sep: char, rest: string)
    requires sep !in p
    ensures Split(p + [sep] + rest, sep) == [p] + Split(rest, sep)
  {
    var s := p + [sep] + rest;
    assert forall j :: 0 <= j < |p| ==> s[j] == p[j] && s[j] != sep by {
      assert forall j :: 0 <= j < |p| ==> p[j] in p;
    }
    IndexOfCharAt(s, sep, 0, |p|);
    assert s[..|p|] == p;
    assert s[|p| + 1..] == rest;
  }

  /** The split of the joined pieces, once its first piece and the rest are known. */
  lemma JoinAgain(parts: seq<string>, sep: char, split: seq<string>)
    requires |parts| >= 2
    requires Split(parts[0] + [sep] + Join(parts[1..], sep), sep) == [parts[0]] + Split(Join(parts[1..], sep), sep)
    requires Split(Join(parts[1..], sep), sep) == parts[1..]
    requires split == Split(Join(parts, sep), sep)
    ensures split == parts
  {
    assert Join(parts, sep) == parts[0] + [sep] + Join(parts[1..], sep);
    assert [parts[0]] + parts[1..] == parts;
  }

  /** The first `c` at or after `i` is the one at `e` when none comes between. */
  lemma {:induction false} IndexOfCharAt(s: string, c: char, i: nat, e: nat)
    requires i <= e < |s| && s[e] == c
    requires forall k :: i <= k < e ==> s[k] != c
    ensures IndexOfChar(s, c, i) == e
    decreases e - i
  {
    if i < e { IndexOfCharAt(s, c, i + 1, e); }
  }

  /** A piece of a split is a slice of the text, so what a piece contains the text contains. */
  lemma {:induction false} ContainsOfPiece(s: string, sep: char, k: nat, sub: string)
    requires k < |Split(s, sep)|
    requires Contains(Split(s, sep)[k], sub)
    ensures Contains(s, sub)
    decreases |s|
  {
    var e := IndexOfChar(s, sep, 0);
    if k == 0 {
      FirstPiece(s, sep, sub);
    } else {
      LaterPiece(s, sep, k);
      ContainsOfPiece(s[e + 1..], sep, k - 1, sub);
      ContainsInTail(s, e + 1, sub);
    }
  }

  /** The first piece is a prefix of the text. */
  lemma FirstPiece(s: string, sep: char, sub: string)
    requires Contains(Split(s, sep)[0], sub)
    ensures Contains(s, sub)
  {
    var e := IndexOfChar(s, sep, 0);
    if e < |s| {
      assert Split(s, sep)[0] == s[..e];
      ContainsInSlice(s, 0, e, sub);
    }
  }

  /** A piece after the first separator is a piece of the text after it. */
  lemma LaterPiece(s: string, sep: char, k: nat)
    requires 0 < k < |Split(s, sep)|
    ensures IndexOfChar(s, sep, 0) < |s|
    ensures var e := IndexOfChar(s, sep, 0);
      k - 1 < |Split(s[e + 1..], sep)| && Split(s, sep)[k] == Split(s[e + 1..], sep)[k - 1]
  {
    var e := IndexOfChar(s, sep, 0);
    SplitStep(s, sep);
    if e < |s| {
      ConsIndex(Split(s, sep), s[..e], Split(s[e + 1..], sep), k);
    }
  }

  /** How `Split` unfolds at the first separator. */
  lemma SplitStep(s: string, sep: char)
    ensures var e := IndexOfChar(s, sep, 0);
      (e == |s| ==> Split(s, sep) == [s]) && (e < |s| ==> Split(s, sep) == [s[..e]] + Split(s[e + 1..], sep))
  {
  }

  lemma ConsIndex<T>(xs: seq<T>, head: T, rest: seq<T>, k: nat)
    requires xs == [head] + rest && 0 < k < |xs|
    ensures k - 1 < |rest| && xs[k] == rest[k - 1]
  {
  }

  lemma ContainsInTail(s: string, a: nat, sub: string)
    requires a <= |s| && Contains(s[a..], sub)
    ensures Contains(s, sub)
  {
    assert s[a..] == s[a..|s|];
    ContainsInSlice(s, a, |s|, sub);
  }

  /** `lit` occurs at `k` and nowhere before. */
  predicate FirstOccurrence(s: string, k: nat, lit: string) {
    StartsAt(s, k, lit) && forall j :: 0 <= j < k ==> !StartsAt(s, j, lit)
  }

  /**
   * `lit` first occurs at `k`, and `next` follows it up to the end of the text or to a `sep`:
   * the shape of a printed field whose label is `lit` and whose value text starts `next`.
   */
  predicate LabelThenPiece(s: string, k: nat, lit: string, next: string, sep: char) {
    && FirstOccurrence(s, k, lit)
    && StartsAt(s, k + |lit|, next)
    && (k + |lit| + |next| == |s| || (k + |lit| + |next| < |s| && s[k + |lit| + |next|] == sep))
  }

  /** `s` ends with `w`. */
  predicate EndsWith(s: string, w: string) {
    |w| <= |s| && s[|s| - |w|..] == w
  }

  /** A text ends with whatever its last piece ends with. */
  lemma EndsWithLast(x: string, l: string, w: string)
    requires |w| <= |l| && l[|l| - |w|..] == w
    ensures EndsWith(x + l, w)
  {
    assert (x + l)[|x + l| - |w|..] == l[|l| - |w|..];
  }

  /** Text ends with the last piece written onto it. */
  lemma EndsWithTail(x: string, a: string, w: string)
    ensures EndsWith(x + (a + w), w)
  {
    EndsWithLast(x, a + w, w);
  }

  /** Text ending with `u` ends with every ending of `u`. */
  lemma SuffixEnds(s: string, u: string, w: string)
    requires EndsWith(s, u) && |w| <= |u| && u[|u| - |w|..] == w
    ensures EndsWith(s, w)
  {
    assert s[|s| - |w|..] == s[|s| - |u|..][|u| - |w|..];
  }

  /** Two characters that differ `d` places from the end rule the ending out. */
  lemma NotEndsWith(s: string, w: string, d: nat)
    requires d < |w| && d < |s| && s[|s| - 1 - d] != w[|w| - 1 - d]
    ensures !EndsWith(s, w)
  {
  }

  /** An occurrence in the text after a prefix is an occurrence in the whole, shifted by the prefix. */
  lemma StartsAtShift(a: string, t: string, j: nat, lit: string)
    ensures StartsAt(a + t, |a| + j, lit) <==> StartsAt(t, j, lit)
  {
    if j + |lit| <= |t| {
      assert (a + t)[|a| + j..|a| + j + |lit|] == t[j..j + |lit|];
    }
  }

  /** The joined text begins with its first piece, followed by the separator when more pieces follow. */
  lemma JoinStarts(parts: seq<string>, sep: char)
    requires |parts| >= 1
    ensures StartsAt(Join(parts, sep), 0, parts[0])
    ensures |parts| == 1 ==> Join(parts, sep) == parts[0]
    ensures |parts| >= 2 ==> |parts[0]| < |Join(parts, sep)| && Join(parts, sep)[|parts[0]|] == sep
  {
    var s := Join(parts, sep);
    if |parts| >= 2 {
      assert s == parts[0] + ([sep] + Join(parts[1..], sep));
      assert s[..|parts[0]|] == parts[0];
    } else {
      assert s[0..|s|] == s;
    }
  }

  /** A character that differs from the literal's rules its occurrence out. */
  lemma NotStartsAtChar(s: string, i: nat, lit: string, d: nat)
    requires d < |lit| && i + d < |s| && s[i + d] != lit[d]
    ensures !StartsAt(s, i, lit)
  {
    if i + |lit| <= |s| {
      assert s[i..i + |lit|][d] == s[i + d];
    }
  }

  /** No `w` followed by the separator starts within the first piece or across the separator after it. */
  lemma NoLabelInFirstPiece(a: string, sep: char, t: string, w: string, j: nat)
    requires sep !in a && sep !in w && j <= |a| && j + |w| != |a|
    ensures !StartsAt(a + [sep] + t, j, w + [sep])
  {
    var s := a + [sep] + t;
    if j + |w| < |a| {
      assert s[j + |w|] == a[j + |w|];
      NotStartsAtChar(s, j, w + [sep], |w|);
    } else {
      assert (w + [sep])[|a| - j] == w[|a| - j];
      NotStartsAtChar(s, j, w + [sep], |a| - j);
    }
  }

  /** One that ends where the first piece does makes the piece end with `w`. */
  lemma LabelAtPieceEnd(a: string, sep: char, t: string, w: string, j: nat)
    requires j + |w| == |a|
    ensures StartsAt(a + [sep] + t, j, w + [sep]) ==> EndsWith(a, w)
  {
    var s := a + [sep] + t;
    if StartsAt(s, j, w + [sep]) {
      assert s[j..j + |w|] == (w + [sep])[..|w|];
      assert a[j..] == s[j..j + |w|];
    }
  }

  /**
   * In text joined from pieces, `w` followed by the separator first occurs at the end of the first
   * piece that ends with `w`, when neither `w` nor the pieces up to that one hold the separator;
   * the next piece follows it.  This is how a `label:` or `label=` of a printed line is found.
   */
  lemma {:induction false} LabelInJoin(parts: seq<string>, sep: char, w: string, i: nat) returns (k: nat)
    requires sep !in w && i + 1 < |parts| && EndsWith(parts[i], w)
    requires forall m :: 0 <= m <= i ==> sep !in parts[m]
    requires forall m :: 0 <= m < i ==> !EndsWith(parts[m], w)
    ensures LabelThenPiece(Join(parts, sep), k, w + [sep], parts[i + 1], sep)
    decreases i
  {
    if i == 0 {
      k := LabelEndsFirstPiece(parts, sep, w);
    } else {
      var rest := parts[1..];
      assert forall m :: 0 <= m < |rest| ==> rest[m] == parts[m + 1];
      var k' := LabelInJoin(rest, sep, w, i - 1);
      k := LabelInLaterPiece(parts, sep, w, i, k');
    }
  }

  lemma LabelEndsFirstPiece(parts: seq<string>, sep: char, w: string) returns (k: nat)
    requires sep !in w && 1 < |parts| && EndsWith(parts[0], w) && sep !in parts[0]
    ensures LabelThenPiece(Join(parts, sep), k, w + [sep], parts[1], sep)
  {
    var a := parts[0];
    var pre := a + [sep];
    var t := Join(parts[1..], sep);
    var s := Join(parts, sep);
    assert s == pre + t;
    k := |a| - |w|;
    assert s[k..k + |w| + 1] == a[k..] + [sep];
    JoinStarts(parts[1..], sep);
    StartsAtShift(pre, t, 0, parts[1]);
    forall j | 0 <= j < k ensures !StartsAt(s, j, w + [sep]) {
      NoLabelInFirstPiece(a, sep, t, w, j);
    }
  }

  lemma LabelInLaterPiece(parts: seq<string>, sep: char, w: string, i: nat, k': nat) returns (k: nat)
    requires sep !in w && 0 < i && i + 1 < |parts| && sep !in parts[0] && !EndsWith(parts[0], w)
    requires LabelThenPiece(Join(parts[1..], sep), k', w + [sep], parts[i + 1], sep)
    ensures k == |parts[0]| + 1 + k'
    ensures LabelThenPiece(Join(parts, sep), k, w + [sep], parts[i + 1], sep)
  {
    var a := parts[0];
    var pre := a + [sep];
    var t := Join(parts[1..], sep);
    var s := Join(parts, sep);
    assert s == pre + t;
    k := |pre| + k';
    StartsAtShift(pre, t, k', w + [sep]);
    StartsAtShift(pre, t, k' + |w| + 1, parts[i + 1]);
    forall j | 0 <= j < k ensures !StartsAt(s, j, w + [sep]) {
      if j + |w| == |a| {
        LabelAtPieceEnd(a, sep, t, w, j);
      } else if j <= |a| {
        NoLabelInFirstPiece(a, sep, t, w, j);
      } else {
        StartsAtShift(pre, t, j - |pre|, w + [sep]);
      }
    }
  }

  /**
   * In text joined from pieces, a piece `w` without the separator first occurs where that piece
   * is printed when no earlier piece holds it; the separator and the next piece follow it, and
   * the previous piece and a separator come just before it.  This is how a label printed as a
   * token of its own (`CPU:`, `Comm:`) is found.
   */
  lemma {:induction false} WordInJoin(parts: seq<string>, sep: char, w: string, i: nat) returns (k: nat)
    requires sep !in w && w != [] && i + 1 < |parts| && parts[i] == w
    requires forall m :: 0 <= m < i ==> !Contains(parts[m], w)
    ensures LabelThenPiece(Join(parts, sep), k, w, [sep] + parts[i + 1], sep)
    ensures i == 0 ==> k == 0
    ensures 0 < i ==> |parts[i - 1]| + 1 <= k && StartsAt(Join(parts, sep), k - |parts[i - 1]| - 1, parts[i - 1] + [sep])
    decreases i
  {
    if i == 0 {
      k := WordIsFirstPiece(parts, sep);
    } else {
      var rest := parts[1..];
      assert forall m :: 0 <= m < |rest| ==> rest[m] == parts[m + 1];
      var k' := WordInJoin(rest, sep, w, i - 1);
      k := WordInLaterPiece(parts, sep, w, i, k');
    }
  }

  lemma WordIsFirstPiece(parts: seq<string>, sep: char) returns (k: nat)
    requires 1 < |parts|
    ensures k == 0 && LabelThenPiece(Join(parts, sep), k, parts[0], [sep] + parts[1], sep)
  {
    var w := parts[0];
    var pre := w + [sep];
    var t := Join(parts[1..], sep);
    var s := Join(parts, sep);
    assert s == pre + t;
    JoinStarts(parts[1..], sep);
    k := 0;
    StartsAtShift(pre, t, 0, parts[1]);
    assert s[..|w|] == w;
    StartsAtJoined(s, |w|, [sep], parts[1]);
  }

  lemma WordInLaterPiece(parts: seq<string>, sep: char, w: string, i: nat, k': nat) returns (k: nat)
    requires sep !in w && 0 < i && i + 1 < |parts| && !Contains(parts[0], w)
    requires LabelThenPiece(Join(parts[1..], sep), k', w, [sep] + parts[i + 1], sep)
    requires i == 1 ==> k' == 0
    requires 1 < i ==> |parts[i - 1]| + 1 <= k' && StartsAt(Join(parts[1..], sep), k' - |parts[i - 1]| - 1, parts[i - 1] + [sep])
    ensures LabelThenPiece(Join(parts, sep), k, w, [sep] + parts[i + 1], sep)
    ensures |parts[i - 1]| + 1 <= k && StartsAt(Join(parts, sep), k - |parts[i - 1]| - 1, parts[i - 1] + [sep])
  {
    var a := parts[0];
    var pre := a + [sep];
    var t := Join(parts[1..], sep);
    var s := Join(parts, sep);
    assert s == pre + t;
    k := |pre| + k';
    StartsAtShift(pre, t, k', w);
    StartsAtShift(pre, t, k' + |w|, [sep] + parts[i + 1]);
    forall j | 0 <= j < k ensures !StartsAt(s, j, w) {
      NoEarlierWord(a, sep, t, w, k', j);
    }
    if i == 1 {
      assert s[..|pre|] == pre;
    } else {
      StartsAtShift(pre, t, k' - |parts[i - 1]| - 1, parts[i - 1] + [sep]);
    }
  }

  lemma NoEarlierWord(a: string, sep: char, t: string, w: string, k': nat, j: nat)
    requires sep !in w && !Contains(a, w) && FirstOccurrence(t, k', w) && j < |a| + 1 + k'
    ensures !StartsAt(a + [sep] + t, j, w)
  {
    var s := a + [sep] + t;
    if j + |w| <= |a| {
      SubInFirstPiece(a, sep, t, w, j);
    } else if j <= |a| {
      assert s[|a|] == sep;
      assert w[|a| - j] in w;
      NotStartsAtChar(s, j, w, |a| - j);
    } else {
      assert s == (a + [sep]) + t;
      StartsAtShift(a + [sep], t, j - |a| - 1, w);
    }
  }

  lemma StartsAtJoined(s: string, i: nat, a: string, b: string)
    requires StartsAt(s, i, a) && StartsAt(s, i + |a|, b)
    ensures StartsAt(s, i, a + b)
  {
    assert s[i..i + |a| + |b|] == s[i..i + |a|] + s[i + |a|..i + |a| + |b|];
  }

  lemma SubInFirstPiece(a: string, sep: char, t: string, w: string, j: nat)
    requires j + |w| <= |a| && !Contains(a, w)
    ensures !StartsAt(a + [sep] + t, j, w)
  {
    assert !StartsAt(a, j, w);
    assert (a + [sep] + t)[j..j + |w|] == a[j..j + |w|];
  }

  /** Text without the separator that no piece holds is not in the joined text either. */
  lemma {:induction false} NoSubInJoin(parts: seq<string>, sep: char, sub: string)
    requires sub != [] && sep !in sub
    requires forall m :: 0 <= m < |parts| ==> !Contains(parts[m], sub)
    ensures !Contains(Join(parts, sep), sub)
    decreases |parts|
  {
    if |parts| >= 2 {
      var rest := parts[1..];
      assert forall m :: 0 <= m < |rest| ==> rest[m] == parts[m + 1];
      NoSubInJoin(rest, sep, sub);
      NoSubAcross(parts[0], sep, Join(rest, sep), sub);
    } else if |parts| == 1 {
    } else {
      assert Join(parts, sep) == [];
    }
  }

  /** Text without a character `c` that is in neither side of `a c t` is not in `a c t`. */
  lemma NoSubAcross(a: string, c: char, t: string, sub: string)
    requires c !in sub && !Contains(a, sub) && !Contains(t, sub)
    ensures !Contains(a + [c] + t, sub)
  {
    var s := a + [c] + t;
    forall k: nat ensures !StartsAt(s, k, sub) {
      if k + |sub| <= |a| {
        if StartsAt(s, k, sub) {
          assert a[k..k + |sub|] == s[k..k + |sub|];
          assert StartsAt(a, k, sub);
        }
      } else if k > |a| {
        StartsAtShift(a + [c], t, k - |a| - 1, sub);
      } else if k + |sub| <= |s| {
        NotStartsAtChar(s, k, sub, |a| - k);
      }
    }
  }

  /** Text holding a character that `s` lacks is not in `s`. */
  lemma NoSubWithoutChar(s: string, sub: string, d: nat)
    requires d < |sub| && sub[d] !in s
    ensures !Contains(s, sub)
  {
    forall k: nat ensures !StartsAt(s, k, sub) {
      if k + d < |s| {
        NotStartsAtChar(s, k, sub, d);
      }
    }
  }

  /** A character that is neither the separator nor in any piece is not in the joined text. */
  lemma {:induction false} NoCharInJoin(parts: seq<string>, sep: char, c: char)
    requires c != sep && forall m :: 0 <= m < |parts| ==> c !in parts[m]
    ensures c !in Join(parts, sep)
    decreases |parts|
  {
    if |parts| >= 2 {
      var rest := parts[1..];
      assert forall m :: 0 <= m < |rest| ==> rest[m] == parts[m + 1];
      NoCharInJoin(rest, sep, c);
    }
  }
}
