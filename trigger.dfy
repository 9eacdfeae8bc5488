/** The trigger line: `[time] proc invoked oom-killer: gfp_mask=...(...), order=N, oom_score_adj=N`. */
module Trigger {
  import opened Wrappers
  import opened Chars
  import opened Strings
  import opened Numerals
  import opened Matching
  import opened Fields
  import opened OOMTypes
  import opened Diagnostics

  const TriggerAnchor := "invoked oom-killer"

  predicate InTimestamp(c: char) { c != ']' && !IsLineTerminator(c) }

  /** `^\[(.*?)\]`: what lies between the opening bracket and the first closing bracket. */
  function TimestampCapture(line: string): (r: Option<string>)
    ensures r.Some? <==>
      |line| > 0 && line[0] == '[' &&
      exists j :: 1 <= j < |line| && line[j] == ']' && forall k :: 1 <= k < j ==> !IsLineTerminator(line[k])
    ensures r.Some? ==> |r.value| + 1 < |line| && line[1..|r.value| + 1] == r.value && line[|r.value| + 1] == ']'
    ensures r.Some? ==> forall k :: 0 <= k < |r.value| ==> InTimestamp(r.value[k])
  {
    if |line| > 0 && line[0] == '[' then
      var j := SpanEnd(line, 1, InTimestamp);
      if j < |line| && line[j] == ']' then
        assert forall k :: 0 <= k < j - 1 ==> line[1..j][k] == line[1 + k];
        Some(line[1..j])
      else
        assert forall i :: 1 <= i < |line| && line[i] == ']' ==> i >= j && j < |line| && IsLineTerminator(line[j]);
        None
    else None
  }

  /** `\s+invoked\s+oom-killer` at `e` */
  predicate InvokedOomKillerAt(s: string, e: nat) {
    match Run1(s, e, IsSpace)
    case None => false
    case Some(t) =>
      StartsAt(s, t, "invoked") &&
      match Run1(s, t + 7, IsSpace)
      case None => false
      case Some(u) => StartsAt(s, u, "oom-killer")
  }

  /** The kernel's own spelling, one space on each side, always matches. */
  lemma InvokedOomKillerPrinted(s: string, e: nat)
    requires StartsAt(s, e, " invoked oom-killer")
    ensures InvokedOomKillerAt(s, e)
  {
    InvokedOomKillerLayout(s, e);
    InvokedOomKillerRead(s, e);
  }

  lemma InvokedOomKillerLayout(s: string, e: nat)
    requires StartsAt(s, e, " invoked oom-killer")
    ensures StartsAt(s, e, " ") && StartsAt(s, e + 1, "invoked")
    ensures StartsAt(s, e + 8, " ") && StartsAt(s, e + 9, "oom-killer")
  {
    assert " invoked oom-killer" == " " + ("invoked" + (" " + "oom-killer"));
    StartsAtConcat(s, e, " ", "invoked" + (" " + "oom-killer"));
    StartsAtConcat(s, e + 1, "invoked", " " + "oom-killer");
    StartsAtConcat(s, e + 8, " ", "oom-killer");
  }

  lemma InvokedOomKillerRead(s: string, e: nat)
    requires StartsAt(s, e, " ") && StartsAt(s, e + 1, "invoked")
    requires StartsAt(s, e + 8, " ") && StartsAt(s, e + 9, "oom-killer")
    ensures InvokedOomKillerAt(s, e)
  {
    StartsAtHead(s, e, " ");
    StartsAtHead(s, e + 1, "invoked");
    StartsAtHead(s, e + 8, " ");
    StartsAtHead(s, e + 9, "oom-killer");
    SpanEndAt(s, e, IsSpace, e + 1);
    SpanEndAt(s, e + 8, IsSpace, e + 9);
  }

  /** `\s+(\w+)\s+invoked\s+oom-killer` at `p`: the word before `invoked`. */
  function NameBeforeInvokedAt(s: string, p: nat): (r: Option<string>)
    ensures r.Some? ==> p < |s| && IsSpace(s[p])
    ensures r.Some? ==> |r.value| > 0 && forall k :: 0 <= k < |r.value| ==> IsWordChar(r.value[k])
  {
    match Run1(s, p, IsSpace)
    case None => None
    case Some(q) =>
      match Run1(s, q, IsWordChar)
      case None => None
      case Some(e) =>
        if InvokedOomKillerAt(s, e) then
          assert forall k :: 0 <= k < e - q ==> s[q..e][k] == s[q + k];
          Some(s[q..e])
        else None
  }

  /**
   * The lazy `.*?\]` of the trigger-process pattern, having consumed `s[1..j]`: it stops at the
   * first closing bracket after which the rest of the pattern matches, and cannot pass a line
   * terminator.
   */
  function LazyProcessFrom(s: string, j: nat): (r: Option<string>)
    requires 1 <= j <= |s|
    ensures r.Some? ==> |r.value| > 0 && forall k :: 0 <= k < |r.value| ==> IsWordChar(r.value[k])
    decreases |s| - j
  {
    if j == |s| then None
    else if s[j] == ']' then
      var name := NameBeforeInvokedAt(s, j + 1);
      if name.Some? then name else LazyProcessFrom(s, j + 1)
    else if IsLineTerminator(s[j]) then None
    else LazyProcessFrom(s, j + 1)
  }

  /** `^\[.*?\]\s+(\w+)\s+invoked\s+oom-killer`: the word just before `invoked oom-killer`. */
  function ProcessCapture(line: string): (r: Option<string>)
    ensures r.Some? ==> |line| > 0 && line[0] == '['
    ensures r.Some? ==> |r.value| > 0 && forall k :: 0 <= k < |r.value| ==> IsWordChar(r.value[k])
  {
    if |line| > 0 && line[0] == '[' then LazyProcessFrom(line, 1) else None
  }

  /** `gfp_mask=([^(]+)\(([^)]+)\)` at `i`: the mask, and what the parentheses enclose. */
  function GfpAt(s: string, i: nat): (r: Option<(string, string)>)
    ensures r.Some? ==> StartsAt(s, i, "gfp_mask=")
    ensures r.Some? ==> StartsAt(s, i, "gfp_mask=" + r.value.0 + "(" + r.value.1 + ")")
    ensures r.Some? ==> |r.value.0| > 0 && '(' !in r.value.0 && |r.value.1| > 0 && ')' !in r.value.1
  {
    if StartsAt(s, i, "gfp_mask=") then
      var p := i + 9;
      match Run1(s, p, Except('('))
      case None => None
      case Some(e) =>
        if e < |s| then
          match Run1(s, e + 1, Except(')'))
          case None => None
          case Some(f) =>
            if f < |s| then
              GfpCapture(s, i, e, f);
              Some((s[p..e], s[e + 1..f]))
            else None
        else None
    else None
  }

  /** The text the mask pattern spans, as the label, the two captures and the parentheses. */
  lemma GfpCapture(s: string, i: nat, e: nat, f: nat)
    requires StartsAt(s, i, "gfp_mask=") && i + 9 < e < f < |s|
    requires forall k :: i + 9 <= k < e ==> Except('(')(s[k])
    requires s[e] == '('
    requires forall k :: e + 1 <= k < f ==> Except(')')(s[k])
    requires s[f] == ')'
    ensures var mask, inner := s[i + 9..e], s[e + 1..f];
      StartsAt(s, i, "gfp_mask=" + mask + "(" + inner + ")") && '(' !in mask && ')' !in inner
  {
    var mask, inner := s[i + 9..e], s[e + 1..f];
    NotInSlice(s, i + 9, e, '(');
    NotInSlice(s, e + 1, f, ')');
    assert s[e..e + 1] == "(" && s[f..f + 1] == ")";
    FiveSlices(s, i, i + 9, e, e + 1, f, f + 1);
  }

  lemma NotInSlice(s: string, a: nat, b: nat, c: char)
    requires a <= b <= |s| && forall k :: a <= k < b ==> Except(c)(s[k])
    ensures c !in s[a..b]
  {
    assert forall k :: 0 <= k < b - a ==> s[a..b][k] == s[a + k];
  }

  function FirstGfp(line: string): (r: Option<(string, string)>)
    ensures r.Some? ==> Contains(line, "gfp_mask=")
    ensures r.Some? ==> |r.value.0| > 0 && '(' !in r.value.0 && |r.value.1| > 0 && ')' !in r.value.1
  {
    var r := Leftmost(line, GfpAt);
    if r.Some? then
      var k :| 0 <= k <= |line| && GfpAt(line, k) == r;
      assert StartsAt(line, k, "gfp_mask=");
      r
    else r
  }

  /** The flag list: the parenthesised text split at `|`, each piece trimmed. */
  function GfpFlags(inner: string): (flags: seq<string>)
    ensures |flags| == |Split(inner, '|')| >= 1
    ensures forall k :: 0 <= k < |flags| ==> flags[k] == Trim(Split(inner, '|')[k]) && '|' !in flags[k]
  {
    var parts := Split(inner, '|');
    var flags := seq(|parts|, k requires 0 <= k < |parts| => Trim(parts[k]));
    forall k | 0 <= k < |flags|
      ensures '|' !in flags[k]
    {
      NotInTrim(parts[k], '|');
    }
    flags
  }

  /** The kernel prints the flags joined by `|`; splitting and trimming gives the same flags back. */
  lemma {:induction false} GfpFlagsOfJoin(flags: seq<string>)
    requires |flags| >= 1
    requires forall k :: 0 <= k < |flags| ==> '|' !in flags[k] && Trim(flags[k]) == flags[k]
    ensures GfpFlags(Join(flags, '|')) == flags
  {
    SplitJoin(flags, '|');
  }

  /** The timestamp field: the bracketed capture, trimmed. */
  function TimestampField(line: string): (r: string)
    ensures (|line| == 0 || line[0] != '[') ==> r == ""
    ensures r == Trim(r) && ']' !in r
  {
    match TimestampCapture(line)
    case None => ""
    case Some(ts) =>
      TrimIdempotent(ts);
      NotInTrim(ts, ']');
      Trim(ts)
  }

  /** The mask field: the text before the parenthesis, trimmed. */
  function GfpMaskField(line: string): (r: string)
    ensures FirstGfp(line).None? ==> r == ""
    ensures r == Trim(r) && '(' !in r
  {
    match FirstGfp(line)
    case None => ""
    case Some((mask, _)) =>
      TrimIdempotent(mask);
      NotInTrim(mask, '(');
      Trim(mask)
  }

  /** The flags field: at least one flag exactly when the pattern matched; each flag trimmed. */
  function GfpFlagsField(line: string): (r: seq<string>)
    ensures |r| >= 1 <==> FirstGfp(line).Some?
    ensures forall k :: 0 <= k < |r| ==> '|' !in r[k] && Trim(r[k]) == r[k]
  {
    match FirstGfp(line)
    case None => []
    case Some((_, inner)) =>
      var flags := GfpFlags(inner);
      forall k | 0 <= k < |flags|
        ensures Trim(flags[k]) == flags[k]
      {
        TrimIdempotent(Split(inner, '|')[k]);
      }
      flags
  }

  /**
   * The trigger record mined from the trigger line.  Each field is independent of the others,
   * and a sub-pattern that is absent leaves its field at the default.
   */
  function MineTrigger(line: string): (t: OOMTrigger)
    ensures (|line| == 0 || line[0] != '[') ==> t.timestamp == "" && t.triggerProcess == ""
    ensures t.timestamp == Trim(t.timestamp) && ']' !in t.timestamp
    ensures forall k :: 0 <= k < |t.triggerProcess| ==> IsWordChar(t.triggerProcess[k])
    ensures !Contains(line, "gfp_mask=") ==> t.gfpMask == "" && t.gfpFlags == []
    ensures |t.gfpFlags| >= 1 <==> FirstGfp(line).Some?
    ensures t.gfpMask == Trim(t.gfpMask) && '(' !in t.gfpMask
    ensures forall k :: 0 <= k < |t.gfpFlags| ==> '|' !in t.gfpFlags[k] && Trim(t.gfpFlags[k]) == t.gfpFlags[k]
    ensures !Contains(line, "order=") ==> t.order == 0
    ensures !Contains(line, "oom_score_adj=") ==> t.oomScoreAdj == 0
  {
    OOMTrigger(
      TimestampField(line),
      ProcessCapture(line).GetOr(""),
      GfpMaskField(line),
      GfpFlagsField(line),
      FirstNatAfter(line, "order=").GetOr(0),
      FirstIntAfter(line, "oom_score_adj=").GetOr(0))
  }

  /** The trigger record `parse` reports: mined from the first trigger line, or the default. */
  function TriggerOf(lines: seq<string>): (t: OOMTrigger)
    ensures FindLineContaining(lines, TriggerAnchor).None? ==> t == DefaultTrigger
    ensures forall k: nat :: IsFirstLineWith(lines, TriggerAnchor, k) ==> t == MineTrigger(lines[k])
  {
    FindLineContainingIs(lines, TriggerAnchor);
    match FindLineContaining(lines, TriggerAnchor)
    case None => DefaultTrigger
    case Some(line) => MineTrigger(line)
  }

  /** The diagnostic the trigger extractor raises: one exactly when no line holds the anchor. */
  function TriggerDiagnostics(lines: seq<string>): (d: seq<string>)
    ensures d == [] || d == [NoTriggerLine]
    ensures d == [NoTriggerLine] <==> forall k :: 0 <= k < |lines| ==> !Contains(lines[k], TriggerAnchor)
  {
    if FindLineContaining(lines, TriggerAnchor).None? then [NoTriggerLine] else []
  }

  /** `parseTrigger`: starts from the default record and overwrites each field whose sub-pattern matches. */
  method ParseTrigger(lines: seq<string>, errors: ErrorLog) returns (t: OOMTrigger)
    modifies errors
    ensures t == TriggerOf(lines)
    ensures errors.messages == old(errors.messages) + TriggerDiagnostics(lines)
  {
    t := DefaultTrigger;
    var triggerLine := FindLineContaining(lines, TriggerAnchor);
    if triggerLine.None? {
      errors.Push(NoTriggerLine);
      return;
    }
    assert old(errors.messages) + TriggerDiagnostics(lines) == errors.messages;
    t := ReadTriggerLine(triggerLine.value);
  }

  /** The fields of `parseTrigger` read from the trigger line, each kept at its default when it does not match. */
  method ReadTriggerLine(line: string) returns (t: OOMTrigger)
    ensures t == MineTrigger(line)
  {
    t := DefaultTrigger;
    if TimestampCapture(line).Some? {
      t := t.(timestamp := TimestampField(line));
    }
    var processMatch := ProcessCapture(line);
    if processMatch.Some? {
      t := t.(triggerProcess := processMatch.value);
    }
    if FirstGfp(line).Some? {
      t := t.(gfpMask := GfpMaskField(line), gfpFlags := GfpFlagsField(line));
    }
    var orderMatch := FirstNatAfter(line, "order=");
    if orderMatch.Some? {
      t := t.(order := orderMatch.value);
    }
    var scoreMatch := FirstIntAfter(line, "oom_score_adj=");
    if scoreMatch.Some? {
      t := t.(oomScoreAdj := scoreMatch.value);
    }
  }

  /** The head of a trigger line as the kernel prints it. */
  function TriggerHead(timestamp: string, process: string, rest: string): string {
    "[" + timestamp + "] " + process + " invoked oom-killer" + rest
  }

  /** The lazy bracket search passes over timestamp characters. */
  lemma {:induction false} LazySkipsTimestamp(s: string, j: nat, b: nat)
    requires 1 <= j <= b <= |s|
    requires forall k :: j <= k < b ==> InTimestamp(s[k])
    ensures LazyProcessFrom(s, j) == LazyProcessFrom(s, b)
    decreases b - j
  {
    if j < b {
      LazySkipsTimestamp(s, j + 1, b);
    }
  }

  /** Reading back a printed trigger head gives the timestamp and the process name it was printed from. */
  lemma {:induction false} TriggerHeadRoundTrip(timestamp: string, process: string, rest: string)
    requires forall k :: 0 <= k < |timestamp| ==> InTimestamp(timestamp[k])
    requires |process| > 0 && forall k :: 0 <= k < |process| ==> IsWordChar(process[k])
    ensures TimestampCapture(TriggerHead(timestamp, process, rest)) == Some(timestamp)
    ensures ProcessCapture(TriggerHead(timestamp, process, rest)) == Some(process)
  {
    var line := TriggerHead(timestamp, process, rest);
    var b := |timestamp| + 1;
    HeadTimestamp(timestamp, process, rest);
    HeadName(timestamp, process, rest);
    LazySkipsTimestamp(line, 1, b);
    assert line[b] == ']';
  }

  lemma {:induction false} HeadTimestamp(timestamp: string, process: string, rest: string)
    requires forall k :: 0 <= k < |timestamp| ==> InTimestamp(timestamp[k])
    ensures TimestampCapture(TriggerHead(timestamp, process, rest)) == Some(timestamp)
    ensures forall k :: 1 <= k < |timestamp| + 1 ==> InTimestamp(TriggerHead(timestamp, process, rest)[k])
  {
    var line := TriggerHead(timestamp, process, rest);
    var b := |timestamp| + 1;
    assert line == "[" + timestamp + "]" + (" " + process + " invoked oom-killer" + rest);
    assert forall k :: 1 <= k < b ==> line[k] == timestamp[k - 1];
    assert line[b] == ']';
    SpanEndAt(line, 1, InTimestamp, b);
    assert line[1..b] == timestamp;
  }

  lemma {:induction false} HeadName(timestamp: string, process: string, rest: string)
    requires |process| > 0 && forall k :: 0 <= k < |process| ==> IsWordChar(process[k])
    ensures NameBeforeInvokedAt(TriggerHead(timestamp, process, rest), |timestamp| + 2) == Some(process)
  {
    var line := TriggerHead(timestamp, process, rest);
    var pre := "[" + timestamp + "]";
    var q := |pre| + 1;
    var e := q + |process|;
    assert line == pre + " " + process + " invoked oom-killer" + rest;
    assert forall k :: q <= k < e ==> line[k] == process[k - q];
    assert line[q - 1] == ' ' && line[e] == ' ';
    assert line[q..e] == process;
    SpanEndAt(line, q - 1, IsSpace, q);
    SpanEndAt(line, q, IsWordChar, e);
    assert line[e..e + 19] == " invoked oom-killer";
    InvokedOomKillerPrinted(line, e);
  }

  /** The same, for the record: the trigger fields mined from a printed head. */
  lemma {:induction false} MineTriggerHead(timestamp: string, process: string, rest: string)
    requires forall k :: 0 <= k < |timestamp| ==> InTimestamp(timestamp[k])
    requires |process| > 0 && forall k :: 0 <= k < |process| ==> IsWordChar(process[k])
    ensures MineTrigger(TriggerHead(timestamp, process, rest)).timestamp == Trim(timestamp)
    ensures MineTrigger(TriggerHead(timestamp, process, rest)).triggerProcess == process
  {
    TriggerHeadRoundTrip(timestamp, process, rest);
  }

  /** The mask and the `|`-joined flags as the kernel prints them: `0x140cca(GFP_HIGHUSER_MOVABLE|__GFP_COMP`. */
  function GfpText(mask: string, flags: seq<string>): string {
    mask + "(" + Join(flags, '|')
  }

  /**
   * The trigger line as the kernel prints it, cut at its `=` signs:
   * `[T] P invoked oom-killer: gfp_mask=M(F|...), order=N, oom_score_adj=N`.
   */
  function TriggerParts(t: OOMTrigger): seq<string> {
    [ TriggerHead(t.timestamp, t.triggerProcess, ": gfp_mask"),
      GfpText(t.gfpMask, t.gfpFlags) + "), order",
      Decimal(t.order) + ", oom_score_adj",
      SignedDecimal(t.oomScoreAdj) ]
  }

  function TriggerLine(t: OOMTrigger): string {
    Join(TriggerParts(t), '=')
  }

  /** A flag as the kernel prints it: a non-empty name without white space at its ends or a delimiter of the pattern. */
  predicate PrintedFlag(f: string) {
    f != [] && '|' !in f && ')' !in f && '=' !in f && Trim(f) == f
  }

  /**
   * What the printed line needs for every field to read back: a trimmed timestamp without `]` or
   * `=`, a word for the process, a trimmed mask without `(` or `=`, and at least one flag.
   */
  predicate TriggerPrintable(t: OOMTrigger) {
    && (forall k :: 0 <= k < |t.timestamp| ==> InTimestamp(t.timestamp[k]) && t.timestamp[k] != '=')
    && Trim(t.timestamp) == t.timestamp
    && t.triggerProcess != [] && (forall k :: 0 <= k < |t.triggerProcess| ==> IsWordChar(t.triggerProcess[k]))
    && t.gfpMask != [] && '(' !in t.gfpMask && '=' !in t.gfpMask && Trim(t.gfpMask) == t.gfpMask
    && |t.gfpFlags| >= 1 && (forall k :: 0 <= k < |t.gfpFlags| ==> PrintedFlag(t.gfpFlags[k]))
  }

  /** Every field of a printed trigger line reads back. */
  lemma TriggerLineRoundTrip(t: OOMTrigger)
    requires TriggerPrintable(t)
    ensures MineTrigger(TriggerLine(t)) == t
  {
    TriggerLineHead(t);
    TriggerGfpRead(t);
    TriggerOrderRead(t);
    TriggerScoreRead(t);
  }

  lemma TriggerLineHead(t: OOMTrigger)
    requires TriggerPrintable(t)
    ensures TimestampField(TriggerLine(t)) == t.timestamp
    ensures ProcessCapture(TriggerLine(t)) == Some(t.triggerProcess)
  {
    var parts := TriggerParts(t);
    var rest := Join(parts[1..], '=');
    TriggerLineIsHead(t, parts, rest);
    TriggerHeadRoundTrip(t.timestamp, t.triggerProcess, ": gfp_mask" + ("=" + rest));
  }

  lemma TriggerLineIsHead(t: OOMTrigger, parts: seq<string>, rest: string)
    requires parts == TriggerParts(t) && rest == Join(parts[1..], '=')
    ensures TriggerLine(t) == TriggerHead(t.timestamp, t.triggerProcess, ": gfp_mask" + ("=" + rest))
  {
    assert Join(parts, '=') == parts[0] + ['='] + rest;
  }

  /** No piece of a printed trigger line holds an `=`. */
  lemma TriggerPartsEqualsFree(t: OOMTrigger)
    requires TriggerPrintable(t)
    ensures forall m :: 0 <= m < |TriggerParts(t)| ==> '=' !in TriggerParts(t)[m]
  {
    var parts := TriggerParts(t);
    forall m | 0 <= m < |parts| ensures '=' !in parts[m] {
      if m == 0 {
        assert forall k :: 0 <= k < |t.triggerProcess| ==> t.triggerProcess[k] != '=';
        assert forall k :: 0 <= k < |t.timestamp| ==> t.timestamp[k] != '=';
        HeadEqualsFree(t.timestamp, t.triggerProcess);
      } else if m == 1 {
        NoCharInJoin(t.gfpFlags, '|', '=');
        GfpEqualsFree(t.gfpMask, Join(t.gfpFlags, '|'));
      } else if m == 2 {
        NonDigitNotInDecimal('=', t.order);
      } else {
        NonDigitNotInSignedDecimal('=', t.oomScoreAdj);
      }
    }
  }

  lemma HeadEqualsFree(timestamp: string, process: string)
    requires '=' !in timestamp && '=' !in process
    ensures '=' !in TriggerHead(timestamp, process, ": gfp_mask")
  {
  }

  lemma GfpEqualsFree(mask: string, inner: string)
    requires '=' !in mask && '=' !in inner
    ensures '=' !in mask + "(" + inner + "), order"
  {
  }

  lemma TriggerLabels()
    ensures "gfp_mask" + ['='] == "gfp_mask=" && "order" + ['='] == "order="
    ensures "oom_score_adj" + ['='] == "oom_score_adj="
  {
  }

  /** The mask and the flags read back from the first `gfp_mask=`. */
  lemma TriggerGfpRead(t: OOMTrigger)
    requires TriggerPrintable(t)
    ensures GfpMaskField(TriggerLine(t)) == t.gfpMask
    ensures GfpFlagsField(TriggerLine(t)) == t.gfpFlags
  {
    TriggerGfpMatch(t);
    GfpFlagsOfJoin(t.gfpFlags);
  }

  /** The first `gfp_mask=` match of a printed trigger line captures its mask and its joined flags. */
  lemma TriggerGfpMatch(t: OOMTrigger)
    requires TriggerPrintable(t)
    ensures FirstGfp(TriggerLine(t)) == Some((t.gfpMask, Join(t.gfpFlags, '|')))
  {
    var parts := TriggerParts(t);
    TriggerPartsEqualsFree(t);
    HeadEnds(t.timestamp, t.triggerProcess);
    var k := LabelInJoin(parts, '=', "gfp_mask", 0);
    TriggerLabels();
    var inner := Join(t.gfpFlags, '|');
    NoCharInJoin(t.gfpFlags, '|', ')');
    FlagsNotEmpty(t.gfpFlags);
    GfpPrinted(TriggerLine(t), k, t.gfpMask, inner, "), order");
  }

  /** Printed flags are not empty text. */
  lemma FlagsNotEmpty(flags: seq<string>)
    requires |flags| >= 1 && flags[0] != []
    ensures Join(flags, '|') != []
  {
    JoinStarts(flags, '|');
  }

  /** The first `gfp_mask=`, followed by a mask, its flags in parentheses and anything, matches with those captures. */
  lemma GfpPrinted(s: string, k: nat, mask: string, inner: string, rest: string)
    requires FirstOccurrence(s, k, "gfp_mask=") && StartsAt(s, k + 9, mask + "(" + inner + rest)
    requires mask != [] && '(' !in mask && inner != [] && ')' !in inner && rest != [] && rest[0] == ')'
    ensures FirstGfp(s) == Some((mask, inner))
  {
    var p := k + 9;
    var e := p + |mask|;
    var f := e + 1 + |inner|;
    StartsAtSplit(s, p, mask + "(" + inner, rest, f);
    StartsAtHead(s, f, rest);
    StartsAtSplit(s, p, mask + "(", inner, e + 1);
    StartsAtSplit(s, p, mask, "(", e);
    GfpPieces(s, k, mask, inner, e, f);
    assert forall j :: 0 <= j < k ==> GfpAt(s, j).None?;
    LeftmostAt(s, GfpAt, k);
  }

  lemma GfpPieces(s: string, k: nat, mask: string, inner: string, e: nat, f: nat)
    requires StartsAt(s, k, "gfp_mask=") && StartsAt(s, k + 9, mask) && e == k + 9 + |mask|
    requires StartsAt(s, e, "(") && StartsAt(s, e + 1, inner) && f == e + 1 + |inner| && f < |s| && s[f] == ')'
    requires mask != [] && '(' !in mask && inner != [] && ')' !in inner
    ensures GfpAt(s, k) == Some((mask, inner))
  {
    var p := k + 9;
    StartsAtLiteral(s, p, mask);
    StartsAtLiteral(s, e + 1, inner);
    StartsAtHead(s, e, "(");
    SpanEndAt(s, p, Except('('), e);
    SpanEndAt(s, e + 1, Except(')'), f);
    assert s[p..e] == mask;
    assert s[e + 1..f] == inner;
  }

  lemma TriggerOrderRead(t: OOMTrigger)
    requires TriggerPrintable(t)
    ensures FirstNatAfter(TriggerLine(t), "order=") == Some(t.order)
  {
    TriggerNumbersAt(t);
  }

  lemma TriggerScoreRead(t: OOMTrigger)
    requires TriggerPrintable(t)
    ensures FirstIntAfter(TriggerLine(t), "oom_score_adj=") == Some(t.oomScoreAdj)
  {
    TriggerNumbersAt(t);
  }

  lemma TriggerNumbersAt(t: OOMTrigger)
    requires TriggerPrintable(t)
    ensures FirstNatAfter(TriggerLine(t), "order=") == Some(t.order)
    ensures FirstIntAfter(TriggerLine(t), "oom_score_adj=") == Some(t.oomScoreAdj)
  {
    var parts := TriggerParts(t);
    TriggerPartsEqualsFree(t);
    assert '=' !in parts[0] && '=' !in parts[1] && '=' !in parts[2];
    HeadEnds(t.timestamp, t.triggerProcess);
    EndsWithLast(GfpText(t.gfpMask, t.gfpFlags), "), order", "), order");
    EndsWithLast(Decimal(t.order), ", oom_score_adj", ", oom_score_adj");
    TriggerLabels();
    OrderNumber(parts, t.order);
    ScoreNumber(parts, t.oomScoreAdj);
  }

  /** The head of the line ends with the label of the mask. */
  lemma HeadEnds(timestamp: string, process: string)
    ensures EndsWith(TriggerHead(timestamp, process, ": gfp_mask"), "gfp_mask")
  {
    EndsWithLast("[" + timestamp + "] " + process + " invoked oom-killer", ": gfp_mask", "gfp_mask");
  }

  /** After the head and the mask, `order=` reads back its number. */
  lemma OrderNumber(parts: seq<string>, order: nat)
    requires |parts| == 4 && '=' !in parts[0] && '=' !in parts[1] && EndsWith(parts[0], "gfp_mask")
    requires EndsWith(parts[1], "), order") && parts[2] == Decimal(order) + ", oom_score_adj"
    ensures FirstNatAfter(Join(parts, '='), "order" + ['=']) == Some(order)
  {
    NotGfpEnd(parts[0], "order");
    SuffixEnds(parts[1], "), order", "order");
    NatLabelInJoin(parts, '=', "order", 1, order, ", oom_score_adj");
  }

  /** After the order, `oom_score_adj=` reads back its signed number. */
  lemma ScoreNumber(parts: seq<string>, adj: int)
    requires |parts| == 4 && '=' !in parts[0] && '=' !in parts[1] && '=' !in parts[2]
    requires EndsWith(parts[0], "gfp_mask") && EndsWith(parts[1], "), order") && EndsWith(parts[2], ", oom_score_adj")
    requires parts[3] == SignedDecimal(adj)
    ensures FirstIntAfter(Join(parts, '='), "oom_score_adj" + ['=']) == Some(adj)
  {
    NotGfpEnd(parts[0], "oom_score_adj");
    NotOrderEnd(parts[1]);
    SuffixEnds(parts[2], ", oom_score_adj", "oom_score_adj");
    assert parts[3] == SignedDecimal(adj) + "";
    IntLabelInJoin(parts, '=', "oom_score_adj", 2, adj, "");
  }

  lemma NotGfpEnd(h: string, w: string)
    requires EndsWith(h, "gfp_mask") && w in {"order", "oom_score_adj"}
    ensures !EndsWith(h, w)
  {
    assert h[|h| - 1] == "gfp_mask"[7];
    NotEndsWith(h, w, 0);
  }

  lemma NotOrderEnd(s: string)
    requires EndsWith(s, "), order")
    ensures !EndsWith(s, "oom_score_adj")
  {
    assert s[|s| - 1] == "), order"[7];
    NotEndsWith(s, "oom_score_adj", 0);
  }
}
