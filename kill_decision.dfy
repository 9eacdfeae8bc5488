/**
 * The kernel's decision: the `oom-kill:` line that names the constraint and the victim's
 * cgroup, and the `Out of memory: Killed process` line that reports what was freed.
 */
module KillDecisionExtractor {
  import opened Wrappers
  import opened Chars
  import opened Strings
  import opened Numerals
  import opened Matching
  import opened Fields
  import opened OOMTypes
  import opened Diagnostics

  const ConstraintAnchor := "oom-kill:"
  const KilledAnchor := "Out of memory: Killed process"
  const KilledLabel := "Killed process "
  const NullText := "(null)"

  /** `nodemask=([^,]+)`, trimmed; the kernel's `(null)` means no node mask. */
  function NodemaskField(line: string): (r: Option<string>)
    ensures FirstUpTo(line, "nodemask=", ',').None? ==> r.None?
    ensures r.Some? ==> r.value != NullText && Trim(r.value) == r.value && ',' !in r.value
    ensures r.Some? ==> Contains(line, "nodemask=")
  {
    match FirstUpTo(line, "nodemask=", ',')
    case None => None
    case Some(v) =>
      TrimIdempotent(v);
      NotInTrim(v, ',');
      ContainsPrefix(line, "nodemask=", v);
      var t := Trim(v);
      if t == NullText then None else Some(t)
  }

  /** The constraint record read from an `oom-kill:` line: every field not found keeps its default. */
  function MineConstraint(line: string): OOMConstraint {
    OOMConstraint(
      FirstWordAfter(line, "constraint=").GetOr(""),
      NodemaskField(line),
      FirstUpTo(line, "cpuset=", ',').GetOr(""),
      FirstUpTo(line, "mems_allowed=", ',').GetOr(""),
      Contains(line, "global_oom"),
      FirstUpTo(line, "task_memcg=", ',').GetOr(""),
      FirstUpTo(line, "task=", ',').GetOr(""),
      FirstNatAfter(line, "pid=").GetOr(0),
      FirstNatAfter(line, "uid=").GetOr(0))
  }

  /** What the constraint record holds, and which fields keep their defaults when the line lacks their label. */
  lemma ConstraintFields(line: string)
    ensures var c := MineConstraint(line);
      && (c.globalOom <==> Contains(line, "global_oom"))
      && (!Contains(line, "nodemask=") ==> c.nodemask.None?)
      && c.nodemask != Some(NullText)
      && (!Contains(line, "constraint=") ==> c.constraint == "")
      && (forall k :: 0 <= k < |c.constraint| ==> IsWordChar(c.constraint[k]))
      && ',' !in c.cpuset && ',' !in c.memsAllowed && ',' !in c.taskMemcg && ',' !in c.task
      && (!Contains(line, "pid=") ==> c.pid == 0)
      && (!Contains(line, "uid=") ==> c.uid == 0)
  {
  }

  /** The constraint record `parse` reports: mined from the first `oom-kill:` line, or the default. */
  function ConstraintOf(lines: seq<string>): (c: OOMConstraint)
    ensures FindLineContaining(lines, ConstraintAnchor).None? ==> c == DefaultConstraint
    ensures c.globalOom ==> exists k :: 0 <= k < |lines| && Contains(lines[k], ConstraintAnchor) && Contains(lines[k], "global_oom")
    ensures forall k: nat :: IsFirstLineWith(lines, ConstraintAnchor, k) ==> c == MineConstraint(lines[k])
  {
    FindLineContainingIs(lines, ConstraintAnchor);
    match FindLineContaining(lines, ConstraintAnchor)
    case None => DefaultConstraint
    case Some(line) => MineConstraint(line)
  }

  /** The diagnostic the constraint extractor raises: one exactly when no line holds the anchor. */
  function ConstraintDiagnostics(lines: seq<string>): (d: seq<string>)
    ensures d == [] || d == [NoConstraintLine]
    ensures d == [NoConstraintLine] <==> forall k :: 0 <= k < |lines| ==> !Contains(lines[k], ConstraintAnchor)
  {
    if FindLineContaining(lines, ConstraintAnchor).None? then [NoConstraintLine] else []
  }

  /** `parseOOMConstraint`: the default record, or the fields of the first `oom-kill:` line. */
  method ParseOOMConstraint(lines: seq<string>, errors: ErrorLog) returns (c: OOMConstraint)
    modifies errors
    ensures c == ConstraintOf(lines)
    ensures errors.messages == old(errors.messages) + ConstraintDiagnostics(lines)
  {
    c := DefaultConstraint;
    var oomKillLine := FindLineContaining(lines, ConstraintAnchor);
    if oomKillLine.None? {
      errors.Push(NoConstraintLine);
      return;
    }
    assert old(errors.messages) + ConstraintDiagnostics(lines) == errors.messages;
    c := ReadConstraintLine(oomKillLine.value);
  }

  /** The field-by-field updates of the found line: each field keeps its default unless its pattern matches. */
  method ReadConstraintLine(line: string) returns (c: OOMConstraint)
    ensures c == MineConstraint(line)
  {
    c := DefaultConstraint;
    var constraint := CaptureOr(FirstWordAfter(line, "constraint="), c.constraint);
    c := c.(constraint := constraint);
    var nodemask := ReadNodemask(line);
    c := c.(nodemask := nodemask);
    var cpuset := CaptureOr(FirstUpTo(line, "cpuset=", ','), c.cpuset);
    c := c.(cpuset := cpuset);
    var memsAllowed := CaptureOr(FirstUpTo(line, "mems_allowed=", ','), c.memsAllowed);
    c := c.(memsAllowed := memsAllowed);
    c := c.(globalOom := Contains(line, "global_oom"));
    var taskMemcg := CaptureOr(FirstUpTo(line, "task_memcg=", ','), c.taskMemcg);
    c := c.(taskMemcg := taskMemcg);
    var task := CaptureOr(FirstUpTo(line, "task=", ','), c.task);
    c := c.(task := task);
    var pid := CaptureOr(FirstNatAfter(line, "pid="), c.pid);
    c := c.(pid := pid);
    var uid := CaptureOr(FirstNatAfter(line, "uid="), c.uid);
    c := c.(uid := uid);
  }

  /** The node mask update: the trimmed capture, with the kernel's `(null)` read as no mask. */
  method ReadNodemask(line: string) returns (nodemask: Option<string>)
    ensures nodemask == NodemaskField(line)
  {
    nodemask := DefaultConstraint.nodemask;
    var nodemaskMatch := FirstUpTo(line, "nodemask=", ',');
    if nodemaskMatch.Some? {
      var value := Trim(nodemaskMatch.value);
      nodemask := if value == NullText then None else Some(value);
    }
  }

  /**
   * The kernel prints `nodemask=(null)` when the allocation had no node mask; when that is the
   * first `nodemask=` of the line, the record has none.
   */
  lemma NullNodemask(line: string, k: nat)
    requires forall j :: 0 <= j < k ==> !StartsAt(line, j, "nodemask=")
    requires StartsAt(line, k, "nodemask=(null)")
    requires k + 15 < |line| ==> line[k + 15] == ','
    ensures NodemaskField(line) == None
  {
    NullCapture(line, k);
    FirstUpToIs(line, "nodemask=", ',', k);
    NullTextTrimmed();
  }

  lemma NullTextTrimmed()
    ensures Trim(NullText) == NullText
  {
    TrimUnchanged(NullText);
  }

  /** The capture at such a `nodemask=` is exactly the `(null)` text. */
  lemma NullCapture(line: string, k: nat)
    requires StartsAt(line, k, "nodemask=(null)")
    requires k + 15 < |line| ==> line[k + 15] == ','
    ensures UpToAt(line, k, "nodemask=", ',') == Some(NullText)
  {
    StartsAtSplit(line, k, "nodemask=", NullText, k + 9);
    StartsAtLiteral(line, k + 9, NullText);
    SpanEndAt(line, k + 9, Except(','), k + 15);
    assert line[k + 9..k + 15] == NullText;
  }

  /** How the kernel prints a node mask: the mask, or `(null)` when there is none. */
  function NodemaskText(nodemask: Option<string>): string {
    if nodemask.Some? then nodemask.value else NullText
  }

  /** What follows the node list of `mems_allowed=`: the `global_oom` flag when the condition is system-wide. */
  function MemsTail(globalOom: bool): string {
    if globalOom then ",global_oom,task_memcg" else ",task_memcg"
  }

  /** A value, then a comma and the label of the next one. */
  function Labelled(v: string, w: string): string {
    v + ([','] + w)
  }

  /**
   * The `oom-kill:` line as the kernel prints it, after whatever precedes it, cut at its `=` signs:
   * `oom-kill:constraint=C,nodemask=M,cpuset=S,mems_allowed=N[,global_oom],task_memcg=G,task=T,pid=P,uid=U`.
   */
  function ConstraintParts(pre: string, c: OOMConstraint): seq<string> {
    [ pre + "oom-kill:constraint",
      Labelled(c.constraint, "nodemask"),
      Labelled(NodemaskText(c.nodemask), "cpuset"),
      Labelled(c.cpuset, "mems_allowed"),
      c.memsAllowed + MemsTail(c.globalOom),
      Labelled(c.taskMemcg, "task"),
      Labelled(c.task, "pid"),
      Labelled(Decimal(c.pid), "uid"),
      Decimal(c.uid) ]
  }

  function ConstraintLine(pre: string, c: OOMConstraint): string {
    Join(ConstraintParts(pre, c), '=')
  }

  /** A value the `([^,]+)` captures read back whole: non-empty, without a comma, and without an `=`. */
  predicate PrintedValue(v: string) {
    v != [] && ',' !in v && '=' !in v
  }

  /**
   * What the printed line needs for every field to read back: values the patterns can delimit,
   * a node mask that is its own trimming, and, when the condition is not global, no `global_oom`
   * text anywhere.
   */
  predicate ConstraintPrintable(pre: string, c: OOMConstraint) {
    && '=' !in pre
    && c.constraint != [] && (forall j :: 0 <= j < |c.constraint| ==> IsWordChar(c.constraint[j]))
    && (c.nodemask.Some? ==> PrintedValue(c.nodemask.value) && Trim(c.nodemask.value) == c.nodemask.value && c.nodemask.value != NullText)
    && PrintedValue(c.cpuset) && PrintedValue(c.memsAllowed) && PrintedValue(c.taskMemcg) && PrintedValue(c.task)
    && (!c.globalOom ==> NoGlobalText(pre, c))
  }

  predicate NoGlobalText(pre: string, c: OOMConstraint) {
    && !Contains(pre + "oom-kill:constraint", "global_oom") && !Contains(c.constraint, "global_oom")
    && !Contains(NodemaskText(c.nodemask), "global_oom") && !Contains(c.cpuset, "global_oom")
    && !Contains(c.memsAllowed, "global_oom") && !Contains(c.taskMemcg, "global_oom") && !Contains(c.task, "global_oom")
  }

  /** Every field of a printed `oom-kill:` line reads back. */
  lemma ConstraintLineRoundTrip(pre: string, c: OOMConstraint)
    requires ConstraintPrintable(pre, c)
    ensures MineConstraint(ConstraintLine(pre, c)) == c
  {
    ConstraintWordRead(pre, c);
    NodemaskRead(pre, c);
    CpusetRead(pre, c);
    MemsAllowedRead(pre, c);
    GlobalOomRead(pre, c);
    TaskMemcgRead(pre, c);
    TaskRead(pre, c);
    ConstraintPidRead(pre, c);
    ConstraintUidRead(pre, c);
  }

  lemma ConstraintPartsEqualsFree(pre: string, c: OOMConstraint)
    requires ConstraintPrintable(pre, c)
    ensures forall m :: 0 <= m < |ConstraintParts(pre, c)| ==> '=' !in ConstraintParts(pre, c)[m]
  {
    var parts := ConstraintParts(pre, c);
    forall m | 0 <= m < |parts| ensures '=' !in parts[m] {
      if m == 1 {
        LabelledFree(c.constraint, "nodemask", '=');
      } else if m == 2 {
        LabelledFree(NodemaskText(c.nodemask), "cpuset", '=');
      } else if m == 3 {
        LabelledFree(c.cpuset, "mems_allowed", '=');
      } else if m == 5 {
        LabelledFree(c.taskMemcg, "task", '=');
      } else if m == 6 {
        LabelledFree(c.task, "pid", '=');
      } else if m == 7 {
        NonDigitNotInDecimal('=', c.pid);
        LabelledFree(Decimal(c.pid), "uid", '=');
      } else if m == 8 {
        NonDigitNotInDecimal('=', c.uid);
      }
    }
  }

  lemma LabelledFree(v: string, w: string, ch: char)
    requires ch != ',' && ch !in v && ch !in w
    ensures ch !in Labelled(v, w)
  {
  }

  /** Each piece of the printed line ends with the label of the value that follows it. */
  lemma ConstraintPieceEnds(pre: string, c: OOMConstraint)
    ensures var parts := ConstraintParts(pre, c);
      && EndsWith(parts[0], "constraint") && EndsWith(parts[1], "nodemask") && EndsWith(parts[2], "cpuset")
      && EndsWith(parts[3], "mems_allowed") && EndsWith(parts[4], "task_memcg") && EndsWith(parts[5], "task")
      && EndsWith(parts[6], "pid") && EndsWith(parts[7], "uid")
  {
    EndsWithLast(pre, "oom-kill:constraint", "constraint");
    LabelledEnds(c.constraint, "nodemask");
    LabelledEnds(NodemaskText(c.nodemask), "cpuset");
    LabelledEnds(c.cpuset, "mems_allowed");
    MemsTailEnds(c.memsAllowed, c.globalOom);
    LabelledEnds(c.taskMemcg, "task");
    LabelledEnds(c.task, "pid");
    LabelledEnds(Decimal(c.pid), "uid");
  }

  lemma LabelledEnds(v: string, w: string)
    ensures EndsWith(Labelled(v, w), w)
  {
    EndsWithLast(v + [','], w, w);
    assert Labelled(v, w) == v + [','] + w;
  }

  lemma MemsTailEnds(v: string, globalOom: bool)
    ensures EndsWith(v + MemsTail(globalOom), "task_memcg")
  {
    EndsWithLast(v, MemsTail(globalOom), "task_memcg");
  }

  lemma ConstraintLabels()
    ensures "constraint" + ['='] == "constraint=" && "nodemask" + ['='] == "nodemask="
    ensures "cpuset" + ['='] == "cpuset=" && "mems_allowed" + ['='] == "mems_allowed="
    ensures "task_memcg" + ['='] == "task_memcg=" && "task" + ['='] == "task="
    ensures "pid" + ['='] == "pid=" && "uid" + ['='] == "uid="
  {
  }

  lemma ConstraintWordRead(pre: string, c: OOMConstraint)
    requires ConstraintPrintable(pre, c)
    ensures FirstWordAfter(ConstraintLine(pre, c), "constraint=") == Some(c.constraint)
  {
    var parts := ConstraintParts(pre, c);
    ConstraintPartsEqualsFree(pre, c);
    ConstraintPieceEnds(pre, c);
    var k := LabelInJoin(parts, '=', "constraint", 0);
    WordAfterPiece(Join(parts, '='), k, "constraint" + ['='], c.constraint, [','] + "nodemask", '=');
    ConstraintLabels();
  }

  lemma NodemaskRead(pre: string, c: OOMConstraint)
    requires ConstraintPrintable(pre, c)
    ensures NodemaskField(ConstraintLine(pre, c)) == c.nodemask
  {
    var parts := ConstraintParts(pre, c);
    ConstraintPartsEqualsFree(pre, c);
    ConstraintPieceEnds(pre, c);
    NotEndsWith(parts[0], "nodemask", 0);
    var k := LabelInJoin(parts, '=', "nodemask", 1);
    UpToAfterPiece(Join(parts, '='), k, "nodemask" + ['='], NodemaskText(c.nodemask), [','] + "cpuset", '=', ',');
    ConstraintLabels();
    NullTextTrimmed();
  }

  lemma CpusetRead(pre: string, c: OOMConstraint)
    requires ConstraintPrintable(pre, c)
    ensures FirstUpTo(ConstraintLine(pre, c), "cpuset=", ',') == Some(c.cpuset)
  {
    var parts := ConstraintParts(pre, c);
    ConstraintPartsEqualsFree(pre, c);
    ConstraintPieceEnds(pre, c);
    NotEndsWith(parts[0], "cpuset", 1);
    NotEndsWith(parts[1], "cpuset", 0);
    var k := LabelInJoin(parts, '=', "cpuset", 2);
    UpToAfterPiece(Join(parts, '='), k, "cpuset" + ['='], c.cpuset, [','] + "mems_allowed", '=', ',');
    ConstraintLabels();
  }

  lemma MemsAllowedRead(pre: string, c: OOMConstraint)
    requires ConstraintPrintable(pre, c)
    ensures FirstUpTo(ConstraintLine(pre, c), "mems_allowed=", ',') == Some(c.memsAllowed)
  {
    var parts := ConstraintParts(pre, c);
    var k := MemsLabel(pre, c);
    UpToAfterPiece(Join(parts, '='), k, "mems_allowed" + ['='], c.memsAllowed, MemsTail(c.globalOom), '=', ',');
    ConstraintLabels();
  }

  /** Where `mems_allowed=` first occurs, with the rest of its piece after it. */
  lemma MemsLabel(pre: string, c: OOMConstraint) returns (k: nat)
    requires ConstraintPrintable(pre, c)
    ensures LabelThenPiece(ConstraintLine(pre, c), k, "mems_allowed" + ['='], c.memsAllowed + MemsTail(c.globalOom), '=')
  {
    var parts := ConstraintParts(pre, c);
    ConstraintPartsEqualsFree(pre, c);
    ConstraintPieceEnds(pre, c);
    forall m | 0 <= m < 3 ensures !EndsWith(parts[m], "mems_allowed") {
      NotEndsWith(parts[m], "mems_allowed", 0);
    }
    k := LabelInJoin(parts, '=', "mems_allowed", 3);
  }

  lemma GlobalOomRead(pre: string, c: OOMConstraint)
    requires ConstraintPrintable(pre, c)
    ensures Contains(ConstraintLine(pre, c), "global_oom") == c.globalOom
  {
    if c.globalOom {
      var k := MemsLabel(pre, c);
      GlobalAfterMems(ConstraintLine(pre, c), k + 13, c.memsAllowed);
    } else {
      NoGlobalInParts(pre, c);
      NoSubInJoin(ConstraintParts(pre, c), '=', "global_oom");
    }
  }

  /** The flag follows the node list of `mems_allowed=`. */
  lemma GlobalAfterMems(s: string, p: nat, mems: string)
    requires StartsAt(s, p, mems + MemsTail(true))
    ensures Contains(s, "global_oom")
  {
    assert MemsTail(true) == "," + ("global_oom" + ",task_memcg");
    StartsAtSplit(s, p, mems, MemsTail(true), p + |mems|);
    StartsAtSplit(s, p + |mems|, ",", "global_oom" + ",task_memcg", p + |mems| + 1);
    StartsAtConcat(s, p + |mems| + 1, "global_oom", ",task_memcg");
  }

  /** Without the flag, no piece of the line holds `global_oom`. */
  lemma NoGlobalInParts(pre: string, c: OOMConstraint)
    requires ConstraintPrintable(pre, c) && !c.globalOom
    ensures forall m :: 0 <= m < |ConstraintParts(pre, c)| ==> !Contains(ConstraintParts(pre, c)[m], "global_oom")
  {
    var parts := ConstraintParts(pre, c);
    var g := "global_oom";
    forall m | 0 <= m < |parts| ensures !Contains(parts[m], g) {
      if m == 1 {
        ValueThenLabel(c.constraint, "nodemask", g, 0);
      } else if m == 2 {
        ValueThenLabel(NodemaskText(c.nodemask), "cpuset", g, 0);
      } else if m == 3 {
        ValueThenLabel(c.cpuset, "mems_allowed", g, 0);
      } else if m == 4 {
        assert MemsTail(false) == [','] + "task_memcg";
        ValueThenLabel(c.memsAllowed, "task_memcg", g, 1);
      } else if m == 5 {
        ValueThenLabel(c.taskMemcg, "task", g, 0);
      } else if m == 6 {
        ValueThenLabel(c.task, "pid", g, 0);
      } else if m == 7 {
        NonDigitNotInDecimal('g', c.pid);
        NoSubWithoutChar(Decimal(c.pid), g, 0);
        ValueThenLabel(Decimal(c.pid), "uid", g, 0);
      } else if m == 8 {
        NonDigitNotInDecimal('g', c.uid);
        NoSubWithoutChar(Decimal(c.uid), g, 0);
      }
    }
  }

  /** A value without `global_oom`, then a comma and a label lacking one of its letters. */
  lemma ValueThenLabel(v: string, w: string, g: string, d: nat)
    requires g == "global_oom" && !Contains(v, g) && d < |g| && g[d] !in w
    ensures !Contains(Labelled(v, w), g)
  {
    NoSubWithoutChar(w, g, d);
    assert Labelled(v, w) == v + [','] + w;
    NoSubAcross(v, ',', w, g);
  }

  lemma TaskMemcgRead(pre: string, c: OOMConstraint)
    requires ConstraintPrintable(pre, c)
    ensures FirstUpTo(ConstraintLine(pre, c), "task_memcg=", ',') == Some(c.taskMemcg)
  {
    var parts := ConstraintParts(pre, c);
    ConstraintPartsEqualsFree(pre, c);
    ConstraintPieceEnds(pre, c);
    forall m | 0 <= m < 4 ensures !EndsWith(parts[m], "task_memcg") {
      NotEndsWith(parts[m], "task_memcg", 0);
    }
    var k := LabelInJoin(parts, '=', "task_memcg", 4);
    UpToAfterPiece(Join(parts, '='), k, "task_memcg" + ['='], c.taskMemcg, [','] + "task", '=', ',');
    ConstraintLabels();
  }

  lemma TaskRead(pre: string, c: OOMConstraint)
    requires ConstraintPrintable(pre, c)
    ensures FirstUpTo(ConstraintLine(pre, c), "task=", ',') == Some(c.task)
  {
    var parts := ConstraintParts(pre, c);
    ConstraintPartsEqualsFree(pre, c);
    ConstraintPieceEnds(pre, c);
    forall m | 0 <= m < 5 ensures !EndsWith(parts[m], "task") {
      if m == 1 {
        NotEndsWith(parts[m], "task", 3);
      } else {
        NotEndsWith(parts[m], "task", 0);
      }
    }
    var k := LabelInJoin(parts, '=', "task", 5);
    UpToAfterPiece(Join(parts, '='), k, "task" + ['='], c.task, [','] + "pid", '=', ',');
    ConstraintLabels();
  }

  lemma ConstraintPidRead(pre: string, c: OOMConstraint)
    requires ConstraintPrintable(pre, c)
    ensures FirstNatAfter(ConstraintLine(pre, c), "pid=") == Some(c.pid)
  {
    var parts := ConstraintParts(pre, c);
    ConstraintPartsEqualsFree(pre, c);
    ConstraintPieceEnds(pre, c);
    forall m | 0 <= m < 6 ensures !EndsWith(parts[m], "pid") {
      if m == 3 {
        NotEndsWith(parts[m], "pid", 1);
      } else {
        NotEndsWith(parts[m], "pid", 0);
      }
    }
    NatLabelInJoin(parts, '=', "pid", 6, c.pid, [','] + "uid");
    ConstraintLabels();
  }

  lemma ConstraintUidRead(pre: string, c: OOMConstraint)
    requires ConstraintPrintable(pre, c)
    ensures FirstNatAfter(ConstraintLine(pre, c), "uid=") == Some(c.uid)
  {
    var parts := ConstraintParts(pre, c);
    ConstraintPartsEqualsFree(pre, c);
    ConstraintPieceEnds(pre, c);
    forall m | 0 <= m < 7 ensures !EndsWith(parts[m], "uid") {
      if m == 3 {
        NotEndsWith(parts[m], "uid", 1);
      } else if m == 6 {
        NotEndsWith(parts[m], "uid", 2);
      } else {
        NotEndsWith(parts[m], "uid", 0);
      }
    }
    NatLabelInJoin(parts, '=', "uid", 7, c.uid, "");
    ConstraintLabels();
  }

  /** `Killed process \d+ \(([^)]+)\)` at `i`: the name between the parentheses. */
  function KilledNameAt(s: string, i: nat): (r: Option<string>)
    ensures r.Some? ==> StartsAt(s, i, KilledLabel)
    ensures r.Some? ==> |r.value| > 0 && ')' !in r.value
  {
    if StartsAt(s, i, KilledLabel) then
      match NatAt(s, i + |KilledLabel|)
      case None => None
      case Some((_, e)) =>
        if StartsAt(s, e, " (") then
          var p := e + 2;
          match Run1(s, p, Except(')'))
          case None => None
          case Some(g) =>
            if g < |s| && s[g] == ')' then
              assert forall k :: 0 <= k < g - p ==> s[p..g][k] == s[p + k];
              Some(s[p..g])
            else None
        else None
    else None
  }

  /** The leftmost such name in the line. */
  function KilledNameOf(line: string): (r: Option<string>)
    ensures r.Some? ==> Contains(line, KilledLabel)
    ensures r.Some? ==> |r.value| > 0 && ')' !in r.value
  {
    LeftmostNeedsLabel(line, KilledNameAt, KilledLabel);
    var r := Leftmost(line, KilledNameAt);
    if r.Some? then
      var k :| 0 <= k <= |line| && KilledNameAt(line, k) == r;
      r
    else r
  }

  /** The victim record read from a `Killed process` line: every field not found keeps its default. */
  function MineKilled(line: string): (v: KilledProcess)
    ensures !Contains(line, KilledLabel) ==> v.pid == 0 && v.name == ""
    ensures ')' !in v.name
    ensures !Contains(line, "total-vm:") ==> v.totalVmKB == 0
    ensures !Contains(line, "anon-rss:") ==> v.anonRssKB == 0
    ensures !Contains(line, "file-rss:") ==> v.fileRssKB == 0
    ensures !Contains(line, "shmem-rss:") ==> v.shmemRssKB == 0
    ensures !Contains(line, "UID:") ==> v.uid == 0
    ensures !Contains(line, "pgtables:") ==> v.pgtablesKB == 0
    ensures !Contains(line, "oom_score_adj:") ==> v.oomScoreAdj == 0
  {
    KilledProcess(
      FirstNatAfter(line, KilledLabel).GetOr(0),
      KilledNameOf(line).GetOr(""),
      FirstNatKBAfter(line, "total-vm:").GetOr(0),
      FirstNatKBAfter(line, "anon-rss:").GetOr(0),
      FirstNatKBAfter(line, "file-rss:").GetOr(0),
      FirstNatKBAfter(line, "shmem-rss:").GetOr(0),
      FirstNatAfter(line, "UID:").GetOr(0),
      FirstNatKBAfter(line, "pgtables:").GetOr(0),
      FirstIntAfter(line, "oom_score_adj:").GetOr(0))
  }

  /** The victim record `parse` reports: mined from the first `Killed process` line, or the default. */
  function KilledOf(lines: seq<string>): (v: KilledProcess)
    ensures FindLineContaining(lines, KilledAnchor).None? ==> v == DefaultKilled
    ensures forall k: nat :: IsFirstLineWith(lines, KilledAnchor, k) ==> v == MineKilled(lines[k])
  {
    FindLineContainingIs(lines, KilledAnchor);
    match FindLineContaining(lines, KilledAnchor)
    case None => DefaultKilled
    case Some(line) => MineKilled(line)
  }

  /** The diagnostic the victim extractor raises: one exactly when no line holds the anchor. */
  function KilledDiagnostics(lines: seq<string>): (d: seq<string>)
    ensures d == [] || d == [NoKilledLine]
    ensures d == [NoKilledLine] <==> forall k :: 0 <= k < |lines| ==> !Contains(lines[k], KilledAnchor)
  {
    if FindLineContaining(lines, KilledAnchor).None? then [NoKilledLine] else []
  }

  /** `parseKilledProcess`: the default record, or the fields of the first `Killed process` line. */
  method ParseKilledProcess(lines: seq<string>, errors: ErrorLog) returns (v: KilledProcess)
    modifies errors
    ensures v == KilledOf(lines)
    ensures errors.messages == old(errors.messages) + KilledDiagnostics(lines)
  {
    v := DefaultKilled;
    var killedLine := FindLineContaining(lines, KilledAnchor);
    if killedLine.None? {
      errors.Push(NoKilledLine);
      return;
    }
    assert old(errors.messages) + KilledDiagnostics(lines) == errors.messages;
    v := ReadKilledLine(killedLine.value);
  }

  /** The field-by-field updates of the found line: each field keeps its default unless its pattern matches. */
  method ReadKilledLine(line: string) returns (v: KilledProcess)
    ensures v == MineKilled(line)
  {
    v := DefaultKilled;
    var pid := CaptureOr(FirstNatAfter(line, KilledLabel), v.pid);
    v := v.(pid := pid);
    var name := CaptureOr(KilledNameOf(line), v.name);
    v := v.(name := name);
    var totalVm := CaptureOr(FirstNatKBAfter(line, "total-vm:"), v.totalVmKB);
    v := v.(totalVmKB := totalVm);
    var anonRss := CaptureOr(FirstNatKBAfter(line, "anon-rss:"), v.anonRssKB);
    v := v.(anonRssKB := anonRss);
    var fileRss := CaptureOr(FirstNatKBAfter(line, "file-rss:"), v.fileRssKB);
    v := v.(fileRssKB := fileRss);
    var shmemRss := CaptureOr(FirstNatKBAfter(line, "shmem-rss:"), v.shmemRssKB);
    v := v.(shmemRssKB := shmemRss);
    var uid := CaptureOr(FirstNatAfter(line, "UID:"), v.uid);
    v := v.(uid := uid);
    var pgtables := CaptureOr(FirstNatKBAfter(line, "pgtables:"), v.pgtablesKB);
    v := v.(pgtablesKB := pgtables);
    var score := CaptureOr(FirstIntAfter(line, "oom_score_adj:"), v.oomScoreAdj);
    v := v.(oomScoreAdj := score);
  }

  /** The head of the victim line as the kernel prints it, after whatever precedes it. */
  function KilledHead(pre: string, pid: nat, name: string, rest: string): string {
    pre + ("Out of memory: " + (KilledLabel + (Decimal(pid) + (" (" + (name + (")" + rest))))))
  }

  /** The victim's pid and name are read back from the head of its line. */
  lemma KilledHeadRoundTrip(pre: string, pid: nat, name: string, rest: string)
    requires 'K' !in pre && name != [] && ')' !in name
    ensures MineKilled(KilledHead(pre, pid, name, rest)).pid == pid
    ensures MineKilled(KilledHead(pre, pid, name, rest)).name == name
  {
    KilledHeadRead(pre, pid, name, rest);
  }

  lemma KilledHeadRead(pre: string, pid: nat, name: string, rest: string)
    requires 'K' !in pre && name != [] && ')' !in name
    ensures FirstNatAfter(KilledHead(pre, pid, name, rest), KilledLabel) == Some(pid)
    ensures KilledNameOf(KilledHead(pre, pid, name, rest)) == Some(name)
  {
    var line := KilledHead(pre, pid, name, rest);
    var k := |pre| + 15;
    var p := k + |KilledLabel|;
    var e := p + |Decimal(pid)|;
    var g := e + 2 + |name|;
    KilledPrefixLayout(line, pre, pid, name, rest, k);
    KilledTailLayout(line, pid, name, rest, k, p, e, g);
    NoLabelBefore(line, k);
    KilledNumberAt(line, pid, p, e);
    KilledPidRead(line, pid, k, p, e);
    KilledNameRead(line, pid, name, k, p, e, g);
  }

  /** What comes before the label: the caller's text, then the kernel's `Out of memory: `. */
  lemma KilledPrefixLayout(line: string, pre: string, pid: nat, name: string, rest: string, k: nat)
    requires line == KilledHead(pre, pid, name, rest) && 'K' !in pre && k == |pre| + 15
    ensures k <= |line| && forall j :: 0 <= j < k ==> line[j] != 'K'
    ensures StartsAt(line, k, KilledLabel + (Decimal(pid) + (" (" + (name + (")" + rest)))))
  {
    var tail := KilledLabel + (Decimal(pid) + (" (" + (name + (")" + rest))));
    assert StartsAt(line, 0, line);
    StartsAtSplit(line, 0, pre, "Out of memory: " + tail, |pre|);
    StartsAtSplit(line, |pre|, "Out of memory: ", tail, k);
    StartsAtLiteral(line, |pre|, "Out of memory: ");
    StartsAtLiteral(line, 0, pre);
  }

  /** Where the label, the pid, the opening parenthesis, the name and the closing one sit. */
  lemma KilledTailLayout(line: string, pid: nat, name: string, rest: string, k: nat, p: nat, e: nat, g: nat)
    requires StartsAt(line, k, KilledLabel + (Decimal(pid) + (" (" + (name + (")" + rest)))))
    requires p == k + |KilledLabel| && e == p + |Decimal(pid)| && g == e + 2 + |name|
    ensures StartsAt(line, k, KilledLabel) && StartsAt(line, p, Decimal(pid)) && StartsAt(line, e, " (")
    ensures StartsAt(line, e + 2, name) && g < |line| && line[g] == ')'
  {
    StartsAtSplit(line, k, KilledLabel, Decimal(pid) + (" (" + (name + (")" + rest))), p);
    StartsAtSplit(line, p, Decimal(pid), " (" + (name + (")" + rest)), e);
    StartsAtSplit(line, e, " (", name + (")" + rest), e + 2);
    StartsAtSplit(line, e + 2, name, ")" + rest, g);
    StartsAtHead(line, g, ")" + rest);
  }

  /** Text without a `K` before `k` holds no `Killed process ` label there. */
  lemma NoLabelBefore(line: string, k: nat)
    requires k <= |line| && forall j :: 0 <= j < k ==> line[j] != 'K'
    ensures forall j :: 0 <= j < k ==> !StartsAt(line, j, KilledLabel)
  {
    forall j | 0 <= j < k ensures !StartsAt(line, j, KilledLabel) {
      if StartsAt(line, j, KilledLabel) {
        StartsAtHead(line, j, KilledLabel);
      }
    }
  }

  /** The pid's digits, followed by ` (`, read back as the pid. */
  lemma KilledNumberAt(line: string, pid: nat, p: nat, e: nat)
    requires StartsAt(line, p, Decimal(pid)) && e == p + |Decimal(pid)| && StartsAt(line, e, " (")
    ensures NatAt(line, p) == Some((pid, e))
  {
    StartsAtHead(line, e, " (");
    NatAtDecimal(line, p, pid);
  }

  lemma KilledPidRead(line: string, pid: nat, k: nat, p: nat, e: nat)
    requires forall j :: 0 <= j < k ==> !StartsAt(line, j, KilledLabel)
    requires StartsAt(line, k, KilledLabel) && p == k + |KilledLabel| && NatAt(line, p) == Some((pid, e))
    ensures FirstNatAfter(line, KilledLabel) == Some(pid)
  {
    FirstNatAfterIs(line, KilledLabel, k);
  }

  lemma KilledNameRead(line: string, pid: nat, name: string, k: nat, p: nat, e: nat, g: nat)
    requires forall j :: 0 <= j < k ==> !StartsAt(line, j, KilledLabel)
    requires StartsAt(line, k, KilledLabel) && p == k + |KilledLabel| && NatAt(line, p) == Some((pid, e))
    requires StartsAt(line, e, " (") && StartsAt(line, e + 2, name) && name != [] && ')' !in name
    requires g == e + 2 + |name| && g < |line| && line[g] == ')'
    ensures KilledNameOf(line) == Some(name)
  {
    StartsAtLiteral(line, e + 2, name);
    SpanEndAt(line, e + 2, Except(')'), g);
    assert line[e + 2..g] == name;
    assert KilledNameAt(line, k) == Some(name);
    LeftmostAt(line, KilledNameAt, k);
  }

  /**
   * The victim line as the kernel prints it, after whatever precedes it, cut at its colons:
   * `Out of memory: Killed process P (NAME) total-vm:NkB, anon-rss:NkB, file-rss:NkB,
   * shmem-rss:NkB, UID:N pgtables:NkB oom_score_adj:N`.
   */
  function KilledParts(pre: string, v: KilledProcess): seq<string> {
    [ pre + "Out of memory",
      " " + KilledLabel + Decimal(v.pid) + " (" + v.name + ") total-vm",
      Decimal(v.totalVmKB) + "kB, anon-rss",
      Decimal(v.anonRssKB) + "kB, file-rss",
      Decimal(v.fileRssKB) + "kB, shmem-rss",
      Decimal(v.shmemRssKB) + "kB, UID",
      Decimal(v.uid) + " pgtables",
      Decimal(v.pgtablesKB) + "kB oom_score_adj",
      SignedDecimal(v.oomScoreAdj) ]
  }

  function KilledLine(pre: string, v: KilledProcess): string {
    Join(KilledParts(pre, v), ':')
  }

  /** What the printed line needs for every field to read back: a name the patterns can delimit. */
  predicate KilledPrintable(pre: string, v: KilledProcess) {
    'K' !in pre && ':' !in pre && v.name != [] && ')' !in v.name && ':' !in v.name
  }

  /** Every field of a printed victim line reads back, a negative `oom_score_adj` included. */
  lemma KilledLineRoundTrip(pre: string, v: KilledProcess)
    requires KilledPrintable(pre, v)
    ensures MineKilled(KilledLine(pre, v)) == v
  {
    KilledLineHead(pre, v);
    KilledTotalVmRead(pre, v);
    KilledAnonRssRead(pre, v);
    KilledFileRssRead(pre, v);
    KilledShmemRssRead(pre, v);
    KilledUidRead(pre, v);
    KilledPgtablesRead(pre, v);
    KilledScoreRead(pre, v);
  }

  lemma KilledLineHead(pre: string, v: KilledProcess)
    requires KilledPrintable(pre, v)
    ensures FirstNatAfter(KilledLine(pre, v), KilledLabel) == Some(v.pid)
    ensures KilledNameOf(KilledLine(pre, v)) == Some(v.name)
  {
    var parts := KilledParts(pre, v);
    var t := Join(parts[2..], ':');
    KilledLineIsHead(pre, v, parts, t);
    KilledHeadRead(pre, v.pid, v.name, " total-vm:" + t);
  }

  lemma KilledLineIsHead(pre: string, v: KilledProcess, parts: seq<string>, t: string)
    requires parts == KilledParts(pre, v) && t == Join(parts[2..], ':')
    ensures KilledLine(pre, v) == KilledHead(pre, v.pid, v.name, " total-vm:" + t)
  {
    assert parts[1..][1..] == parts[2..];
    assert Join(parts, ':') == parts[0] + [':'] + (parts[1] + [':'] + t);
    Regroup(pre, Decimal(v.pid), v.name, t);
  }

  lemma Regroup(pre: string, d: string, name: string, t: string)
    ensures (pre + "Out of memory") + [':'] + ((" " + KilledLabel + d + " (" + name + ") total-vm") + [':'] + t)
         == pre + ("Out of memory: " + (KilledLabel + (d + (" (" + (name + (")" + (" total-vm:" + t)))))))
  {
  }

  /** No piece of a printed victim line but the caller's text and the name could hold a colon. */
  lemma KilledPartsColonFree(pre: string, v: KilledProcess)
    requires KilledPrintable(pre, v)
    ensures forall m :: 0 <= m < |KilledParts(pre, v)| ==> ':' !in KilledParts(pre, v)[m]
  {
    var parts := KilledParts(pre, v);
    forall m | 0 <= m < |parts| ensures ':' !in parts[m] {
      if m == 0 {
      } else if m == 1 {
        NonDigitNotInDecimal(':', v.pid);
      } else if m == 2 {
        NonDigitNotInDecimal(':', v.totalVmKB);
      } else if m == 3 {
        NonDigitNotInDecimal(':', v.anonRssKB);
      } else if m == 4 {
        NonDigitNotInDecimal(':', v.fileRssKB);
      } else if m == 5 {
        NonDigitNotInDecimal(':', v.shmemRssKB);
      } else if m == 6 {
        NonDigitNotInDecimal(':', v.uid);
      } else if m == 7 {
        NonDigitNotInDecimal(':', v.pgtablesKB);
      } else {
        NonDigitNotInSignedDecimal(':', v.oomScoreAdj);
      }
    }
  }

  /** The labels of the printed line, each a word and its colon. */
  lemma KilledLabels()
    ensures "total-vm" + [':'] == "total-vm:" && "anon-rss" + [':'] == "anon-rss:"
    ensures "file-rss" + [':'] == "file-rss:" && "shmem-rss" + [':'] == "shmem-rss:"
    ensures "UID" + [':'] == "UID:" && "pgtables" + [':'] == "pgtables:"
    ensures "oom_score_adj" + [':'] == "oom_score_adj:"
  {
  }

  lemma KilledTotalVmRead(pre: string, v: KilledProcess)
    requires KilledPrintable(pre, v)
    ensures FirstNatKBAfter(KilledLine(pre, v), "total-vm:") == Some(v.totalVmKB)
  {
    var parts := KilledParts(pre, v);
    KilledPartsColonFree(pre, v);
    NotEndsWith(parts[0], "total-vm", 0);
    KBLabelInJoin(parts, ':', "total-vm", 1, v.totalVmKB, ", anon-rss");
    KilledLabels();
  }

  lemma KilledAnonRssRead(pre: string, v: KilledProcess)
    requires KilledPrintable(pre, v)
    ensures FirstNatKBAfter(KilledLine(pre, v), "anon-rss:") == Some(v.anonRssKB)
  {
    var parts := KilledParts(pre, v);
    KilledPartsColonFree(pre, v);
    forall m | 0 <= m < 2 ensures !EndsWith(parts[m], "anon-rss") {
      NotEndsWith(parts[m], "anon-rss", 0);
    }
    KBLabelInJoin(parts, ':', "anon-rss", 2, v.anonRssKB, ", file-rss");
    KilledLabels();
  }

  lemma KilledFileRssRead(pre: string, v: KilledProcess)
    requires KilledPrintable(pre, v)
    ensures FirstNatKBAfter(KilledLine(pre, v), "file-rss:") == Some(v.fileRssKB)
  {
    var parts := KilledParts(pre, v);
    KilledPartsColonFree(pre, v);
    forall m | 0 <= m < 3 ensures !EndsWith(parts[m], "file-rss") {
      if m < 2 {
        NotEndsWith(parts[m], "file-rss", 0);
      } else {
        NotEndsWith(parts[m], "file-rss", 4);
      }
    }
    KBLabelInJoin(parts, ':', "file-rss", 3, v.fileRssKB, ", shmem-rss");
    KilledLabels();
  }

  lemma KilledShmemRssRead(pre: string, v: KilledProcess)
    requires KilledPrintable(pre, v)
    ensures FirstNatKBAfter(KilledLine(pre, v), "shmem-rss:") == Some(v.shmemRssKB)
  {
    var parts := KilledParts(pre, v);
    KilledPartsColonFree(pre, v);
    forall m | 0 <= m < 4 ensures !EndsWith(parts[m], "shmem-rss") {
      if m < 2 {
        NotEndsWith(parts[m], "shmem-rss", 0);
      } else {
        NotEndsWith(parts[m], "shmem-rss", 4);
      }
    }
    KBLabelInJoin(parts, ':', "shmem-rss", 4, v.shmemRssKB, ", UID");
    KilledLabels();
  }

  lemma KilledUidRead(pre: string, v: KilledProcess)
    requires KilledPrintable(pre, v)
    ensures FirstNatAfter(KilledLine(pre, v), "UID:") == Some(v.uid)
  {
    var parts := KilledParts(pre, v);
    KilledPartsColonFree(pre, v);
    forall m | 0 <= m < 5 ensures !EndsWith(parts[m], "UID") {
      NotEndsWith(parts[m], "UID", 0);
    }
    NatLabelInJoin(parts, ':', "UID", 5, v.uid, " pgtables");
    KilledLabels();
  }

  lemma KilledPgtablesRead(pre: string, v: KilledProcess)
    requires KilledPrintable(pre, v)
    ensures FirstNatKBAfter(KilledLine(pre, v), "pgtables:") == Some(v.pgtablesKB)
  {
    var parts := KilledParts(pre, v);
    KilledPartsColonFree(pre, v);
    forall m | 0 <= m < 6 ensures !EndsWith(parts[m], "pgtables") {
      if 2 <= m < 5 {
        NotEndsWith(parts[m], "pgtables", 1);
      } else {
        NotEndsWith(parts[m], "pgtables", 0);
      }
    }
    KBLabelInJoin(parts, ':', "pgtables", 6, v.pgtablesKB, " oom_score_adj");
    KilledLabels();
  }

  lemma KilledScoreRead(pre: string, v: KilledProcess)
    requires KilledPrintable(pre, v)
    ensures FirstIntAfter(KilledLine(pre, v), "oom_score_adj:") == Some(v.oomScoreAdj)
  {
    var parts := KilledParts(pre, v);
    KilledPartsColonFree(pre, v);
    forall m | 0 <= m < 7 ensures !EndsWith(parts[m], "oom_score_adj") {
      NotEndsWith(parts[m], "oom_score_adj", 0);
    }
    IntLabelInJoin(parts, ':', "oom_score_adj", 7, v.oomScoreAdj, "");
    KilledLabels();
  }
}
