/**
 * The call stack: frames between `Call Trace:` and `</TASK>`, the register dump and the note the
 * kernel prints when it cannot read the code bytes of a user-space task.
 */
module CallStackExtractor {
  import opened Wrappers
  import opened Chars
  import opened Strings
  import opened Matching
  import opened Scans
  import opened OOMTypes

  const TraceOpen := "Call Trace:"
  const TraceClose := "</TASK>"

  /** A line that opens or closes the trace; the scan reads nothing else from it. */
  predicate IsTraceMarker(line: string) { IsMarker(line, TraceOpen, TraceClose) }

  /** `0x` followed by a non-empty run of hexadecimal digits. */
  predicate IsHexNumber(t: string) {
    |t| > 2 && t[..2] == "0x" && forall k :: 2 <= k < |t| ==> IsHexDigit(t[k])
  }

  /**
   * `(\w+)\+0x([0-9a-f]+)\/0x([0-9a-f]+)` with the `i` flag, at `i`.  The greedy groups can only
   * end where their runs end, because neither `+` nor `/` continues a run.
   */
  function FrameAt(s: string, i: nat): (r: Option<StackFrame>)
    ensures r.Some? ==> |r.value.func| > 0 && forall k :: 0 <= k < |r.value.func| ==> IsWordChar(r.value.func[k])
    ensures r.Some? ==> StartsAt(s, i, r.value.func)
    ensures r.Some? ==> IsHexNumber(r.value.offset) && IsHexNumber(r.value.size)
  {
    if i < |s| && IsWordChar(s[i]) then
      var e := SpanEnd(s, i, IsWordChar);
      if StartsAtIgnoringCase(s, e, "+0x") then
        match Run1(s, e + 3, IsHexDigit)
        case None => None
        case Some(f) =>
          if StartsAtIgnoringCase(s, f, "/0x") then
            match Run1(s, f + 3, IsHexDigit)
            case None => None
            case Some(g) =>
              var func := s[i..e];
              var offset := "0x" + s[e + 3..f];
              var size := "0x" + s[f + 3..g];
              assert forall k :: 0 <= k < |func| ==> func[k] == s[i + k];
              assert forall k :: 2 <= k < |offset| ==> offset[k] == s[e + 1 + k];
              assert forall k :: 2 <= k < |size| ==> size[k] == s[f + 1 + k];
              Some(StackFrame(func, offset, size))
          else None
      else None
    else None
  }

  /** The first frame reference of a line. */
  function FrameOfLine(line: string): Option<StackFrame> {
    Leftmost(line, FrameAt)
  }

  /** What a line adds to the frames, given the lines read before it. */
  function FrameStep(before: seq<string>, line: string): Option<StackFrame> {
    if IsTraceMarker(line) then None
    else if RegionOpenAfter(before, TraceOpen, TraceClose) then FrameOfLine(line)
    else None
  }

  function Frames(lines: seq<string>): seq<StackFrame> {
    CollectInContext(lines, FrameStep)
  }

  /** The keys of the partial register record. */
  datatype Reg =
    | Rip | Rsp | Eflags
    | Rax | Rbx | Rcx
    | Rdx | Rsi | Rdi
    | Rbp | R08 | R09
    | R10 | R11 | R12
    | R13 | R14 | R15

  const AllRegs: set<Reg> := {Rip, Rsp, Eflags, Rax, Rbx, Rcx, Rdx, Rsi, Rdi, Rbp, R08, R09, R10, R11, R12, R13, R14, R15}

  /** The label each register is printed under. */
  function Label(r: Reg): string {
    match r
    case Rip => "RIP:" case Rsp => "RSP:" case Eflags => "EFLAGS:"
    case Rax => "RAX:" case Rbx => "RBX:" case Rcx => "RCX:"
    case Rdx => "RDX:" case Rsi => "RSI:" case Rdi => "RDI:"
    case Rbp => "RBP:" case R08 => "R08:" case R09 => "R09:"
    case R10 => "R10:" case R11 => "R11:" case R12 => "R12:"
    case R13 => "R13:" case R14 => "R14:" case R15 => "R15:"
  }

  /** The text a line must contain before its register group is read: the group's first label. */
  function Gate(r: Reg): string {
    match r
    case Rip => "RIP:" case Rsp => "RSP:" case Eflags => "EFLAGS:"
    case Rax | Rbx | Rcx => "RAX:"
    case Rdx | Rsi | Rdi => "RDX:"
    case Rbp | R08 | R09 => "RBP:"
    case R10 | R11 | R12 => "R10:"
    case R13 | R14 | R15 => "R13:"
  }

  /** `[0-9a-f:]` for the two registers printed with their segment selector, `[0-9a-f]` for the rest. */
  function ValueClass(r: Reg): char -> bool {
    if r == Rip || r == Rsp then IsHexOrColon else IsHexDigit
  }

  /** `LABEL:\s*(CLASS+)` with the `i` flag, at `i`. */
  function RegisterAt(s: string, i: nat, r: Reg): (v: Option<string>)
    ensures v.Some? ==> StartsAtIgnoringCase(s, i, Label(r))
    ensures v.Some? ==> |v.value| > 0 && forall k :: 0 <= k < |v.value| ==> ValueClass(r)(v.value[k])
  {
    if StartsAtIgnoringCase(s, i, Label(r)) then
      match SpacesThenRun(s, i + |Label(r)|, ValueClass(r))
      case None => None
      case Some((k, e)) =>
        assert forall j :: 0 <= j < e - k ==> s[k..e][j] == s[k + j];
        Some(s[k..e])
    else None
  }

  /** What a line sets register `r` to, if anything. */
  function Reading(line: string, r: Reg): (v: Option<string>)
    ensures v.Some? ==> Contains(line, Gate(r)) && !IsTraceMarker(line)
    ensures v.Some? ==> |v.value| > 0
  {
    if IsTraceMarker(line) || !Contains(line, Gate(r)) then None
    else Leftmost(line, (s: string, i: nat) => RegisterAt(s, i, r))
  }

  /** Everything a line sets, keyed by register. */
  function Readings(line: string): (m: map<Reg, string>)
    ensures forall r :: r in m <==> Reading(line, r).Some?
    ensures forall r :: r in m ==> m[r] == Reading(line, r).value
  {
    map r | r in AllRegs && Reading(line, r).Some? :: Reading(line, r).value
  }

  /** The partial register record once `lines` have been read: later readings overwrite earlier ones. */
  function RegistersAfter(lines: seq<string>): map<Reg, string> {
    if lines == [] then map[]
    else RegistersAfter(lines[..|lines| - 1]) + Readings(lines[|lines| - 1])
  }

  /** `Reading` of one register, as a function of the line. */
  function ReadingOf(r: Reg): string -> Option<string> {
    (line: string) => Reading(line, r)
  }

  /** A register is set by the last line that sets it, and only lines that set it count. */
  lemma {:induction false} RegistersAfterIsLastReading(lines: seq<string>, r: Reg)
    ensures r in RegistersAfter(lines) <==> LastSome(lines, ReadingOf(r)).Some?
    ensures r in RegistersAfter(lines) ==> RegistersAfter(lines)[r] == LastSome(lines, ReadingOf(r)).value
  {
    if lines != [] {
      var n := |lines| - 1;
      var pre := lines[..n];
      RegistersAfterIsLastReading(pre, r);
      assert RegistersAfter(lines) == RegistersAfter(pre) + Readings(lines[n]);
      assert LastSome(lines, ReadingOf(r)) ==
        if Reading(lines[n], r).Some? then Reading(lines[n], r) else LastSome(pre, ReadingOf(r));
    }
  }

  function Get(m: map<Reg, string>, r: Reg): string {
    if r in m then m[r] else ""
  }

  /** The record handed back: each key the scan set, `""` for each it did not. */
  function RegisterRecord(m: map<Reg, string>): RegisterState {
    RegisterState(
      Get(m, Rip), Get(m, Rsp), Get(m, Eflags),
      Get(m, Rax), Get(m, Rbx), Get(m, Rcx),
      Get(m, Rdx), Get(m, Rsi), Get(m, Rdi),
      Get(m, Rbp), Get(m, R08), Get(m, R09),
      Get(m, R10), Get(m, R11), Get(m, R12),
      Get(m, R13), Get(m, R14), Get(m, R15))
  }

  /** `Code:\s*(.+)` at `i`: the rest of the line after the label and the white space. */
  function CodeNoteAt(s: string, i: nat): (r: Option<string>)
    ensures r.Some? ==> StartsAt(s, i, "Code:")
    ensures r.Some? ==> |r.value| > 0 && forall k :: 0 <= k < |r.value| ==> !IsLineTerminator(r.value[k])
  {
    if StartsAt(s, i, "Code:") then
      match SpacesThenRun(s, i + 5, IsAnyButTerminator)
      case None => None
      case Some((k, e)) =>
        assert forall j :: 0 <= j < e - k ==> s[k..e][j] == s[k + j];
        Some(s[k..e])
    else None
  }

  /** What a line sets the code note to, if anything. */
  function CodeNoteOf(line: string): (r: Option<string>)
    ensures r.Some? ==> Contains(line, "Code:") && Contains(line, "Unable to access") && !IsTraceMarker(line)
  {
    if !IsTraceMarker(line) && Contains(line, "Code:") && Contains(line, "Unable to access") then
      Leftmost(line, CodeNoteAt)
    else None
  }

  /** The call stack `parse` reports. */
  function CallStackOf(lines: seq<string>): CallStack {
    var regs := RegistersAfter(lines);
    CallStack(
      Frames(lines),
      if |regs| > 0 then Some(RegisterRecord(regs)) else None,
      LastSome(lines, CodeNoteOf))
  }

  /** `parseCallStack`: one pass over the lines. */
  method ParseCallStack(lines: seq<string>) returns (cs: CallStack)
    ensures cs == CallStackOf(lines)
  {
    var frames: seq<StackFrame> := [];
    var codeNote: Option<string> := None;
    var inCallTrace := false;
    var registers: map<Reg, string> := map[];
    for i := 0 to |lines|
      invariant frames == Frames(lines[..i])
      invariant inCallTrace == RegionOpenAfter(lines[..i], TraceOpen, TraceClose)
      invariant registers == RegistersAfter(lines[..i])
      invariant codeNote == LastSome(lines[..i], CodeNoteOf)
    {
      var line := lines[i];
      ScanStep(lines, i);
      if Contains(line, TraceOpen) {
        MarkerReadsNothing(line);
        inCallTrace := true;
        continue;
      }
      if Contains(line, TraceClose) {
        MarkerReadsNothing(line);
        inCallTrace := false;
        continue;
      }
      if inCallTrace {
        var frameMatch := FrameOfLine(line);
        if frameMatch.Some? {
          frames := frames + [frameMatch.value];
        }
      }
      registers := registers + Readings(line);
      var noteMatch := CodeNoteOf(line);
      if noteMatch.Some? {
        codeNote := noteMatch;
      }
    }
    assert lines[..|lines|] == lines;
    cs := CallStack(frames, if |registers| > 0 then Some(RegisterRecord(registers)) else None, codeNote);
  }

  /** How each scanned quantity grows by one line. */
  lemma ScanStep(lines: seq<string>, i: nat)
    requires i < |lines|
    ensures Frames(lines[..i + 1]) == Frames(lines[..i]) + OptList(FrameStep(lines[..i], lines[i]))
    ensures RegionOpenAfter(lines[..i + 1], TraceOpen, TraceClose) ==
      if Contains(lines[i], TraceOpen) then true
      else if Contains(lines[i], TraceClose) then false
      else RegionOpenAfter(lines[..i], TraceOpen, TraceClose)
    ensures RegistersAfter(lines[..i + 1]) == RegistersAfter(lines[..i]) + Readings(lines[i])
    ensures LastSome(lines[..i + 1], CodeNoteOf) ==
      if CodeNoteOf(lines[i]).Some? then CodeNoteOf(lines[i]) else LastSome(lines[..i], CodeNoteOf)
  {
    assert lines[..i + 1][..i] == lines[..i];
  }

  /** A marker line sets no register. */
  lemma MarkerReadsNothing(line: string)
    requires IsTraceMarker(line)
    ensures forall m: map<Reg, string> :: m + Readings(line) == m
  {
    assert Readings(line) == map[];
  }

  /** Every frame comes from a non-marker line read while the last marker line seen was `Call Trace:`. */
  lemma {:induction false} FramesComeFromTrace(lines: seq<string>, f: StackFrame)
    requires f in Frames(lines)
    ensures exists k ::
              0 <= k < |lines| && !IsTraceMarker(lines[k]) &&
              LastMarkerOpens(lines[..k], TraceOpen, TraceClose) && FrameOfLine(lines[k]) == Some(f)
  {
    CollectInContextSound(lines, FrameStep, f);
    var k :| 0 <= k < |lines| && FrameStep(lines[..k], lines[k]) == Some(f);
    RegionOpenAfterIff(lines[..k], TraceOpen, TraceClose);
  }

  /** Every frame reference on such a line is reported. */
  lemma {:induction false} TraceFramesAreReported(lines: seq<string>, k: nat)
    requires k < |lines| && !IsTraceMarker(lines[k])
    requires LastMarkerOpens(lines[..k], TraceOpen, TraceClose)
    requires FrameOfLine(lines[k]).Some?
    ensures FrameOfLine(lines[k]).value in Frames(lines)
  {
    RegionOpenAfterIff(lines[..k], TraceOpen, TraceClose);
    CollectInContextComplete(lines, FrameStep, k);
  }

  /** The frames of the first `i` lines are the first frames of the whole trace, in line order. */
  lemma FramesInLineOrder(lines: seq<string>, i: nat)
    requires i <= |lines|
    ensures Frames(lines[..i]) <= Frames(lines)
  {
    CollectInContextPrefix(lines, FrameStep, i);
  }

  /** A line inside a trace region that is not a marker line, given the lines before it. */
  function TraceLine(before: seq<string>, line: string): Option<string> {
    if !IsTraceMarker(line) && RegionOpenAfter(before, TraceOpen, TraceClose) then Some(line) else None
  }

  /** The lines inside trace regions, in log order. */
  function TraceLines(lines: seq<string>): seq<string> {
    CollectInContext(lines, TraceLine)
  }

  /** There are at most as many frames as lines inside trace regions. */
  lemma FrameCountBound(lines: seq<string>)
    ensures |Frames(lines)| <= |TraceLines(lines)|
  {
    CollectInContextFewer(lines, FrameStep, TraceLine);
  }

  /** The field of a register record that holds register `r`. */
  function Field(st: RegisterState, r: Reg): string {
    match r
    case Rip => st.rip case Rsp => st.rsp case Eflags => st.eflags
    case Rax => st.rax case Rbx => st.rbx case Rcx => st.rcx
    case Rdx => st.rdx case Rsi => st.rsi case Rdi => st.rdi
    case Rbp => st.rbp case R08 => st.r08 case R09 => st.r09
    case R10 => st.r10 case R11 => st.r11 case R12 => st.r12
    case R13 => st.r13 case R14 => st.r14 case R15 => st.r15
  }

  /** The partial record is empty exactly when no line sets any register. */
  lemma {:induction false} RegistersEmptyIff(lines: seq<string>)
    ensures |RegistersAfter(lines)| == 0 <==> forall r, k :: 0 <= k < |lines| ==> Reading(lines[k], r).None?
  {
    var m := RegistersAfter(lines);
    if |m| == 0 {
      forall r, k | 0 <= k < |lines|
        ensures Reading(lines[k], r).None?
      {
        RegistersAfterIsLastReading(lines, r);
        assert r !in m;
        assert ReadingOf(r)(lines[k]) == Reading(lines[k], r);
      }
    } else {
      var r :| r in m;
      RegistersAfterIsLastReading(lines, r);
      var k :| 0 <= k < |lines| && ReadingOf(r)(lines[k]) == LastSome(lines, ReadingOf(r));
      assert Reading(lines[k], r).Some?;
    }
  }

  /**
   * The registers are reported exactly when some line sets one of them; each field then holds
   * what the last line to set that register set it to, and `""` when no line set it.
   */
  lemma {:induction false} RegistersReported(lines: seq<string>)
    ensures CallStackOf(lines).registers.None? <==>
      forall r, k :: 0 <= k < |lines| ==> Reading(lines[k], r).None?
    ensures CallStackOf(lines).registers.Some? ==> forall r ::
      Field(CallStackOf(lines).registers.value, r) == LastSome(lines, ReadingOf(r)).GetOr("")
  {
    var m := RegistersAfter(lines);
    RegistersEmptyIff(lines);
    assert CallStackOf(lines).registers == if |m| > 0 then Some(RegisterRecord(m)) else None;
    forall r
      ensures Field(RegisterRecord(m), r) == LastSome(lines, ReadingOf(r)).GetOr("")
    {
      RegistersAfterIsLastReading(lines, r);
      FieldOfRecord(m, r);
    }
  }

  lemma FieldOfRecord(m: map<Reg, string>, r: Reg)
    ensures Field(RegisterRecord(m), r) == Get(m, r)
  {
  }

  /** A frame reference as the kernel prints it. */
  function FrameText(func: string, offset: string, size: string): string {
    func + "+0x" + offset + "/0x" + size
  }

  /** A frame reference laid out at known positions is read as its three parts. */
  lemma FrameAtParts(s: string, i: nat, e: nat, f: nat, g: nat)
    requires i < e && e + 3 < f && f + 3 < g <= |s|
    requires forall k :: i <= k < e ==> IsWordChar(s[k])
    requires s[e] == '+' && s[e + 1] == '0' && s[e + 2] == 'x'
    requires forall k :: e + 3 <= k < f ==> IsHexDigit(s[k])
    requires s[f] == '/' && s[f + 1] == '0' && s[f + 2] == 'x'
    requires forall k :: f + 3 <= k < g ==> IsHexDigit(s[k])
    requires g < |s| ==> !IsHexDigit(s[g])
    ensures FrameAt(s, i) == Some(StackFrame(s[i..e], "0x" + s[e + 3..f], "0x" + s[f + 3..g]))
  {
    SpanEndAt(s, i, IsWordChar, e);
    PlusHexAt(s, e);
    SpanEndAt(s, e + 3, IsHexDigit, f);
    SlashHexAt(s, f);
    SpanEndAt(s, f + 3, IsHexDigit, g);
    FramePieces(s, i, e, f, g);
  }

  lemma PlusHexAt(s: string, e: nat)
    requires e + 2 < |s| && s[e] == '+' && s[e + 1] == '0' && s[e + 2] == 'x'
    ensures StartsAtIgnoringCase(s, e, "+0x")
  {
  }

  lemma SlashHexAt(s: string, f: nat)
    requires f + 2 < |s| && s[f] == '/' && s[f + 1] == '0' && s[f + 2] == 'x'
    ensures StartsAtIgnoringCase(s, f, "/0x")
  {
  }

  /** The frame pattern read part by part. */
  lemma FramePieces(s: string, i: nat, e: nat, f: nat, g: nat)
    requires i < |s| && IsWordChar(s[i]) && SpanEnd(s, i, IsWordChar) == e
    requires StartsAtIgnoringCase(s, e, "+0x") && Run1(s, e + 3, IsHexDigit) == Some(f)
    requires StartsAtIgnoringCase(s, f, "/0x") && Run1(s, f + 3, IsHexDigit) == Some(g)
    ensures FrameAt(s, i) == Some(StackFrame(s[i..e], "0x" + s[e + 3..f], "0x" + s[f + 3..g]))
  {
  }

  /** Reading back a printed frame reference gives its parts, with the `0x` the source prepends. */
  lemma {:induction false} FrameRoundTrip(func: string, offset: string, size: string)
    requires |func| > 0 && forall k :: 0 <= k < |func| ==> IsWordChar(func[k])
    requires |offset| > 0 && forall k :: 0 <= k < |offset| ==> IsHexDigit(offset[k])
    requires |size| > 0 && forall k :: 0 <= k < |size| ==> IsHexDigit(size[k])
    ensures FrameOfLine(" " + FrameText(func, offset, size)) == Some(StackFrame(func, "0x" + offset, "0x" + size))
  {
    var s := " " + FrameText(func, offset, size);
    assert FrameAt(s, 1) == Some(StackFrame(func, "0x" + offset, "0x" + size)) by {
      var e := 1 + |func|;
      var f := e + 3 + |offset|;
      var g := f + 3 + |size|;
      assert s == ((((" " + func) + "+0x") + offset) + "/0x") + size;
      assert |s| == g;
      assert s[1..e] == func;
      assert s[e..e + 3] == "+0x";
      assert s[e + 3..f] == offset;
      assert s[f..f + 3] == "/0x";
      assert s[f + 3..] == size;
      assert s[f + 3..g] == size;
      assert forall k :: 1 <= k < e ==> s[k] == func[k - 1];
      assert forall k :: e + 3 <= k < f ==> s[k] == offset[k - e - 3];
      assert forall k :: f + 3 <= k < g ==> s[k] == size[k - f - 3];
      FrameAtParts(s, 1, e, f, g);
    }
    FrameAfterSpace(s);
  }

  /** A line that starts with a space and has a frame reference right after it reports that one. */
  lemma FrameAfterSpace(s: string)
    requires |s| > 1 && s[0] == ' ' && FrameAt(s, 1).Some?
    ensures FrameOfLine(s) == FrameAt(s, 1)
  {
    assert FrameAt(s, 0).None?;
    LeftmostAt(s, FrameAt, 1);
  }

  /**
   * A user-space instruction pointer is printed as `RIP: 0033:0x...`; the colon class stops at
   * the `x`, so the register reads as `0033:0`.
   */
  lemma {:induction false} UserSpaceRip(rest: string)
    requires !IsTraceMarker("RIP: 0033:0x" + rest)
    ensures Reading("RIP: 0033:0x" + rest, Rip) == Some("0033:0")
  {
    var s := "RIP: 0033:0x" + rest;
    assert s[..4] == "RIP:";
    assert StartsAt(s, 0, "RIP:");
    SpanEndAt(s, 5, IsHexOrColon, 11);
    SpacesThenRunAt(s, 4, 5, IsHexOrColon);
    assert s[5..11] == "0033:0";
    LeftmostAt(s, (t: string, i: nat) => RegisterAt(t, i, Rip), 0);
  }
}
