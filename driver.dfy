/**
 * `OOMParserService.parse`: splits a pasted log into lines, runs the seven extractors over them in
 * turn, and reports their records together with the diagnostics the extractors raised.
 */
module OOMParser {
  import opened Wrappers
  import opened Strings
  import opened OOMTypes
  import opened Diagnostics
  import opened Classifier
  import Trigger
  import SystemInfoExtractor
  import CallStackExtractor
  import MemoryExtractor
  import ProcessTableExtractor
  import KillDecisionExtractor

  /** The lines `parse` works on: the text cut at every newline. */
  function LinesOf(text: string): (lines: seq<string>)
    ensures |lines| >= 1 && forall k :: 0 <= k < |lines| ==> '\n' !in lines[k]
  {
    Split(text, '\n')
  }

  /** The diagnostics in the order the extractors raise them: trigger, constraint, victim. */
  function ErrorsOf(lines: seq<string>): seq<string> {
    Trigger.TriggerDiagnostics(lines)
      + KillDecisionExtractor.ConstraintDiagnostics(lines)
      + KillDecisionExtractor.KilledDiagnostics(lines)
  }

  /** What `parse` returns for a text: every record, the text itself, and the diagnostics. */
  function ResultOf(text: string): OOMParseResult {
    var lines := LinesOf(text);
    var errors := ErrorsOf(lines);
    OOMParseResult(
      |errors| == 0,
      Some(ParsedOOMLog(
        Trigger.TriggerOf(lines),
        SystemInfoExtractor.SystemInfoOf(lines),
        CallStackExtractor.CallStackOf(lines),
        MemoryExtractor.MemoryInfoOf(lines),
        ProcessTableExtractor.ProcessesOf(lines),
        KillDecisionExtractor.ConstraintOf(lines),
        KillDecisionExtractor.KilledOf(lines),
        text,
        errors)),
      errors)
  }

  /** `parse`: one shared error list, the extractors in source order, and the assembled result. */
  method Parse(logContent: string) returns (r: OOMParseResult)
    ensures r == ResultOf(logContent)
  {
    var errors := new ErrorLog();
    var lines := LinesOf(logContent);
    var trigger := Trigger.ParseTrigger(lines, errors);
    assert errors.messages == Trigger.TriggerDiagnostics(lines);
    var systemInfo, callStack, memoryInfo, processes := ParseSections(lines);
    var oomConstraint, killedProcess := ParseKillDecision(lines, errors);
    var messages := errors.messages;
    r := OOMParseResult(
      |messages| == 0,
      Some(ParsedOOMLog(
        trigger, systemInfo, callStack, memoryInfo, processes, oomConstraint, killedProcess,
        logContent, messages)),
      messages);
  }

  /** The four extractors between the trigger and the kill decision, none of which reports an error. */
  method ParseSections(lines: seq<string>)
    returns (systemInfo: SystemInfo, callStack: CallStack, memoryInfo: MemoryInfo, processes: seq<ProcessInfo>)
    ensures systemInfo == SystemInfoExtractor.SystemInfoOf(lines)
    ensures callStack == CallStackExtractor.CallStackOf(lines)
    ensures memoryInfo == MemoryExtractor.MemoryInfoOf(lines)
    ensures processes == ProcessTableExtractor.ProcessesOf(lines)
  {
    systemInfo := SystemInfoExtractor.ParseSystemInfo(lines);
    callStack := CallStackExtractor.ParseCallStack(lines);
    memoryInfo := MemoryExtractor.ParseMemoryInfo(lines);
    processes := ProcessTableExtractor.ParseProcessList(lines);
  }

  /** The last two extractors, the constraint and then the victim, each adding its diagnostic in turn. */
  method ParseKillDecision(lines: seq<string>, errors: ErrorLog) returns (c: OOMConstraint, v: KilledProcess)
    modifies errors
    ensures c == KillDecisionExtractor.ConstraintOf(lines) && v == KillDecisionExtractor.KilledOf(lines)
    ensures errors.messages == old(errors.messages)
      + KillDecisionExtractor.ConstraintDiagnostics(lines) + KillDecisionExtractor.KilledDiagnostics(lines)
  {
    c := KillDecisionExtractor.ParseOOMConstraint(lines, errors);
    v := KillDecisionExtractor.ParseKilledProcess(lines, errors);
  }

  /** No line of the log holds `anchor`. */
  predicate Missing(lines: seq<string>, anchor: string) {
    forall k :: 0 <= k < |lines| ==> !Contains(lines[k], anchor)
  }

  /** The diagnostics name exactly the missing anchor lines, each at most once and in extractor order. */
  lemma ErrorsReport(lines: seq<string>)
    ensures ErrorsOf(lines) ==
      (if Missing(lines, Trigger.TriggerAnchor) then [NoTriggerLine] else [])
      + (if Missing(lines, KillDecisionExtractor.ConstraintAnchor) then [NoConstraintLine] else [])
      + (if Missing(lines, KillDecisionExtractor.KilledAnchor) then [NoKilledLine] else [])
  {
    var t := Trigger.TriggerDiagnostics(lines);
    var c := KillDecisionExtractor.ConstraintDiagnostics(lines);
    var v := KillDecisionExtractor.KilledDiagnostics(lines);
    assert t == [] || t == [NoTriggerLine];
    assert c == [] || c == [NoConstraintLine];
    assert v == [] || v == [NoKilledLine];
  }

  /**
   * The result always carries the data, the original text and the list of errors; it is a success
   * exactly when each of the three anchors occurs on some line.
   */
  lemma ResultReport(text: string)
    ensures var r := ResultOf(text); var lines := LinesOf(text);
      && r.errors == ErrorsOf(lines)
      && r.data.Some? && r.data.value.rawLog == text && r.data.value.parseErrors == r.errors
      && (r.success <==>
        !Missing(lines, Trigger.TriggerAnchor) && !Missing(lines, KillDecisionExtractor.ConstraintAnchor)
        && !Missing(lines, KillDecisionExtractor.KilledAnchor))
  {
    ErrorsReport(LinesOf(text));
  }

  /** A line of the log that holds `anchor` puts `anchor` in the text. */
  lemma MissingFromText(text: string, anchor: string)
    requires !Contains(text, anchor)
    ensures Missing(LinesOf(text), anchor)
  {
    var lines := LinesOf(text);
    forall k | 0 <= k < |lines| ensures !Contains(lines[k], anchor) {
      if Contains(lines[k], anchor) {
        ContainsOfPiece(text, '\n', k, anchor);
      }
    }
  }

  /** A text the classifier rejects yields all three diagnostics, in order. */
  lemma NotOOMLogErrors(text: string)
    requires !IsOOMLog(text)
    ensures ErrorsOf(LinesOf(text)) == [NoTriggerLine, NoConstraintLine, NoKilledLine]
  {
    MissingFromText(text, TriggerMarker);
    MissingFromText(text, ConstraintMarker);
    KilledNeedsKillMarker(text);
    ErrorsReport(LinesOf(text));
  }

  /** The victim anchor begins with the classifier's `Out of memory:` marker. */
  lemma KilledNeedsKillMarker(text: string)
    requires !Contains(text, KillMarker)
    ensures Missing(LinesOf(text), KillDecisionExtractor.KilledAnchor)
  {
    assert KillDecisionExtractor.KilledAnchor == KillMarker + " Killed process";
    if Contains(text, KillDecisionExtractor.KilledAnchor) {
      ContainsPrefix(text, KillMarker, " Killed process");
    } else {
      MissingFromText(text, KillDecisionExtractor.KilledAnchor);
    }
  }

  /** A successful parse is always of a text the classifier accepts. */
  lemma SuccessIsOOMLog(text: string)
    requires ResultOf(text).success
    ensures IsOOMLog(text)
  {
    if !IsOOMLog(text) {
      NotOOMLogErrors(text);
    }
  }
}
