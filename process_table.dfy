/**
 * The process table the kernel prints under `Tasks state (memory values in pages)`: one row per
 * task, `[pid] uid tgid total_vm rss pgtables_bytes swapents oom_score_adj name`.  The table ends
 * at the `oom-kill:` line.
 */
module ProcessTableExtractor {
  import opened Wrappers
  import opened Chars
  import opened Strings
  import opened Numerals
  import opened Matching
  import opened Scans
  import opened OOMTypes

  const TasksMarker := "Tasks state (memory values in pages)"
  const KillMarker := "oom-kill:"
  const PidHeader := "[  pid  ]"

  /** A line that opens or closes the table; the scan reads nothing else from it. */
  predicate IsTableMarker(line: string) { IsMarker(line, TasksMarker, KillMarker) }

  /** `\[\s*(\d+)\]` at `i`: the pid and the position after the closing bracket. */
  function PidAt(s: string, i: nat): (r: Option<(nat, nat)>)
    ensures r.Some? ==> StartsAt(s, i, "[") && i < r.value.1 <= |s|
  {
    if StartsAt(s, i, "[") then
      match NatAt(s, Run0(s, i + 1, IsSpace))
      case None => None
      case Some((pid, e)) => if StartsAt(s, e, "]") then Some((pid, e + 1)) else None
    else None
  }

  /** `\s+(\d+)` at `q` */
  function SpacedNatAt(s: string, q: nat): (r: Option<(nat, nat)>)
    ensures r.Some? ==> q < r.value.1 <= |s|
  {
    match Run1(s, q, IsSpace)
    case None => None
    case Some(f) => NatAt(s, f)
  }

  /** `n` repetitions of `\s+(\d+)` from `q`: the numbers and the position after the last one. */
  function ColumnsFrom(s: string, q: nat, n: nat): (r: Option<(seq<nat>, nat)>)
    ensures r.Some? ==> |r.value.0| == n && q <= r.value.1 <= |s|
    decreases n
  {
    if n == 0 then if q <= |s| then Some(([], q)) else None
    else
      match SpacedNatAt(s, q)
      case None => None
      case Some((v, e)) =>
        match ColumnsFrom(s, e, n - 1)
        case None => None
        case Some((vs, f)) => Some(([v] + vs, f))
  }

  /** `\s+(-?\d+)` at `f` */
  function ScoreAt(s: string, f: nat): (r: Option<(int, nat)>)
    ensures r.Some? ==> f < r.value.1 <= |s|
  {
    match Run1(s, f, IsSpace)
    case None => None
    case Some(g) => IntAt(s, g)
  }

  /**
   * `\s+(.+)$` at `h`: one white-space character and then `\s*(.+)$`, which tries the longest
   * run of white space first, as the greedy `\s+` does.
   */
  function NameAt(s: string, h: nat): (r: Option<string>)
    ensures r.Some? ==> h < |s| && IsSpace(s[h])
  {
    if h < |s| && IsSpace(s[h]) then RestToEnd(s, h + 1) else None
  }

  /**
   * The row pattern `\[\s*(\d+)\]` + six `\s+(\d+)` + `\s+(-?\d+)\s+(.+)$` at `i`; the name is the
   * trimmed remainder.  Each number stops where its digits stop, since the next character must
   * be white space.
   */
  function ProcessRowAt(s: string, i: nat): (r: Option<ProcessInfo>)
    ensures r.Some? ==> StartsAt(s, i, "[")
    ensures r.Some? ==> Trim(r.value.name) == r.value.name
  {
    match PidAt(s, i)
    case None => None
    case Some((pid, e)) =>
      match ColumnsFrom(s, e, 6)
      case None => None
      case Some((cols, f)) =>
        match ScoreAt(s, f)
        case None => None
        case Some((score, h)) =>
          match NameAt(s, h)
          case None => None
          case Some(rest) =>
            TrimIdempotent(rest);
            Some(ProcessInfo(pid, cols[0], cols[1], cols[2], cols[3], cols[4], cols[5], score, Trim(rest)))
  }

  /** The leftmost row match of a line. */
  function ProcessOfLine(line: string): (r: Option<ProcessInfo>)
    ensures r.Some? ==> Contains(line, "[")
  {
    LeftmostNeedsLabel(line, ProcessRowAt, "[");
    Leftmost(line, ProcessRowAt)
  }

  /** What a line adds to the process list, given the lines read before it. */
  function ProcessStep(before: seq<string>, line: string): Option<ProcessInfo> {
    if IsTableMarker(line) then None
    else if RegionOpenAfter(before, TasksMarker, KillMarker) then
      if Contains(line, PidHeader) then None else ProcessOfLine(line)
    else None
  }

  function ProcessesOf(lines: seq<string>): seq<ProcessInfo> {
    CollectInContext(lines, ProcessStep)
  }

  /** `parseProcessList`: one pass over the lines with an "inside the table" flag. */
  method ParseProcessList(lines: seq<string>) returns (processes: seq<ProcessInfo>)
    ensures processes == ProcessesOf(lines)
  {
    processes := [];
    var inProcessList := false;
    for i := 0 to |lines|
      invariant processes == ProcessesOf(lines[..i])
      invariant inProcessList == RegionOpenAfter(lines[..i], TasksMarker, KillMarker)
    {
      var line := lines[i];
      TableStep(lines, i);
      if Contains(line, TasksMarker) {
        inProcessList := true;
        continue;
      }
      if Contains(line, KillMarker) {
        inProcessList := false;
        continue;
      }
      if inProcessList {
        if Contains(line, PidHeader) {
          continue;
        }
        var processMatch := ProcessOfLine(line);
        if processMatch.Some? {
          processes := processes + [processMatch.value];
        }
      }
    }
    assert lines[..|lines|] == lines;
  }

  /** How the list and the flag grow by one line. */
  lemma TableStep(lines: seq<string>, i: nat)
    requires i < |lines|
    ensures ProcessesOf(lines[..i + 1]) == ProcessesOf(lines[..i]) + OptList(ProcessStep(lines[..i], lines[i]))
    ensures RegionOpenAfter(lines[..i + 1], TasksMarker, KillMarker) ==
      if Contains(lines[i], TasksMarker) then true
      else if Contains(lines[i], KillMarker) then false
      else RegionOpenAfter(lines[..i], TasksMarker, KillMarker)
  {
    assert lines[..i + 1][..i] == lines[..i];
  }

  /**
   * Every reported process comes from a row that is not a marker or the header line, read while
   * the last marker line seen was the table heading.
   */
  lemma {:induction false} ProcessesComeFromTable(lines: seq<string>, p: ProcessInfo)
    requires p in ProcessesOf(lines)
    ensures exists k ::
              0 <= k < |lines| && !IsTableMarker(lines[k]) && !Contains(lines[k], PidHeader) &&
              LastMarkerOpens(lines[..k], TasksMarker, KillMarker) && ProcessOfLine(lines[k]) == Some(p)
  {
    CollectInContextSound(lines, ProcessStep, p);
    var k :| 0 <= k < |lines| && ProcessStep(lines[..k], lines[k]) == Some(p);
    RegionOpenAfterIff(lines[..k], TasksMarker, KillMarker);
  }

  /** Every row on such a line is reported. */
  lemma {:induction false} TableRowsAreReported(lines: seq<string>, k: nat)
    requires k < |lines| && !IsTableMarker(lines[k]) && !Contains(lines[k], PidHeader)
    requires LastMarkerOpens(lines[..k], TasksMarker, KillMarker)
    requires ProcessOfLine(lines[k]).Some?
    ensures ProcessOfLine(lines[k]).value in ProcessesOf(lines)
  {
    RegionOpenAfterIff(lines[..k], TasksMarker, KillMarker);
    CollectInContextComplete(lines, ProcessStep, k);
  }

  /** Rows keep log order: the processes of the first `i` lines are a prefix of all the processes. */
  lemma ProcessesInLineOrder(lines: seq<string>, i: nat)
    requires i <= |lines|
    ensures ProcessesOf(lines[..i]) <= ProcessesOf(lines)
  {
    CollectInContextPrefix(lines, ProcessStep, i);
  }

  /** A line inside the table that is not a marker line, given the lines before it. */
  function TableLine(before: seq<string>, line: string): Option<string> {
    if !IsTableMarker(line) && RegionOpenAfter(before, TasksMarker, KillMarker) then Some(line) else None
  }

  /** The lines inside the table, in log order. */
  function TableLines(lines: seq<string>): seq<string> {
    CollectInContext(lines, TableLine)
  }

  /** There are at most as many processes as lines inside the table. */
  lemma ProcessCountBound(lines: seq<string>)
    ensures |ProcessesOf(lines)| <= |TableLines(lines)|
  {
    CollectInContextFewer(lines, ProcessStep, TableLine);
  }

  /** A log without a table heading has no processes. */
  lemma NoHeadingNoProcesses(lines: seq<string>)
    requires forall k :: 0 <= k < |lines| ==> !Contains(lines[k], TasksMarker)
    ensures ProcessesOf(lines) == []
  {
    forall k | 0 <= k < |lines| ensures ProcessStep(lines[..k], lines[k]).None? {
      assert forall j :: 0 <= j < k ==> lines[..k][j] == lines[j];
      NeverOpened(lines[..k], TasksMarker, KillMarker);
    }
    CollectInContextNone(lines, ProcessStep);
  }

  /** The kernel's spelling of a run of unsigned columns, each after one space. */
  function ColumnsText(cols: seq<nat>): (t: string)
    ensures t == [] || t[0] == ' '
    decreases |cols|
  {
    if cols == [] then "" else " " + (Decimal(cols[0]) + ColumnsText(cols[1..]))
  }

  /** A task name as it can end a row: non-empty, trimmed and on one line. */
  predicate PrintableName(name: string) {
    name != [] && !IsSpace(name[0]) && !IsSpace(name[|name| - 1]) &&
    forall k :: 0 <= k < |name| ==> !IsLineTerminator(name[k])
  }

  /** The score column and the name that close a row. */
  function RowTail(z: int, name: string): string {
    " " + (SignedDecimal(z) + (" " + name))
  }

  /** A row as the kernel prints it, with single spaces between the columns. */
  function RowText(p: ProcessInfo): string {
    "[" + (Decimal(p.pid) + ("]" + (ColumnsText([p.uid, p.tgid, p.totalVm, p.rss, p.pgtablesBytes, p.swapents]) +
      RowTail(p.oomScoreAdj, p.name))))
  }

  /** Reading back a printed row gives the process, name included. */
  lemma RowRoundTrip(p: ProcessInfo)
    requires PrintableName(p.name)
    ensures ProcessOfLine(RowText(p)) == Some(p)
  {
    var cols := [p.uid, p.tgid, p.totalVm, p.rss, p.pgtablesBytes, p.swapents];
    RowRead(RowText(p), p.pid, cols, p.oomScoreAdj, p.name);
  }

  lemma RowRead(s: string, pid: nat, cols: seq<nat>, z: int, name: string)
    requires |cols| == 6 && PrintableName(name)
    requires s == "[" + (Decimal(pid) + ("]" + (ColumnsText(cols) + RowTail(z, name))))
    ensures ProcessOfLine(s) == Some(ProcessInfo(pid, cols[0], cols[1], cols[2], cols[3], cols[4], cols[5], z, name))
  {
    var e := 2 + |Decimal(pid)|;
    var f := e + |ColumnsText(cols)|;
    var h := f + 1 + |SignedDecimal(z)|;
    RowLayout(s, pid, cols, z, name, e, f, h);
    RowFields(s, pid, cols, z, name, e, f, h);
    TrimUnchanged(name);
    LeftmostAt(s, ProcessRowAt, 0);
  }

  /** Where each column of a printed row lies. */
  lemma RowLayout(s: string, pid: nat, cols: seq<nat>, z: int, name: string, e: nat, f: nat, h: nat)
    requires s == "[" + (Decimal(pid) + ("]" + (ColumnsText(cols) + RowTail(z, name))))
    requires e == 2 + |Decimal(pid)| && f == e + |ColumnsText(cols)| && h == f + 1 + |SignedDecimal(z)|
    ensures StartsAt(s, 0, "[") && StartsAt(s, 1, Decimal(pid)) && StartsAt(s, e - 1, "]")
    ensures StartsAt(s, e, ColumnsText(cols))
    ensures f < |s| && s[f] == ' ' && StartsAt(s, f + 1, SignedDecimal(z))
    ensures h < |s| && s[h] == ' ' && StartsAt(s, h + 1, name) && h + 1 + |name| == |s|
  {
    assert StartsAt(s, 0, s);
    PidLayout(s, pid, ColumnsText(cols) + RowTail(z, name), e);
    StartsAtSplit(s, e, ColumnsText(cols), RowTail(z, name), f);
    RowLength(s, Decimal(pid), ColumnsText(cols), RowTail(z, name), f);
    TailLayout(s, f, z, name, h);
  }

  lemma RowLength(s: string, d: string, c: string, t: string, f: nat)
    requires s == "[" + (d + ("]" + (c + t))) && f == 2 + |d| + |c|
    ensures f + |t| == |s|
  {
  }

  /** A row laid out that way is read column by column. */
  lemma RowFields(s: string, pid: nat, cols: seq<nat>, z: int, name: string, e: nat, f: nat, h: nat)
    requires |cols| == 6 && PrintableName(name)
    requires e == 2 + |Decimal(pid)| && f == e + |ColumnsText(cols)| && h == f + 1 + |SignedDecimal(z)|
    requires StartsAt(s, 0, "[") && StartsAt(s, 1, Decimal(pid)) && StartsAt(s, e - 1, "]")
    requires StartsAt(s, e, ColumnsText(cols))
    requires f < |s| && s[f] == ' ' && StartsAt(s, f + 1, SignedDecimal(z))
    requires h < |s| && s[h] == ' ' && StartsAt(s, h + 1, name) && h + 1 + |name| == |s|
    ensures ProcessRowAt(s, 0) == Some(ProcessInfo(pid, cols[0], cols[1], cols[2], cols[3], cols[4], cols[5], z, Trim(name)))
  {
    PidRead(s, pid, e);
    ColumnsRead(s, e, cols, f);
    ScoreRead(s, f, z, h);
    NameRead(s, h, name);
    RowParts(s, pid, cols, z, name, e, f, h);
  }

  lemma PidLayout(s: string, pid: nat, y: string, e: nat)
    requires StartsAt(s, 0, "[" + (Decimal(pid) + ("]" + y))) && e == 2 + |Decimal(pid)|
    ensures StartsAt(s, 0, "[") && StartsAt(s, 1, Decimal(pid)) && StartsAt(s, e - 1, "]") && StartsAt(s, e, y)
  {
    StartsAtSplit(s, 0, "[", Decimal(pid) + ("]" + y), 1);
    StartsAtSplit(s, 1, Decimal(pid), "]" + y, e - 1);
    StartsAtSplit(s, e - 1, "]", y, e);
  }

  lemma PidRead(s: string, pid: nat, e: nat)
    requires e == 2 + |Decimal(pid)|
    requires StartsAt(s, 0, "[") && StartsAt(s, 1, Decimal(pid)) && StartsAt(s, e - 1, "]")
    ensures PidAt(s, 0) == Some((pid, e))
  {
    StartsAtHead(s, 1, Decimal(pid));
    StartsAtHead(s, e - 1, "]");
    SpanEndAt(s, 1, IsSpace, 1);
    NatAtDecimal(s, 1, pid);
  }

  lemma TailLayout(s: string, f: nat, z: int, name: string, h: nat)
    requires StartsAt(s, f, RowTail(z, name)) && f + |RowTail(z, name)| == |s|
    requires h == f + 1 + |SignedDecimal(z)|
    ensures s[f] == ' ' && StartsAt(s, f + 1, SignedDecimal(z))
    ensures h < |s| && s[h] == ' ' && StartsAt(s, h + 1, name) && h + 1 + |name| == |s|
  {
    StartsAtSplit(s, f, " ", SignedDecimal(z) + (" " + name), f + 1);
    StartsAtSplit(s, f + 1, SignedDecimal(z), " " + name, h);
    StartsAtSplit(s, h, " ", name, h + 1);
    StartsAtHead(s, f, " ");
    StartsAtHead(s, h, " ");
  }

  lemma {:induction false} ColumnsRead(s: string, q: nat, cols: seq<nat>, f: nat)
    requires StartsAt(s, q, ColumnsText(cols)) && f == q + |ColumnsText(cols)|
    requires f < |s| ==> !IsDigit(s[f])
    ensures ColumnsFrom(s, q, |cols|) == Some((cols, f))
    decreases |cols|, 1
  {
    if cols != [] {
      MoreColumnsRead(s, q, cols, f);
    }
  }

  lemma {:induction false} MoreColumnsRead(s: string, q: nat, cols: seq<nat>, f: nat)
    requires cols != [] && StartsAt(s, q, ColumnsText(cols)) && f == q + |ColumnsText(cols)|
    requires f < |s| ==> !IsDigit(s[f])
    ensures ColumnsFrom(s, q, |cols|) == Some((cols, f))
    decreases |cols|, 0
  {
    var e := q + 1 + |Decimal(cols[0])|;
    ColumnLayout(s, q, cols, e, f);
    ColumnRead(s, q, cols[0], e);
    ColumnsRead(s, e, cols[1..], f);
    ColumnsParts(s, q, cols, e, f);
  }

  lemma ColumnLayout(s: string, q: nat, cols: seq<nat>, e: nat, f: nat)
    requires cols != [] && StartsAt(s, q, ColumnsText(cols)) && f == q + |ColumnsText(cols)|
    requires f < |s| ==> !IsDigit(s[f])
    requires e == q + 1 + |Decimal(cols[0])|
    ensures q < |s| && s[q] == ' ' && StartsAt(s, q + 1, Decimal(cols[0]))
    ensures StartsAt(s, e, ColumnsText(cols[1..])) && f == e + |ColumnsText(cols[1..])|
    ensures e < |s| ==> !IsDigit(s[e])
  {
    var rest := ColumnsText(cols[1..]);
    StartsAtSplit(s, q, " ", Decimal(cols[0]) + rest, q + 1);
    StartsAtSplit(s, q + 1, Decimal(cols[0]), rest, e);
    StartsAtHead(s, q, " ");
    if rest != [] {
      StartsAtHead(s, e, rest);
    }
  }

  lemma ColumnRead(s: string, q: nat, n: nat, e: nat)
    requires q < |s| && s[q] == ' ' && StartsAt(s, q + 1, Decimal(n))
    requires e == q + 1 + |Decimal(n)| && (e < |s| ==> !IsDigit(s[e]))
    ensures SpacedNatAt(s, q) == Some((n, e))
  {
    StartsAtHead(s, q + 1, Decimal(n));
    OneSpace(s, q);
    NatAtDecimal(s, q + 1, n);
  }

  lemma ColumnsParts(s: string, q: nat, cols: seq<nat>, e: nat, f: nat)
    requires cols != [] && SpacedNatAt(s, q) == Some((cols[0], e))
    requires ColumnsFrom(s, e, |cols[1..]|) == Some((cols[1..], f))
    ensures ColumnsFrom(s, q, |cols|) == Some((cols, f))
  {
    assert |cols[1..]| == |cols| - 1;
    ConsAgain(cols);
  }

  lemma ConsAgain(cols: seq<nat>)
    requires cols != []
    ensures [cols[0]] + cols[1..] == cols
  {
  }

  lemma ScoreRead(s: string, f: nat, z: int, h: nat)
    requires f < |s| && s[f] == ' ' && StartsAt(s, f + 1, SignedDecimal(z))
    requires h == f + 1 + |SignedDecimal(z)| && h < |s| && s[h] == ' '
    ensures ScoreAt(s, f) == Some((z, h))
  {
    StartsAtHead(s, f + 1, SignedDecimal(z));
    OneSpace(s, f);
    IntAtSignedDecimal(s, f + 1, z);
  }

  lemma NameRead(s: string, h: nat, name: string)
    requires h < |s| && s[h] == ' ' && StartsAt(s, h + 1, name) && h + 1 + |name| == |s|
    requires PrintableName(name)
    ensures NameAt(s, h) == Some(name)
  {
    StartsAtLiteral(s, h + 1, name);
    assert s[h + 1..] == name;
    RestToEndAt(s, h + 1, h + 1);
  }

  /** The row pattern read part by part. */
  lemma RowParts(s: string, pid: nat, cols: seq<nat>, z: int, name: string, e: nat, f: nat, h: nat)
    requires PidAt(s, 0) == Some((pid, e)) && |cols| == 6 && ColumnsFrom(s, e, 6) == Some((cols, f))
    requires ScoreAt(s, f) == Some((z, h)) && NameAt(s, h) == Some(name)
    ensures ProcessRowAt(s, 0) == Some(ProcessInfo(pid, cols[0], cols[1], cols[2], cols[3], cols[4], cols[5], z, Trim(name)))
  {
  }
}
