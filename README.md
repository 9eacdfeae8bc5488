# OOM-killer log parser, modelled in Dafny

This project models the extraction engine of an OOM-log viewer, `OOMParserService` in
`src/services/OOMParserService.ts`. The engine takes the text a kernel prints when its
out-of-memory killer fires. It turns that text into one typed record with these parts:

- the trigger line (timestamp, process, `gfp_mask`, order, `oom_score_adj`);
- the CPU banner line and the hardware line;
- the call trace, register dump and code note;
- the `Mem-Info:` page counters, per-node memory, zones, buddy lists, hugepages, swap,
  page-cache totals and `lowmem_reserve[]` rows;
- the task table;
- the `oom-kill:` constraint line;
- the `Killed process` line.

It also reports which of the three anchor lines it could not find.

How the model is built:

- **Values.** Every record type of `src/types/OOMTypes.ts` is a Dafny `datatype` (module
  `OOMTypes`). An output string the log leaves out is `""`. The JavaScript `null`s (nodemask,
  register state, code note) are `Option.None`. A `parseInt` of text with no leading digit is the
  `NotANumber` case of `ParsedInt`.
- **Lines.** The log is split on `'\n'` into a `seq<string>`, just as `logContent.split('\n')`
  does. `Strings.Split` and `Strings.Join` are inverse to each other.
- **Regular expressions.** A regular expression is not interpreted by a general engine. Each pattern
  is a deterministic recognizer `XAt(s, i)` that says whether the pattern matches starting at
  position `i`, and what it captures. `Matching.Leftmost` then picks the leftmost start, which is
  what `String.match` without the `g` flag returns. The rest of the recognizer's semantics:
  - it walks the same alternatives and lazy/greedy quantifiers as the pattern;
  - `\s` is the JavaScript whitespace set;
  - `.` excludes the four JavaScript line terminators;
  - the `i` flag folds ASCII letters.
- **Error list.** The shared, append-only `errors` array is a class, `Diagnostics.ErrorLog`. Its
  one method, `Push`, appends. `parse` creates one and threads it through the extractors that
  write it.
- **Loops.** Each extractor that loops over the lines is a `method` with a `for` loop. It is
  proved equal to a specification function over the lines:
  - `Collect` for the whole-log scanners that push one record per matching line;
  - `CollectInContext` together with the region predicate `RegionOpenAfter`, for the call-trace
    and task-table loops with their `in…` flags;
  - last-reading-wins folds for the swap, page-cache, register and `Mem-Info:` counters.
- **Anchor lines.** An extractor that mines one anchor line ("match, else keep the default")
  assigns its record field by field, exactly as the source does:
  - in the constraint and `Killed process` readers each field update is one call of
    `Fields.CaptureOr`;
  - in `Trigger.ReadTriggerLine` and `SystemInfoExtractor.ParseBanner` each field is updated under
    an `if` on its own match, as the source's `if (match)` blocks are;
  - `globalOom` and `tainted` are assigned directly from a test of the line, as in the source.
- **Properties.** The properties the source and its tests promise are lemmas about those
  specification functions:
  - round trips from a printed line back to its record;
  - first-occurrence and last-reading-wins laws;
  - region membership, order and count bounds for frames and processes;
  - the preserved quirks:
    - plain `DMA` rows are not matched;
    - `RIP` reads `0033:0`;
    - a later `sec_pagetables:` line overwrites `pagetables`;
    - a lowmem row of only spaces gives `[NaN]`;
  - the shape of `parse`'s result and its diagnostics.

Module layout:

| module | file | content |
|---|---|---|
| `Chars`, `Wrappers`, `Numerals`, `Strings`, `Matching` | `chars.dfy` `wrappers.dfy` `decimal.dfy` `strings.dfy` `matching.dfy` | character classes, `Option`, digit runs and their printers, `includes`/`trim`/`split`, anchored recognizers |
| `Scans`, `Fields` | `scans.dfy` `fields.dfy` | line scans and region flags, `findLineContaining`, `extractKB`, first-match captures |
| `OOMTypes`, `Diagnostics` | `oom_types.dfy` `diagnostics.dfy` | the record types, the error list |
| `Classifier` | `classifier.dfy` | `isOOMLog` |
| `Trigger`, `SystemInfoExtractor`, `CallStackExtractor` | `trigger.dfy` `system_info.dfy` `call_stack.dfy` | `parseTrigger`, `parseSystemInfo`, `parseCallStack` |
| `MemInfoPagesExtractor`, `MemoryZonesExtractor`, `BuddyExtractor`, `MemoryTotalsExtractor`, `LowmemExtractor`, `MemoryExtractor` | `memory_pages.dfy` `memory_zones.dfy` `buddy.dfy` `memory_totals.dfy` `lowmem.dfy` `memory_info.dfy` | `parseMemoryInfo` and its eight sub-parsers |
| `ProcessTableExtractor`, `KillDecisionExtractor` | `process_table.dfy` `kill_decision.dfy` | `parseProcessList`, `parseOOMConstraint`, `parseKilledProcess` |
| `OOMParser` | `driver.dfy` | `parse` |

## Model

| member | source | states |
|---|---|---|
| Classifier.IsOOMLog | src/services/OOMParserService.ts:63-69 | a text is an OOM log exactly when `invoked oom-killer`, `Out of memory:` or `oom-kill:` occurs at some position of it |
| Classifier.EmptyIsNotOOMLog | src/services/OOMParserService.test.ts:104-108 | the empty text is not an OOM log |
| Classifier.OOMLogInContext | src/services/OOMParserService.ts:63-69 | text around an OOM log never stops it being one |
| Classifier.NotOOMLogSlice | src/services/OOMParserService.ts:63-69 | every slice of a text that is not an OOM log is not one either |
| Classifier.MarkerExamples | src/services/OOMParserService.test.ts:92-102 | each of the three markers on its own line is recognised |
| Diagnostics.ErrorLog.constructor | src/services/OOMParserService.ts:27 | the error list starts empty |
| Diagnostics.ErrorLog.Push | src/services/OOMParserService.ts:87 | a push appends exactly its message at the end and changes nothing else |
| Strings.Trim | src/services/OOMParserService.ts:624 | the result is the input with whitespace-only runs cut from both ends, and it neither starts nor ends with whitespace |
| Strings.TrimIdempotent | src/services/OOMParserService.ts:624 | trimming twice is trimming once |
| Strings.TrimEmptyIff | src/services/OOMParserService.ts:583 | trimming gives the empty text exactly when the text is all whitespace |
| Strings.Split | src/services/OOMParserService.ts:28 | splitting gives at least one piece and no piece holds the separator |
| Strings.JoinSplit | src/services/OOMParserService.ts:28 | joining the pieces of a split with the separator gives the text back |
| Strings.SplitJoin | src/services/OOMParserService.ts:28 | splitting a join of separator-free pieces gives the pieces back |
| Numerals.NatOfDecimal | src/services/OOMParserService.ts:143 | `parseInt` of the decimal digits of a count gives the count |
| Numerals.IntOfSignedDecimal | src/services/OOMParserService.ts:623 | `parseInt` of a signed decimal gives the integer |
| Matching.Leftmost | src/services/OOMParserService.ts:92 | a non-global match is found at the leftmost position where the pattern matches, and there is none when it matches nowhere |
| Matching.LeftmostAt | src/services/OOMParserService.ts:92 | the match at a position before which the pattern never matches is the result |
| Matching.LeftmostNeedsLabel | src/services/OOMParserService.ts:142 | a pattern that starts with literal text matches only lines containing that text |
| Matching.NatAt | src/services/OOMParserService.ts:142 | `\d+` takes the maximal digit run and its value |
| Fields.FindLineContaining | src/services/OOMParserService.ts:737-739 | the result is the first line containing the search text; there is none exactly when no line contains it; a found line is never empty (`\|\| null`) |
| Fields.FindLineContainingFinds | src/services/OOMParserService.ts:737-739 | a line containing the search text guarantees a result |
| Fields.KBFieldAt | src/services/OOMParserService.ts:741-745 | `field[:\s]*(-?\d+)kB` with the `i` flag at a position: the field ignoring case, colons and spaces, a signed number, then `kB` ignoring case; the value is that number |
| Fields.ExtractKBLeftmost | src/services/OOMParserService.ts:741-745 | `extractKB` returns the value of the leftmost match |
| Fields.ExtractKBNoMatch | src/services/OOMParserService.ts:741-745 | with no match anywhere `extractKB` is 0 |
| Fields.ExtractKBNoField | src/services/OOMParserService.ts:741-745 | a line that does not contain the field name, ignoring case, gives 0 |
| Fields.FirstNatAfterIs | src/services/OOMParserService.ts:703-704 | `lit(\d+)` reads the number after the first occurrence of `lit` when digits follow it there |
| Fields.FirstIntAfterIs | src/services/OOMParserService.ts:727-728 | `lit(-?\d+)` reads the signed number after the first occurrence of `lit` when one follows it there |
| Fields.IntAfterRead | src/services/OOMParserService.ts:727-728 | a printed signed decimal, a negative one included, after the first `lit` and ended by a non-digit is read back as that integer |
| Fields.FirstNatKBAfterIs | src/services/OOMParserService.ts:709-710 | `lit(\d+)kB` reads the number after the first occurrence of `lit` when digits and `kB` follow it there |
| Fields.FirstUpToIs | src/services/OOMParserService.ts:655 | `lit([^c]+)` captures after the first occurrence of `lit` |
| Fields.FirstUpTo | src/services/OOMParserService.ts:661-662 | a `lit([^c]+)` capture is non-empty, holds no `c`, and follows `lit` in the line |
| Fields.FirstWordAfter | src/services/OOMParserService.ts:652-653 | a `lit(\w+)` capture is a non-empty word, and `lit` directly followed by that word occurs in the line |
| Fields.NatAfterSpacePiece | src/services/OOMParserService.ts:142-146 | on a space-joined line where a piece ends with the label and the next piece is a count, `label\s*(\d+)` reads that count |
| Fields.TokenAfterSpacePiece | src/services/OOMParserService.ts:148-152 | on a space-joined line where a piece ends with the label and the next piece is a non-space token, `label\s*(\S+)` reads that token |
| Fields.CaptureOr | src/services/OOMParserService.ts:652-653 | a field takes the capture when the pattern matched and keeps its previous value otherwise |
| Trigger.TimestampCapture | src/services/OOMParserService.ts:92-95 | `^\[(.*?)\]` matches exactly when the line opens with `[` and closes a bracket before any line terminator; the capture is the text up to the first `]` |
| Trigger.ProcessCapture | src/services/OOMParserService.ts:98-101 | the process capture is a non-empty word of a line that opens with `[` |
| Trigger.NameBeforeInvokedAt | src/services/OOMParserService.ts:98 | `\s+(\w+)\s+invoked\s+oom-killer` yields a non-empty word after whitespace |
| Trigger.GfpAt | src/services/OOMParserService.ts:104 | `gfp_mask=([^(]+)\(([^)]+)\)` captures the mask with no `(` and the non-empty flag text with no `)`, both spelled exactly as in the line |
| Trigger.GfpFlags | src/services/OOMParserService.ts:106 | the flags are the pieces of the inner text split on `\|`, each trimmed, in their original order |
| Trigger.GfpFlagsOfJoin | src/services/OOMParserService.ts:106 | splitting a `\|`-join of trimmed flags gives the flags back |
| Trigger.TimestampField | src/services/OOMParserService.ts:92-95 | a line not opening with `[` has an empty timestamp; a timestamp is trimmed and holds no `]` |
| Trigger.GfpMaskField | src/services/OOMParserService.ts:104-108 | without a `gfp_mask=` match the mask is empty; a mask is trimmed and holds no `(` |
| Trigger.GfpFlagsField | src/services/OOMParserService.ts:104-108 | there are flags exactly when `gfp_mask=` matched, each trimmed and free of `\|` |
| Trigger.MineTrigger | src/services/OOMParserService.ts:92-120 | every trigger field keeps its default when its pattern cannot match, e.g. order 0 without `order=`; otherwise it has the captured shape |
| Trigger.TriggerOf | src/services/OOMParserService.ts:85-120 | with no `invoked oom-killer` line the trigger is the default record; otherwise it is the trigger mined from the first such line |
| Trigger.TriggerDiagnostics | src/services/OOMParserService.ts:85-89 | the trigger extractor reports at most one message, and reports it exactly when no line contains the anchor |
| Trigger.ParseTrigger | src/services/OOMParserService.ts:75-123 | returns the trigger of the lines and appends exactly its diagnostics to the error list |
| Trigger.ReadTriggerLine | src/services/OOMParserService.ts:92-120 | the field-by-field updates give the mined trigger |
| Trigger.TriggerHeadRoundTrip | src/services/OOMParserService.ts:92-101 | from `[ts] process invoked oom-killer…` the captures give back the timestamp and the process |
| Trigger.TriggerLineRoundTrip | src/services/OOMParserService.ts:92-120 | `[ts] proc invoked oom-killer: gfp_mask=M(F1\|F2…), order=O, oom_score_adj=A` is read back as exactly that trigger, every field included |
| Trigger.MineTriggerHead | src/services/OOMParserService.ts:92-101 | such a line yields the trimmed timestamp and the process name |
| SystemInfoExtractor.KernelVersionAt | src/services/OOMParserService.ts:156 | `(?:tainted\|Not tainted)\s+(\S+)` starts at one of the two words and captures a non-empty non-space token |
| SystemInfoExtractor.FirstKernelVersion | src/services/OOMParserService.ts:156-157 | a kernel version is found only on a line containing `tainted` and holds no whitespace |
| SystemInfoExtractor.MineBanner | src/services/OOMParserService.ts:140-158 | `tainted` holds exactly when the CPU line lacks `Not tainted`; each other banner field keeps its default without its label; hardware fields stay empty |
| SystemInfoExtractor.HardwareAt | src/services/OOMParserService.ts:163 | the hardware pattern starts at `Hardware name:` and captures vendor without `,`, model without `/`, platform without `,`, and a BIOS text without line terminators |
| SystemInfoExtractor.WithHardware | src/services/OOMParserService.ts:161-170 | the hardware line changes the four hardware fields only, and none of them without a match |
| SystemInfoExtractor.SystemInfoOf | src/services/OOMParserService.ts:125-173 | without a `CPU:` line the banner fields are defaults; with one, the banner fields are those mined from the first such line and `tainted` follows `Not tainted` on it; without a hardware line the hardware fields are empty, with one they are those the first such line gives |
| SystemInfoExtractor.ParseSystemInfo | src/services/OOMParserService.ts:125-173 | the extractor computes the system info of the lines |
| SystemInfoExtractor.ParseBanner | src/services/OOMParserService.ts:141-158 | the field-by-field updates give the mined banner |
| SystemInfoExtractor.ParseHardware | src/services/OOMParserService.ts:162-170 | the hardware updates give the banner with the hardware line applied |
| SystemInfoExtractor.SystemInfoParts | src/services/OOMParserService.ts:139-172 | the banner step followed by the hardware step is the system info of the lines |
| SystemInfoExtractor.PlatformBiosPrinted | src/services/OOMParserService.ts:163 | `platform, BIOS bios` is read back as that platform and BIOS |
| SystemInfoExtractor.BannerLineRoundTrip | src/services/OOMParserService.ts:142-157 | `… CPU: c PID: p Comm: x Kdump: k Not tainted v …` is read back as exactly that untainted banner |
| SystemInfoExtractor.HardwareLineRoundTrip | src/services/OOMParserService.ts:161-168 | `Hardware name: V, M/P, BIOS B` applies the trimmed vendor, model, platform and BIOS texts to the record |
| SystemInfoExtractor.BiosAtPrinted | src/services/OOMParserService.ts:163 | `, BIOS bios` is read back as that BIOS text |
| CallStackExtractor.FrameAt | src/services/OOMParserService.ts:198 | a frame match is a non-empty word followed by `+0x` and `/0x` hexadecimal numbers, the function name spelled as in the line |
| CallStackExtractor.RegisterAt | src/services/OOMParserService.ts:209-260 | a register match starts at its label ignoring case and captures a non-empty run of its value class (`[0-9a-f:]` for RIP/RSP, `[0-9a-f]` otherwise) |
| CallStackExtractor.Reading | src/services/OOMParserService.ts:209-260 | a line sets a register only when it contains that register's gate label and is not a marker line |
| CallStackExtractor.Readings | src/services/OOMParserService.ts:209-260 | the registers a line sets are exactly those with a reading, with those values |
| CallStackExtractor.RegistersAfterIsLastReading | src/services/OOMParserService.ts:209-260 | a register is set after a scan exactly when some line reads it, to the value of the last such line |
| CallStackExtractor.CodeNoteAt | src/services/OOMParserService.ts:264 | `Code:\s*(.+)` captures a non-empty text without line terminators |
| CallStackExtractor.CodeNoteOf | src/services/OOMParserService.ts:263-266 | a code note comes only from a non-marker line with both `Code:` and `Unable to access` |
| CallStackExtractor.ParseCallStack | src/services/OOMParserService.ts:175-274 | the loop computes the call stack of the lines: frames, registers and the last code note |
| CallStackExtractor.ScanStep | src/services/OOMParserService.ts:185-266 | one more line adds at most one frame, updates the trace flag as the markers say, merges its readings, and replaces the code note when it has one |
| CallStackExtractor.MarkerReadsNothing | src/services/OOMParserService.ts:186-194 | a marker line sets no register |
| CallStackExtractor.FramesComeFromTrace | src/services/OOMParserService.ts:182-206 | every frame comes from a non-marker line whose last marker before it is `Call Trace:` |
| CallStackExtractor.TraceFramesAreReported | src/services/OOMParserService.ts:182-206 | every frame line inside a trace region is reported |
| CallStackExtractor.FramesInLineOrder | src/services/OOMParserService.ts:185-206 | the frames of a prefix of the lines come first, in order |
| CallStackExtractor.FrameCountBound | src/services/OOMParserService.ts:182-206 | there are at most as many frames as non-marker lines inside trace regions |
| CallStackExtractor.RegistersEmptyIff | src/services/OOMParserService.ts:269-271 | the partial register record is empty exactly when no line reads any register |
| CallStackExtractor.RegistersReported | src/services/OOMParserService.ts:209-271 | `registers` is null exactly when nothing matched; otherwise each register is its last reading |
| CallStackExtractor.FrameRoundTrip | src/services/OOMParserService.ts:196-206 | ` func+0xOFF/0xSIZE` is read back as that frame |
| CallStackExtractor.UserSpaceRip | src/services/OOMParserService.test.ts:283-287 | `RIP: 0033:0x…` reads `0033:0` |
| MemInfoPagesExtractor.StripTimestamp | src/services/OOMParserService.ts:326 | stripping leaves a suffix of the line; a line without a bracketed timestamp is unchanged |
| MemInfoPagesExtractor.CountWithLine | src/services/OOMParserService.ts:328-386 | one line leaves each counter unchanged unless that line reads it |
| MemInfoPagesExtractor.RegionFrom | src/services/OOMParserService.ts:316-324 | region lines come from the log and hold neither `Mem-Info:` nor `Node ` |
| MemInfoPagesExtractor.SeekFrom | src/services/OOMParserService.ts:316-324 | with no `Mem-Info:` line ahead the region is empty |
| MemInfoPagesExtractor.MemInfoLines | src/services/OOMParserService.ts:316-324 | the counted lines are log lines without either marker, none when there is no `Mem-Info:` line |
| MemInfoPagesExtractor.ParseMemInfoPages | src/services/OOMParserService.ts:291-391 | the loop, with its flag and `break`, computes the page counters of the region |
| MemInfoPagesExtractor.RegionStep | src/services/OOMParserService.ts:316-324 | how one line opens, ends or extends the region |
| MemInfoPagesExtractor.CountIsLastReading | src/services/OOMParserService.ts:328-386 | each counter is the last reading in the region, 0 without one |
| MemInfoPagesExtractor.MemInfoCountIsLastReading | src/services/OOMParserService.ts:291-391 | each counter of the lines is the last reading after the first `Mem-Info:` line, 0 without one |
| MemInfoPagesExtractor.MemInfoBlock | src/services/OOMParserService.ts:316-324 | the region is the lines strictly between the first `Mem-Info:` line and the next `Node ` line |
| MemInfoPagesExtractor.SecondaryOverwritesPagetables | src/services/OOMParserService.ts:367-371 | a ` sec_pagetables:N` line reads `pagetables` as N |
| MemInfoPagesExtractor.PagetablesReading | src/services/OOMParserService.ts:367-371 | an untimestamped line reads `pagetables` as its first `pagetables:` number |
| MemoryZonesExtractor.NodeNumberAt | src/services/OOMParserService.ts:399 | `Node\s+(\d+)` starts at `Node` |
| MemoryZonesExtractor.NodeMemoryOfLine | src/services/OOMParserService.ts:396-428 | a node record comes exactly from a summary line with a node number; its node is that number, `allUnreclaimable` follows `all_unreclaimable? yes`, and its fields are the `extractKB` values |
| MemoryZonesExtractor.ParseNodeMemory | src/services/OOMParserService.ts:393-430 | the loop pushes one node record per summary line, in line order |
| MemoryZonesExtractor.NodeMemoryFromSummaryLines | src/services/OOMParserService.ts:393-430 | every node record comes from a summary line, and every summary line with a node number is reported |
| MemoryZonesExtractor.ZoneThen | src/services/OOMParserService.ts:437 | `(DMA32?\|Normal)` matches `DMA32`, `DMA3` or `Normal`, in backtracking order |
| MemoryZonesExtractor.PlainDmaIsNoZone | src/services/OOMParserService.ts:437 | `DMA` followed by whitespace matches no zone name |
| MemoryZonesExtractor.ZoneRowAt | src/services/OOMParserService.ts:437 | a zone row starts at `Node` and names a zone |
| MemoryZonesExtractor.ZoneOfLine | src/services/OOMParserService.ts:437-466 | a zone record comes exactly from a zone row; its node, zone and free are that row's captures, it names a zone, and each of its eighteen other fields is the `extractKB` value of its label on the line |
| MemoryZonesExtractor.ParseZones | src/services/OOMParserService.ts:432-468 | the loop pushes one record per zone row, in line order |
| MemoryZonesExtractor.ZonesAreNamed | src/services/OOMParserService.ts:437 | no zone record is named plain `DMA` |
| MemoryZonesExtractor.PlainDmaRowRejected | src/services/OOMParserService.test.ts:382-399 | `Node N DMA free:…` yields no zone |
| MemoryZonesExtractor.ZoneRowPrinted | src/services/OOMParserService.ts:437 | `Node N DMA32\|Normal free:FkB…` is read back as node, zone and free |
| MemoryZonesExtractor.HugepagesAt | src/services/OOMParserService.ts:507 | a hugepages match starts at `Node` |
| MemoryZonesExtractor.HugepagesOfLine | src/services/OOMParserService.ts:504-517 | a hugepages record comes only from a line containing `Node` |
| MemoryZonesExtractor.ParseHugepages | src/services/OOMParserService.ts:501-521 | the loop pushes one record per hugepages row, in line order |
| MemoryZonesExtractor.HugepagesRoundTrip | src/services/OOMParserService.ts:506-516 | a printed hugepages row is read back as its record |
| BuddyExtractor.LazyGroupAt | src/services/OOMParserService.ts:475 | the lazy group `(.+?)` takes at least one character and is followed by a total `\s*=\s*(\d+)kB`, which is the value captured |
| BuddyExtractor.LazyUntilFirst | src/services/OOMParserService.ts:475 | a lazy group stops at the first position where what must follow it matches, and crosses no line terminator |
| BuddyExtractor.LazyUntilReaches | src/services/OOMParserService.ts:475 | conversely, a lazy group reaches the first match of what follows it when nothing stops it before |
| BuddyExtractor.LazyGroupFirst | src/services/OOMParserService.ts:475 | the block group takes no line terminator and ends at the first position after its start where a total follows, not the last one |
| BuddyExtractor.LazyGroupReaches | src/services/OOMParserService.ts:475 | conversely, a block group with no total and no line terminator before a total ends at that total and captures it |
| BuddyExtractor.BuddyRowAt | src/services/OOMParserService.ts:475 | a buddy row names a zone |
| BuddyExtractor.BlockAt | src/services/OOMParserService.ts:479 | a block match advances and its flags hold no `)` |
| BuddyExtractor.BlocksFrom | src/services/OOMParserService.ts:479-489 | the blocks of a group have flags without `)` |
| BuddyExtractor.BlockRoundTrip | src/services/OOMParserService.ts:479 | a printed block `count*sizekB (flags)` is read back |
| BuddyExtractor.BlocksRoundTrip | src/services/OOMParserService.ts:479-489 | a space-separated run of printed blocks is read back, in order |
| BuddyExtractor.EmptyBlockSkipped | src/services/OOMParserService.ts:479 | a `0*SkB` block without flags contributes nothing |
| BuddyExtractor.BuddyOfLine | src/services/OOMParserService.ts:475-496 | a buddy record comes exactly from a buddy row; its node and zone are the row's first two captures, it names a zone, its blocks are those read from the group and its total is the captured total |
| BuddyExtractor.BuddyRowRoundTrip | src/services/OOMParserService.ts:475-496 | a printed row `Node N ZONE: <blocks> = TkB` is read back as the record with that node, zone, blocks (in order) and total |
| BuddyExtractor.ParseBuddyInfo | src/services/OOMParserService.ts:470-499 | the loop pushes one record per buddy row, in line order |
| BuddyExtractor.BuddyZonesAreNamed | src/services/OOMParserService.ts:475 | no buddy record is named plain `DMA` |
| MemoryTotalsExtractor.ParseSwapInfo | src/services/OOMParserService.ts:523-542 | the loop computes the swap totals of the lines |
| MemoryTotalsExtractor.SwapStep | src/services/OOMParserService.ts:530-539 | one more line applies its own readings only |
| MemoryTotalsExtractor.SwapIsLastReading | src/services/OOMParserService.ts:530-539 | each swap total is its last reading |
| MemoryTotalsExtractor.SwapCountIsLast | src/services/OOMParserService.ts:530-539 | each swap total is its last reading, 0 without one |
| MemoryTotalsExtractor.SwapDefaultsToZero | src/services/OOMParserService.ts:524-528 | a total no line reads stays 0 |
| MemoryTotalsExtractor.FreeSwapPrinted | src/services/OOMParserService.ts:531-532 | `Free swap  = NkB` reads N |
| MemoryTotalsExtractor.TotalSwapPrinted | src/services/OOMParserService.ts:534-535 | `Total swap = NkB` reads N |
| MemoryTotalsExtractor.SwapCachePrinted | src/services/OOMParserService.ts:537-538 | `N pages in swap cache` reads N |
| MemoryTotalsExtractor.ParsePageCacheInfo | src/services/OOMParserService.ts:544-575 | the loop computes the page-cache totals of the lines |
| MemoryTotalsExtractor.ReadCacheLine | src/services/OOMParserService.ts:555-571 | the six guarded updates apply one line's readings |
| MemoryTotalsExtractor.CacheStep | src/services/OOMParserService.ts:554-572 | one more line applies its own readings only |
| MemoryTotalsExtractor.CacheIsLastReading | src/services/OOMParserService.ts:554-572 | each page-cache total is its last reading |
| MemoryTotalsExtractor.CacheCountIsLast | src/services/OOMParserService.ts:554-572 | each page-cache total is its last reading, 0 without one |
| MemoryTotalsExtractor.CacheDefaultsToZero | src/services/OOMParserService.ts:545-552 | a total no line reads stays 0 |
| MemoryTotalsExtractor.CachePrinted | src/services/OOMParserService.ts:555-571 | `N <label>` reads N for each of the six labels |
| MemoryTotalsExtractor.CmaLineIsNotReserved | src/services/OOMParserService.ts:564-568 | `N pages cma reserved` is no `pages reserved` reading |
| LowmemExtractor.ReserveAt | src/services/OOMParserService.ts:581 | the capture follows `lowmem_reserve[]:` and is a non-empty run of digits and spaces |
| LowmemExtractor.SplitOnSpaces | src/services/OOMParserService.ts:583 | splitting on whitespace runs gives at least one piece |
| LowmemExtractor.ParseIntToken | src/services/OOMParserService.ts:583 | `parseInt` gives a number exactly when the token starts with a digit |
| LowmemExtractor.ParseAll | src/services/OOMParserService.ts:583 | one value per token |
| LowmemExtractor.LowmemOfLine | src/services/OOMParserService.ts:580-585 | a row comes exactly from a line where the pattern matches, and it is the values of the trimmed, split capture |
| LowmemExtractor.ParseLowmemReserve | src/services/OOMParserService.ts:577-589 | the loop pushes one row per matching line, in line order |
| LowmemExtractor.RowValues | src/services/OOMParserService.ts:583 | a capture of only spaces gives `[NaN]`; any other gives numbers only |
| LowmemExtractor.TrailingSpaceGivesNaN | src/services/OOMParserService.ts:581-583 | `lowmem_reserve[]: ` gives `[NaN]` |
| LowmemExtractor.RowRoundTrip | src/services/OOMParserService.ts:580-585 | a printed row of counts is read back as those counts |
| MemoryExtractor.ParseMemoryInfo | src/services/OOMParserService.ts:276-289 | the memory info is its eight parts of the lines; each list has at most one entry per line |
| ProcessTableExtractor.PidAt | src/services/OOMParserService.ts:612 | `\[\s*(\d+)\]` starts at `[` |
| ProcessTableExtractor.ColumnsFrom | src/services/OOMParserService.ts:612 | `(\s+(\d+)){n}` gives exactly n numbers |
| ProcessTableExtractor.ProcessRowAt | src/services/OOMParserService.ts:611-613 | a row starts at `[` and its name is trimmed |
| ProcessTableExtractor.ProcessOfLine | src/services/OOMParserService.ts:611-625 | a process comes only from a line containing `[` |
| ProcessTableExtractor.ParseProcessList | src/services/OOMParserService.ts:591-631 | the loop with its flag computes the processes of the lines |
| ProcessTableExtractor.TableStep | src/services/OOMParserService.ts:595-627 | one more line adds at most one process and updates the table flag as the markers say |
| ProcessTableExtractor.ProcessesComeFromTable | src/services/OOMParserService.ts:593-627 | every process comes from a non-marker, non-header line whose last marker before it is `Tasks state (memory values in pages)` |
| ProcessTableExtractor.TableRowsAreReported | src/services/OOMParserService.ts:593-627 | every matching row inside a table region is reported |
| ProcessTableExtractor.ProcessesInLineOrder | src/services/OOMParserService.ts:595-627 | the processes of a prefix of the lines come first, in order |
| ProcessTableExtractor.ProcessCountBound | src/services/OOMParserService.ts:593-627 | there are at most as many processes as lines inside table regions |
| ProcessTableExtractor.NoHeadingNoProcesses | src/services/OOMParserService.ts:593-599 | a log without a table heading has no processes |
| ProcessTableExtractor.RowRoundTrip | src/services/OOMParserService.ts:610-625 | a printed table row is read back as its process |
| KillDecisionExtractor.NodemaskField | src/services/OOMParserService.ts:655-659 | the nodemask is a trimmed value without `,` and never `(null)`, and is null without a `nodemask=` match |
| KillDecisionExtractor.NullNodemask | src/services/OOMParserService.ts:655-659 | `nodemask=(null)` gives a null nodemask |
| KillDecisionExtractor.ConstraintFields | src/services/OOMParserService.ts:652-679 | `globalOom` holds exactly when the line has `global_oom`; each field keeps its default without its label; captures have the pattern's shape |
| KillDecisionExtractor.ConstraintOf | src/services/OOMParserService.ts:633-682 | without an `oom-kill:` line the constraint is the default; otherwise it is the constraint mined from the first such line; `globalOom` implies an anchor line with `global_oom` |
| KillDecisionExtractor.ConstraintDiagnostics | src/services/OOMParserService.ts:646-650 | at most one message, exactly when no line contains `oom-kill:` |
| KillDecisionExtractor.ParseOOMConstraint | src/services/OOMParserService.ts:633-682 | returns the constraint of the lines and appends exactly its diagnostics |
| KillDecisionExtractor.ReadConstraintLine | src/services/OOMParserService.ts:652-679 | the field-by-field updates give the mined constraint |
| KillDecisionExtractor.ConstraintLineRoundTrip | src/services/OOMParserService.ts:652-679 | `oom-kill:constraint=C,nodemask=M,cpuset=S,mems_allowed=N[,global_oom],task_memcg=G,task=T,pid=P,uid=U` is read back as exactly that constraint, a null node mask and `globalOom` included |
| KillDecisionExtractor.ReadNodemask | src/services/OOMParserService.ts:655-659 | the nodemask update gives the nodemask field |
| KillDecisionExtractor.KilledNameAt | src/services/OOMParserService.ts:706 | `Killed process \d+ \(([^)]+)\)` starts at its label and captures a non-empty name without `)` |
| KillDecisionExtractor.KilledNameOf | src/services/OOMParserService.ts:706-707 | a name is found only on a line containing `Killed process ` |
| KillDecisionExtractor.MineKilled | src/services/OOMParserService.ts:703-728 | each victim field keeps its default without its label, and the name holds no `)` |
| KillDecisionExtractor.KilledOf | src/services/OOMParserService.ts:684-729 | without an `Out of memory: Killed process` line the victim is the default record; otherwise it is the victim mined from the first such line |
| KillDecisionExtractor.KilledDiagnostics | src/services/OOMParserService.ts:697-701 | at most one message, exactly when no line contains the anchor |
| KillDecisionExtractor.ParseKilledProcess | src/services/OOMParserService.ts:684-729 | returns the victim of the lines and appends exactly its diagnostics |
| KillDecisionExtractor.ReadKilledLine | src/services/OOMParserService.ts:703-728 | the field-by-field updates give the mined victim |
| KillDecisionExtractor.KilledHeadRoundTrip | src/services/OOMParserService.ts:703-707 | `…Killed process PID (name)…` is read back as that pid and name |
| KillDecisionExtractor.KilledLineRoundTrip | src/services/OOMParserService.ts:703-728 | `Out of memory: Killed process P (N) total-vm:…kB, anon-rss:…kB, file-rss:…kB, shmem-rss:…kB, UID:U pgtables:…kB oom_score_adj:A` is read back as exactly that victim, a negative score included |
| OOMParser.LinesOf | src/services/OOMParserService.ts:28 | the lines are at least one and hold no newline |
| OOMParser.Parse | src/services/OOMParserService.ts:26-53 | `parse` returns the result of the text: the seven extractors' records, the text, and the shared error list |
| OOMParser.ParseSections | src/services/OOMParserService.ts:32-35 | the four extractors that report nothing compute their parts |
| OOMParser.ParseKillDecision | src/services/OOMParserService.ts:36-37 | the constraint and victim extractors compute their parts and append their diagnostics in that order |
| OOMParser.ErrorsReport | src/services/OOMParserService.ts:31-37 | the diagnostics name exactly the missing anchors, each once, in extractor order |
| OOMParser.ResultReport | src/services/OOMParserService.ts:39-53 | `data` is present, `rawLog` is the input, `parseErrors` is `errors`, and `success` holds exactly when all three anchors occur |
| OOMParser.MissingFromText | src/services/OOMParserService.ts:28 | text absent from the log is absent from every line |
| OOMParser.NotOOMLogErrors | src/services/OOMParserService.ts:31-37 | a text that is not an OOM log yields exactly the three messages, in order |
| OOMParser.KilledNeedsKillMarker | src/services/OOMParserService.ts:697 | a log without `Out of memory:` has no victim line |
| OOMParser.SuccessIsOOMLog | src/services/OOMParserService.ts:40 | a successful parse is always of an OOM log |

## Left out

- `parse`'s `catch` branch (`src/services/OOMParserService.ts:54-60`) is not modelled. Nothing in the code it guards throws for a string input, so `Parse` is total and never gives a null `data`.
- Numbers are unbounded integers. `parseInt`'s loss of precision above 2^53 is not modelled.
- The `_errors` parameter of `parseSystemInfo`, `parseCallStack`, `parseMemoryInfo` and `parseProcessList` is left out, because those extractors never write it.
- Register values the source leaves undefined in its partial record are `""`. No match produces `""`, because every captured value is non-empty.
- The `i` flag folds ASCII letters only. Outside ASCII, the non-Unicode case folding of JavaScript never maps a character onto an ASCII one.
- MemoryZonesExtractor.HugepagesOfLine's contract only ties a record to a `Node` label. What it reads is stated by MemoryZonesExtractor.HugepagesRoundTrip for printed rows.
- BuddyExtractor.BuddyRowRoundTrip: the printed row has at least one block and the zone `DMA32` or `Normal`, and its flags hold no `)`, `=` or line terminator. With no blocks the greedy `\s+` gives a space back to the group, which this printer does not cover. The zone `DMA3`, which the pattern `DMA32?` also accepts, is not printed.
- SystemInfoExtractor.BannerLineRoundTrip covers the untainted banner only. A kernel prints `Tainted: G …` for a tainted one; that line has no lower-case `tainted`, so the source leaves its version empty, and `MineBanner` states that case.
- SystemInfoExtractor.HardwareLineRoundTrip reads the four fields back trimmed, as the source does; it needs fields without the delimiters of the pattern.
- KillDecisionExtractor.ConstraintLineRoundTrip prints the line without the `oom_memcg=` field some kernels add, which the source does not read; values are printed without `,` or `=`.
- Trigger.TriggerLineRoundTrip needs at least one flag and values without the pattern's delimiters.
- KillDecisionExtractor.KilledLineRoundTrip needs a process name without `)` or `:`.
- ProcessTableExtractor.RowRoundTrip: rows are printed with single spaces between the columns; the recognizer itself accepts any whitespace run.
- The application around the engine is not part of this model: the React pages and components, the compression service, and the floating-point formatting helpers.
- Assertions about the contents of the test fixture logs are not stated, because those logs are not part of this model: frame names, process and hugepage counts, and the hardware line of the second fixture.
