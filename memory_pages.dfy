/**
 * The global page counters of the `Mem-Info:` block: the lines after the first `Mem-Info:` line,
 * up to the first later line that mentions `Node `, each read with its timestamp stripped.
 */
module MemInfoPagesExtractor {
  import opened Wrappers
  import opened Chars
  import opened Strings
  import opened Numerals
  import opened Matching
  import opened Fields
  import opened Scans
  import opened OOMTypes
  import opened Trigger

  const MemInfoMarker := "Mem-Info:"
  const NodeMarker := "Node "

  /** `^\[.*?\]\s*` removed from the front: a leading bracketed timestamp and the white space after it. */
  function StripTimestamp(line: string): (r: string)
    ensures |r| <= |line| && r == line[|line| - |r|..]
    ensures TimestampCapture(line).None? ==> r == line
    ensures TimestampCapture(line).Some? ==> |r| < |line| && (r == [] || !IsSpace(r[0]))
  {
    match TimestampCapture(line)
    case None => line
    case Some(t) => line[SpanEnd(line, |t| + 2, IsSpace)..]
  }

  /** The counters of the block, one per field of the record. */
  datatype PageCounter =
    | ActiveAnon | InactiveAnon | IsolatedAnon
    | ActiveFile | InactiveFile | IsolatedFile
    | Unevictable | Dirty | Writeback
    | SlabReclaimable | SlabUnreclaimable
    | Mapped | Shmem | Pagetables | SecPagetables | Bounce
    | KernelMiscReclaimable
    | Free | FreePcp | FreeCma

  /** The label each counter is read after (`label(\d+)`, case-sensitive, anywhere in the line). */
  function PageLabel(c: PageCounter): string {
    match c
    case ActiveAnon => "active_anon:" case InactiveAnon => "inactive_anon:" case IsolatedAnon => "isolated_anon:"
    case ActiveFile => "active_file:" case InactiveFile => "inactive_file:" case IsolatedFile => "isolated_file:"
    case Unevictable => "unevictable:" case Dirty => "dirty:" case Writeback => "writeback:"
    case SlabReclaimable => "slab_reclaimable:" case SlabUnreclaimable => "slab_unreclaimable:"
    case Mapped => "mapped:" case Shmem => "shmem:" case Pagetables => "pagetables:"
    case SecPagetables => "sec_pagetables:" case Bounce => "bounce:"
    case KernelMiscReclaimable => "kernel_misc_reclaimable:"
    case Free => "free:" case FreePcp => "free_pcp:" case FreeCma => "free_cma:"
  }

  /** The field of the record that holds counter `c`. */
  function Count(p: MemInfoPages, c: PageCounter): nat {
    match c
    case ActiveAnon => p.activeAnon case InactiveAnon => p.inactiveAnon case IsolatedAnon => p.isolatedAnon
    case ActiveFile => p.activeFile case InactiveFile => p.inactiveFile case IsolatedFile => p.isolatedFile
    case Unevictable => p.unevictable case Dirty => p.dirty case Writeback => p.writeback
    case SlabReclaimable => p.slabReclaimable case SlabUnreclaimable => p.slabUnreclaimable
    case Mapped => p.mapped case Shmem => p.shmem case Pagetables => p.pagetables
    case SecPagetables => p.secPagetables case Bounce => p.bounce
    case KernelMiscReclaimable => p.kernelMiscReclaimable
    case Free => p.free case FreePcp => p.freePcp case FreeCma => p.freeCma
  }

  const NoPages := MemInfoPages(0, 0, 0, 0, 0, 0, 0, 0, 0, 0, 0, 0, 0, 0, 0, 0, 0, 0, 0, 0)

  /** What a region line sets counter `c` to, if anything. */
  function PageReading(line: string, c: PageCounter): Option<nat> {
    FirstNatAfter(StripTimestamp(line), PageLabel(c))
  }

  function PageReadingOf(c: PageCounter): string -> Option<nat> {
    (line: string) => PageReading(line, c)
  }

  /** Counter `c` after one region line: the line's reading, or the value it had. */
  function Pick(line: string, c: PageCounter, current: nat): nat {
    PageReading(line, c).GetOr(current)
  }

  /** The record whose counter `c` is `g(c)`. */
  function Record(g: PageCounter -> nat): MemInfoPages {
    MemInfoPages(
      g(ActiveAnon), g(InactiveAnon), g(IsolatedAnon), g(ActiveFile), g(InactiveFile), g(IsolatedFile),
      g(Unevictable), g(Dirty), g(Writeback), g(SlabReclaimable), g(SlabUnreclaimable), g(Mapped),
      g(Shmem), g(Pagetables), g(SecPagetables), g(Bounce), g(KernelMiscReclaimable), g(Free),
      g(FreePcp), g(FreeCma))
  }

  lemma CountRecord(g: PageCounter -> nat, c: PageCounter)
    ensures Count(Record(g), c) == g(c)
  {
  }

  /** The record after one region line, each counter read independently. */
  function WithLine(p: MemInfoPages, line: string): MemInfoPages {
    Record((c: PageCounter) => Pick(line, c, Count(p, c)))
  }

  lemma CountWithLine(p: MemInfoPages, line: string, c: PageCounter)
    ensures Count(WithLine(p, line), c) == Pick(line, c, Count(p, c))
  {
    CountRecord((c: PageCounter) => Pick(line, c, Count(p, c)), c);
  }

  /** The region from line `i` on, when the scan is already inside it. */
  function RegionFrom(lines: seq<string>, i: nat): (r: seq<string>)
    requires i <= |lines|
    ensures forall x :: x in r ==> x in lines[i..]
    ensures forall x :: x in r ==> !Contains(x, MemInfoMarker) && !Contains(x, NodeMarker)
    decreases |lines| - i
  {
    if i == |lines| then []
    else if Contains(lines[i], MemInfoMarker) then RegionFrom(lines, i + 1)
    else if Contains(lines[i], NodeMarker) then []
    else [lines[i]] + RegionFrom(lines, i + 1)
  }

  /** The region, looked for from line `i` on, when the scan has not entered it yet. */
  function SeekFrom(lines: seq<string>, i: nat): (r: seq<string>)
    requires i <= |lines|
    ensures forall x :: x in r ==> x in lines[i..]
    ensures forall x :: x in r ==> !Contains(x, MemInfoMarker) && !Contains(x, NodeMarker)
    ensures (forall k :: i <= k < |lines| ==> !Contains(lines[k], MemInfoMarker)) ==> r == []
    decreases |lines| - i
  {
    if i == |lines| then []
    else if Contains(lines[i], MemInfoMarker) then
      var r := RegionFrom(lines, i + 1);
      assert forall x :: x in lines[i + 1..] ==> x in lines[i..];
      r
    else
      var r := SeekFrom(lines, i + 1);
      assert forall x :: x in lines[i + 1..] ==> x in lines[i..];
      r
  }

  /** The lines the page-counter scan reads. */
  function MemInfoLines(lines: seq<string>): (r: seq<string>)
    ensures forall x :: x in r ==> x in lines && !Contains(x, MemInfoMarker) && !Contains(x, NodeMarker)
    ensures (forall k :: 0 <= k < |lines| ==> !Contains(lines[k], MemInfoMarker)) ==> r == []
  {
    assert lines[0..] == lines;
    SeekFrom(lines, 0)
  }

  /** The counters after reading `region` from the all-zero record. */
  function PagesAfter(region: seq<string>): MemInfoPages {
    if region == [] then NoPages else WithLine(PagesAfter(region[..|region| - 1]), region[|region| - 1])
  }

  /** The page counters `parse` reports. */
  function MemInfoPagesOf(lines: seq<string>): MemInfoPages {
    PagesAfter(MemInfoLines(lines))
  }

  /** `parseMemInfoPages`: one pass that enters the block at `Mem-Info:` and leaves the loop at `Node `. */
  method ParseMemInfoPages(lines: seq<string>) returns (pages: MemInfoPages)
    ensures pages == MemInfoPagesOf(lines)
  {
    pages := NoPages;
    var inMemInfo := false;
    ghost var read: seq<string> := [];
    for i := 0 to |lines|
      invariant !inMemInfo ==> read == [] && pages == NoPages && SeekFrom(lines, i) == MemInfoLines(lines)
      invariant inMemInfo ==> read + RegionFrom(lines, i) == MemInfoLines(lines) && pages == PagesAfter(read)
    {
      var line := lines[i];
      RegionStep(lines, i);
      if Contains(line, MemInfoMarker) {
        inMemInfo := true;
        continue;
      }
      if inMemInfo && Contains(line, NodeMarker) {
        assert read + [] == read;
        break;
      }
      if inMemInfo {
        pages := WithLine(pages, line);
        PagesAfterStep(read, line);
        Regroup(read, line, RegionFrom(lines, i + 1));
        read := read + [line];
      }
    }
    if inMemInfo {
      assert read + [] == read;
    }
  }

  /** How the region functions unfold at one line. */
  lemma RegionStep(lines: seq<string>, i: nat)
    requires i < |lines|
    ensures Contains(lines[i], MemInfoMarker) ==>
      RegionFrom(lines, i) == RegionFrom(lines, i + 1) && SeekFrom(lines, i) == RegionFrom(lines, i + 1)
    ensures !Contains(lines[i], MemInfoMarker) && Contains(lines[i], NodeMarker) ==> RegionFrom(lines, i) == []
    ensures !Contains(lines[i], MemInfoMarker) && !Contains(lines[i], NodeMarker) ==>
      RegionFrom(lines, i) == [lines[i]] + RegionFrom(lines, i + 1)
    ensures !Contains(lines[i], MemInfoMarker) ==> SeekFrom(lines, i) == SeekFrom(lines, i + 1)
  {
  }

  lemma Regroup(read: seq<string>, line: string, rest: seq<string>)
    ensures read + ([line] + rest) == (read + [line]) + rest
  {
  }

  lemma PagesAfterStep(read: seq<string>, line: string)
    ensures PagesAfter(read + [line]) == WithLine(PagesAfter(read), line)
  {
    assert (read + [line])[..|read|] == read;
  }

  /** Each counter holds what the last region line that mentions its label says, and 0 when none does. */
  lemma {:induction false} CountIsLastReading(region: seq<string>, c: PageCounter)
    ensures Count(PagesAfter(region), c) == LastSome(region, PageReadingOf(c)).GetOr(0)
  {
    if region != [] {
      var n := |region| - 1;
      CountIsLastReading(region[..n], c);
      CountStep(region, c);
      LastSomeStep(region, PageReadingOf(c));
      PickLast(region[n], c, LastSome(region[..n], PageReadingOf(c)), Count(PagesAfter(region[..n]), c));
    }
  }

  lemma PickLast(line: string, c: PageCounter, previous: Option<nat>, v: nat)
    requires v == previous.GetOr(0)
    ensures Pick(line, c, v) ==
      (if PageReadingOf(c)(line).Some? then PageReadingOf(c)(line) else previous).GetOr(0)
  {
    assert PageReadingOf(c)(line) == PageReading(line, c);
  }

  lemma CountStep(region: seq<string>, c: PageCounter)
    requires region != []
    ensures Count(PagesAfter(region), c) ==
      Pick(region[|region| - 1], c, Count(PagesAfter(region[..|region| - 1]), c))
  {
    CountWithLine(PagesAfter(region[..|region| - 1]), region[|region| - 1], c);
  }

  /** The same for the whole log. */
  lemma MemInfoCountIsLastReading(lines: seq<string>, c: PageCounter)
    ensures Count(MemInfoPagesOf(lines), c) == LastSome(MemInfoLines(lines), PageReadingOf(c)).GetOr(0)
  {
    CountIsLastReading(MemInfoLines(lines), c);
  }

  /**
   * When the first `Mem-Info:` line is at `a` and the first later line mentioning `Node ` is at
   * `b`, with no other `Mem-Info:` line between, the region is the block strictly between them.
   */
  lemma {:induction false} MemInfoBlock(lines: seq<string>, a: nat, b: nat)
    requires a < b <= |lines|
    requires Contains(lines[a], MemInfoMarker)
    requires forall k :: 0 <= k < a ==> !Contains(lines[k], MemInfoMarker)
    requires forall k :: a < k < b ==> !Contains(lines[k], MemInfoMarker) && !Contains(lines[k], NodeMarker)
    requires b < |lines| ==> !Contains(lines[b], MemInfoMarker) && Contains(lines[b], NodeMarker)
    ensures MemInfoLines(lines) == lines[a + 1..b]
  {
    SeekSkips(lines, 0, a);
    RegionBlock(lines, a + 1, b);
  }

  lemma {:induction false} SeekSkips(lines: seq<string>, i: nat, a: nat)
    requires i <= a < |lines|
    requires forall k :: i <= k < a ==> !Contains(lines[k], MemInfoMarker)
    requires Contains(lines[a], MemInfoMarker)
    ensures SeekFrom(lines, i) == RegionFrom(lines, a + 1)
    decreases a - i
  {
    if i < a {
      SeekSkips(lines, i + 1, a);
    }
  }

  lemma {:induction false} RegionBlock(lines: seq<string>, i: nat, b: nat)
    requires i <= b <= |lines|
    requires forall k :: i <= k < b ==> !Contains(lines[k], MemInfoMarker) && !Contains(lines[k], NodeMarker)
    requires b < |lines| ==> !Contains(lines[b], MemInfoMarker) && Contains(lines[b], NodeMarker)
    ensures RegionFrom(lines, i) == lines[i..b]
    decreases b - i
  {
    if i < b {
      RegionBlock(lines, i + 1, b);
      assert lines[i..b] == [lines[i]] + lines[i + 1..b];
    }
  }

  /**
   * The kernel prints `sec_pagetables:` on a line of its own after the `pagetables:` line, and
   * the unanchored `pagetables:` pattern matches inside it, so that later line overwrites the
   * page-table counter with the secondary one (usually 0).
   */
  lemma SecondaryOverwritesPagetables(n: nat, rest: string)
    requires rest == [] || !IsDigit(rest[0])
    ensures PageReading(" sec_pagetables:" + Decimal(n) + rest, Pagetables) == Some(n)
  {
    var line := " sec_pagetables:" + Decimal(n) + rest;
    SecondaryLayout(line, n, rest);
    SecondaryRead(line, n);
  }

  lemma SecondaryLayout(line: string, n: nat, rest: string)
    requires rest == [] || !IsDigit(rest[0])
    requires line == " sec_pagetables:" + Decimal(n) + rest
    ensures |line| >= 16 + |Decimal(n)|
    ensures line[0] == ' ' && line[1] == 's' && line[2] == 'e' && line[3] == 'c' && line[4] == '_'
    ensures StartsAt(line, 5, "pagetables:") && StartsAt(line, 16, Decimal(n))
    ensures 16 + |Decimal(n)| < |line| ==> !IsDigit(line[16 + |Decimal(n)|])
  {
    var d := |Decimal(n)|;
    assert line[5..16] == "pagetables:";
    assert line[16..16 + d] == Decimal(n);
    assert 16 + d < |line| ==> line[16 + d] == rest[0];
  }

  lemma SecondaryRead(line: string, n: nat)
    requires |line| >= 16 + |Decimal(n)|
    requires line[0] == ' ' && line[1] == 's' && line[2] == 'e' && line[3] == 'c' && line[4] == '_'
    requires StartsAt(line, 5, "pagetables:") && StartsAt(line, 16, Decimal(n))
    requires 16 + |Decimal(n)| < |line| ==> !IsDigit(line[16 + |Decimal(n)|])
    ensures PageReading(line, Pagetables) == Some(n)
  {
    assert TimestampCapture(line).None?;
    NatAtDecimal(line, 16, n);
    assert NatAfterAt(line, 5, "pagetables:") == Some(n);
    NoEarlierPagetables(line);
    FirstNatAfterIs(line, "pagetables:", 5);
    PagetablesReading(line, n);
  }

  lemma NoEarlierPagetables(line: string)
    requires |line| >= 5 && line[0] == ' ' && line[1] == 's' && line[2] == 'e' && line[3] == 'c' && line[4] == '_'
    ensures forall j :: 0 <= j < 5 ==> !StartsAt(line, j, "pagetables:")
  {
    forall j | 0 <= j < 5
      ensures !StartsAt(line, j, "pagetables:")
    {
      assert line[j] != 'p' by {
        if j == 0 {} else if j == 1 {} else if j == 2 {} else if j == 3 {} else {}
      }
      if j + 11 <= |line| {
        assert line[j..j + 11][0] == line[j];
      }
    }
  }

  lemma PagetablesReading(line: string, n: nat)
    requires StripTimestamp(line) == line && FirstNatAfter(line, "pagetables:") == Some(n)
    ensures PageReading(line, Pagetables) == Some(n)
  {
    assert PageLabel(Pagetables) == "pagetables:";
  }
}
