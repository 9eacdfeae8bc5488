/**
 * The per-node rows of the memory report: the node summaries, the zone rows and the huge-page
 * rows, with the node number and zone name patterns the buddy rows share.  Each scanner reads
 * every line on its own and records one entry per line that matches, in line order.
 */
module MemoryZonesExtractor {
  import opened Wrappers
  import opened Chars
  import opened Strings
  import opened Numerals
  import opened Matching
  import opened Fields
  import opened Scans
  import opened OOMTypes

  /** `Node\s+(\d+)` at `i`: the node number and where it ends. */
  function NodeNumberAt(s: string, i: nat): (r: Option<(nat, nat)>)
    ensures r.Some? ==> StartsAt(s, i, "Node") && i + 4 < r.value.1 <= |s|
  {
    if StartsAt(s, i, "Node") then
      match Run1(s, i + 4, IsSpace)
      case None => None
      case Some(q) => NatAt(s, q)
    else None
  }

  // ---------------------------------------------------------------- node summaries

  /** The gate a node summary line must pass before it is read. */
  predicate IsNodeSummaryLine(line: string) {
    Contains(line, "Node ") && Contains(line, "active_anon:") && Contains(line, "kB")
  }

  /** The record a node summary line yields: the first node number, and each field by `extractKB`. */
  function NodeMemoryOfLine(line: string): (r: Option<NodeMemoryKB>)
    ensures r.Some? <==> IsNodeSummaryLine(line) && Leftmost(line, NodeNumberAt).Some?
    ensures r.Some? ==> r.value.node == Leftmost(line, NodeNumberAt).value.0
    ensures r.Some? ==> (r.value.allUnreclaimable <==> Contains(line, "all_unreclaimable? yes"))
    ensures r.Some? ==>
      && r.value.activeAnon == ExtractKB(line, "active_anon")
      && r.value.inactiveAnon == ExtractKB(line, "inactive_anon")
      && r.value.activeFile == ExtractKB(line, "active_file")
      && r.value.inactiveFile == ExtractKB(line, "inactive_file")
      && r.value.unevictable == ExtractKB(line, "unevictable")
      && r.value.isolatedAnon == ExtractKB(line, "isolated(anon)")
      && r.value.isolatedFile == ExtractKB(line, "isolated(file)")
      && r.value.mapped == ExtractKB(line, "mapped")
      && r.value.dirty == ExtractKB(line, "dirty")
      && r.value.writeback == ExtractKB(line, "writeback")
      && r.value.shmem == ExtractKB(line, "shmem")
      && r.value.shmemThp == ExtractKB(line, "shmem_thp")
      && r.value.shmemPmdmapped == ExtractKB(line, "shmem_pmdmapped")
      && r.value.anonThp == ExtractKB(line, "anon_thp")
      && r.value.writebackTmp == ExtractKB(line, "writeback_tmp")
      && r.value.kernelStack == ExtractKB(line, "kernel_stack")
      && r.value.pagetables == ExtractKB(line, "pagetables")
      && r.value.secPagetables == ExtractKB(line, "sec_pagetables")
  {
    if IsNodeSummaryLine(line) then
      var found: Option<(nat, nat)> := Leftmost(line, NodeNumberAt);
      if found.None? then None
      else
        var node := found.value.0;
        Some(NodeMemoryKB(
          node,
          ExtractKB(line, "active_anon"), ExtractKB(line, "inactive_anon"),
          ExtractKB(line, "active_file"), ExtractKB(line, "inactive_file"),
          ExtractKB(line, "unevictable"),
          ExtractKB(line, "isolated(anon)"), ExtractKB(line, "isolated(file)"),
          ExtractKB(line, "mapped"), ExtractKB(line, "dirty"), ExtractKB(line, "writeback"),
          ExtractKB(line, "shmem"), ExtractKB(line, "shmem_thp"), ExtractKB(line, "shmem_pmdmapped"),
          ExtractKB(line, "anon_thp"), ExtractKB(line, "writeback_tmp"), ExtractKB(line, "kernel_stack"),
          ExtractKB(line, "pagetables"), ExtractKB(line, "sec_pagetables"),
          Contains(line, "all_unreclaimable? yes")))
    else None
  }

  /** `parseNodeMemory` */
  method ParseNodeMemory(lines: seq<string>) returns (nodes: seq<NodeMemoryKB>)
    ensures nodes == Collect(lines, NodeMemoryOfLine)
  {
    nodes := CollectEach(lines, NodeMemoryOfLine);
  }

  /** Every node summary comes from a line that passes the gate, and every such line with a node number yields one. */
  lemma {:induction false} NodeMemoryFromSummaryLines(lines: seq<string>)
    ensures forall x :: x in Collect(lines, NodeMemoryOfLine) ==>
      exists k :: 0 <= k < |lines| && IsNodeSummaryLine(lines[k]) && NodeMemoryOfLine(lines[k]) == Some(x)
    ensures forall k :: 0 <= k < |lines| && IsNodeSummaryLine(lines[k]) && Leftmost(lines[k], NodeNumberAt).Some? ==>
      NodeMemoryOfLine(lines[k]).value in Collect(lines, NodeMemoryOfLine)
  {
    forall x | x in Collect(lines, NodeMemoryOfLine)
      ensures exists k :: 0 <= k < |lines| && IsNodeSummaryLine(lines[k]) && NodeMemoryOfLine(lines[k]) == Some(x)
    {
      CollectSound(lines, NodeMemoryOfLine, x);
    }
    forall k | 0 <= k < |lines| && IsNodeSummaryLine(lines[k]) && Leftmost(lines[k], NodeNumberAt).Some?
      ensures NodeMemoryOfLine(lines[k]).value in Collect(lines, NodeMemoryOfLine)
    {
      CollectComplete(lines, NodeMemoryOfLine, k);
    }
  }

  // ---------------------------------------------------------------- zone names

  /** One of the zone spellings the patterns accept. */
  predicate IsZoneName(z: string) { z == "DMA32" || z == "DMA3" || z == "Normal" }

  /**
   * `(DMA32?|Normal)` at `p` followed by what `rest` accepts, with the backtracking order of the
   * alternation: `DMA32` before `DMA3`, and both before `Normal`.
   */
  function ZoneThen<T>(s: string, p: nat, rest: (string, nat) -> Option<T>): (r: Option<(string, T)>)
    ensures r.Some? ==> IsZoneName(r.value.0) && StartsAt(s, p, r.value.0)
    ensures r.Some? ==> rest(s, p + |r.value.0|) == Some(r.value.1)
  {
    if StartsAt(s, p, "DMA32") && rest(s, p + 5).Some? then Some(("DMA32", rest(s, p + 5).value))
    else if StartsAt(s, p, "DMA3") && rest(s, p + 4).Some? then Some(("DMA3", rest(s, p + 4).value))
    else if StartsAt(s, p, "Normal") && rest(s, p + 6).Some? then Some(("Normal", rest(s, p + 6).value))
    else None
  }

  /** A zone spelled plain `DMA` followed by white space is none of the accepted spellings. */
  lemma PlainDmaIsNoZone<T>(s: string, p: nat, rest: (string, nat) -> Option<T>)
    requires p + 3 < |s| && s[p] == 'D' && IsSpace(s[p + 3])
    ensures ZoneThen(s, p, rest).None?
  {
    assert !StartsAt(s, p, "DMA32") && !StartsAt(s, p, "DMA3") by {
      assert s[p + 3] != '3';
    }
    assert !StartsAt(s, p, "Normal") by {
      assert s[p] == 'D';
    }
  }

  // ---------------------------------------------------------------- zone rows

  /** `\s+free:(\d+)kB` at `q` */
  function FreeKBAt(s: string, q: nat): (r: Option<nat>) {
    match Run1(s, q, IsSpace)
    case None => None
    case Some(f) =>
      if StartsAt(s, f, "free:") then
        match NatAt(s, f + 5)
        case None => None
        case Some((v, g)) => if StartsAt(s, g, "kB") then Some(v) else None
      else None
  }

  /** `Node\s+(\d+)\s+(DMA32?|Normal)\s+free:(\d+)kB` at `i`: node, zone and free kB. */
  function ZoneRowAt(s: string, i: nat): (r: Option<(nat, string, nat)>)
    ensures r.Some? ==> IsZoneName(r.value.1)
    ensures r.Some? ==> StartsAt(s, i, "Node")
  {
    match NodeNumberAt(s, i)
    case None => None
    case Some((node, e)) =>
      match Run1(s, e, IsSpace)
      case None => None
      case Some(z) =>
        match ZoneThen(s, z, FreeKBAt)
        case None => None
        case Some((zone, free)) => Some((node, zone, free))
  }

  /** The zone record a line yields. */
  function ZoneOfLine(line: string): (r: Option<ZoneInfo>)
    ensures r.Some? <==> Leftmost(line, ZoneRowAt).Some?
    ensures r.Some? ==> IsZoneName(r.value.zone)
    ensures r.Some? ==> (r.value.node, r.value.zone, r.value.free) == Leftmost(line, ZoneRowAt).value
    ensures r.Some? ==>
      && r.value.boost == ExtractKB(line, "boost")
      && r.value.min == ExtractKB(line, "min")
      && r.value.low == ExtractKB(line, "low")
      && r.value.high == ExtractKB(line, "high")
      && r.value.reservedHighatomic == ExtractKB(line, "reserved_highatomic")
      && r.value.activeAnon == ExtractKB(line, "active_anon")
      && r.value.inactiveAnon == ExtractKB(line, "inactive_anon")
      && r.value.activeFile == ExtractKB(line, "active_file")
      && r.value.inactiveFile == ExtractKB(line, "inactive_file")
      && r.value.unevictable == ExtractKB(line, "unevictable")
      && r.value.writepending == ExtractKB(line, "writepending")
      && r.value.present == ExtractKB(line, "present")
      && r.value.managed == ExtractKB(line, "managed")
      && r.value.mlocked == ExtractKB(line, "mlocked")
      && r.value.bounce == ExtractKB(line, "bounce")
      && r.value.freePcp == ExtractKB(line, "free_pcp")
      && r.value.localPcp == ExtractKB(line, "local_pcp")
      && r.value.freeCma == ExtractKB(line, "free_cma")
  {
    var row := Leftmost(line, ZoneRowAt);
    if row.None? then None
    else
      var (node, zone, free) := row.value;
      Some(ZoneInfo(
        node, zone, free,
        ExtractKB(line, "boost"), ExtractKB(line, "min"), ExtractKB(line, "low"),
        ExtractKB(line, "high"), ExtractKB(line, "reserved_highatomic"),
        ExtractKB(line, "active_anon"), ExtractKB(line, "inactive_anon"),
        ExtractKB(line, "active_file"), ExtractKB(line, "inactive_file"),
        ExtractKB(line, "unevictable"), ExtractKB(line, "writepending"),
        ExtractKB(line, "present"), ExtractKB(line, "managed"),
        ExtractKB(line, "mlocked"), ExtractKB(line, "bounce"),
        ExtractKB(line, "free_pcp"), ExtractKB(line, "local_pcp"), ExtractKB(line, "free_cma")))
  }

  /** `parseZones` */
  method ParseZones(lines: seq<string>) returns (zones: seq<ZoneInfo>)
    ensures zones == Collect(lines, ZoneOfLine)
  {
    zones := CollectEach(lines, ZoneOfLine);
  }

  /** No zone record names plain `DMA`: every record names `DMA32`, `DMA3` or `Normal`. */
  lemma {:induction false} ZonesAreNamed(lines: seq<string>)
    ensures forall z :: z in Collect(lines, ZoneOfLine) ==> IsZoneName(z.zone) && z.zone != "DMA"
  {
    forall z | z in Collect(lines, ZoneOfLine)
      ensures IsZoneName(z.zone)
    {
      CollectSound(lines, ZoneOfLine, z);
    }
  }

  /** A zone row as the kernel prints the plain `DMA` zone is not read at the start of the line. */
  lemma PlainDmaRowRejected(node: nat, rest: string)
    ensures ZoneRowAt("Node " + Decimal(node) + (" DMA free:" + rest), 0).None?
  {
    var s := "Node " + Decimal(node) + (" DMA free:" + rest);
    var e := 5 + |Decimal(node)|;
    NodeNumberPrinted(s, node, " DMA free:" + rest);
    PlainDmaRowFrom(s, node, e, rest);
  }

  lemma PlainDmaRowFrom(s: string, node: nat, e: nat, rest: string)
    requires NodeNumberAt(s, 0) == Some((node, e))
    requires e <= |s| && s[e..] == " DMA free:" + rest
    ensures ZoneRowAt(s, 0).None?
  {
    PlainDmaAfter(s, e, rest);
    ZoneRowRejected(s, node, e, e + 1);
  }

  lemma ZoneRowRejected(s: string, node: nat, e: nat, z: nat)
    requires NodeNumberAt(s, 0) == Some((node, e))
    requires Run1(s, e, IsSpace) == Some(z)
    requires ZoneThen(s, z, FreeKBAt).None?
    ensures ZoneRowAt(s, 0).None?
  {
  }

  /** A line that starts with a printed node number followed by a non-digit reads that number. */
  lemma NodeNumberPrinted(s: string, node: nat, tail: string)
    requires s == "Node " + Decimal(node) + tail
    requires tail != [] && !IsDigit(tail[0])
    ensures NodeNumberAt(s, 0) == Some((node, 5 + |Decimal(node)|))
    ensures s[5 + |Decimal(node)|..] == tail
  {
    var d := |Decimal(node)|;
    assert s[..4] == "Node" && s[4] == ' ' && s[5] == Decimal(node)[0];
    assert s[5..5 + d] == Decimal(node) && s[5 + d] == tail[0];
    SpanEndAt(s, 4, IsSpace, 5);
    NatAtDecimal(s, 5, node);
  }

  /** The plain `DMA` zone after one space: the space is read, and no accepted zone follows it. */
  lemma PlainDmaAfter(s: string, p: nat, rest: string)
    requires p <= |s| && s[p..] == " DMA free:" + rest
    ensures Run1(s, p, IsSpace) == Some(p + 1)
    ensures ZoneThen(s, p + 1, FreeKBAt).None?
  {
    SuffixConcat(s, p, " DMA free:", rest);
    assert s[p] == ' ' && s[p + 1] == 'D' && s[p + 4] == ' ';
    SpanEndAt(s, p, IsSpace, p + 1);
    PlainDmaIsNoZone(s, p + 1, FreeKBAt);
  }

  /** A zone row as the kernel prints it for the `DMA32` and `Normal` zones. */
  lemma ZoneRowPrinted(node: nat, zone: string, free: nat, rest: string)
    requires zone == "DMA32" || zone == "Normal"
    ensures ZoneRowAt("Node " + Decimal(node) + (" " + zone + (" free:" + Decimal(free) + ("kB" + rest))), 0) ==
      Some((node, zone, free))
  {
    var tail := " " + zone + (" free:" + Decimal(free) + ("kB" + rest));
    var s := "Node " + Decimal(node) + tail;
    var e := 5 + |Decimal(node)|;
    SpaceFirst(zone, " free:" + Decimal(free) + ("kB" + rest));
    NodeNumberPrinted(s, node, tail);
    ZoneRowFrom(s, node, e, zone, free, rest);
  }

  lemma SpaceFirst(a: string, b: string)
    ensures " " + a + b != [] && (" " + a + b)[0] == ' '
  {
  }

  lemma ZoneRowFrom(s: string, node: nat, e: nat, zone: string, free: nat, rest: string)
    requires zone == "DMA32" || zone == "Normal"
    requires NodeNumberAt(s, 0) == Some((node, e))
    requires e <= |s| && s[e..] == " " + zone + (" free:" + Decimal(free) + ("kB" + rest))
    ensures ZoneRowAt(s, 0) == Some((node, zone, free))
  {
    ZoneAfter(s, e, zone, free, rest);
    ZoneRowAccepted(s, node, e, e + 1, zone, free);
  }

  lemma ZoneRowAccepted(s: string, node: nat, e: nat, z: nat, zone: string, free: nat)
    requires NodeNumberAt(s, 0) == Some((node, e))
    requires Run1(s, e, IsSpace) == Some(z)
    requires ZoneThen(s, z, FreeKBAt) == Some((zone, free))
    ensures ZoneRowAt(s, 0) == Some((node, zone, free))
  {
  }

  /** One space, an accepted zone name and the free figure are read as printed. */
  lemma ZoneAfter(s: string, p: nat, zone: string, free: nat, rest: string)
    requires zone == "DMA32" || zone == "Normal"
    requires p <= |s| && s[p..] == " " + zone + (" free:" + Decimal(free) + ("kB" + rest))
    ensures Run1(s, p, IsSpace) == Some(p + 1)
    ensures ZoneThen(s, p + 1, FreeKBAt) == Some((zone, free))
  {
    var q := p + 1 + |zone|;
    SuffixConcat(s, p, " " + zone, " free:" + Decimal(free) + ("kB" + rest));
    StartsAtConcat(s, p, " ", zone);
    assert s[p] == ' ' by { assert s[p..p + 1] == " "; }
    FreeAfter(s, q, free, rest);
    ZoneRead(s, p, zone, FreeKBAt, free);
  }

  /** One space and an accepted zone name, followed by what `rest` reads. */
  lemma ZoneRead<T>(s: string, p: nat, zone: string, rest: (string, nat) -> Option<T>, v: T)
    requires zone == "DMA32" || zone == "Normal"
    requires p < |s| && s[p] == ' ' && StartsAt(s, p + 1, zone)
    requires rest(s, p + 1 + |zone|) == Some(v)
    ensures Run1(s, p, IsSpace) == Some(p + 1)
    ensures ZoneThen(s, p + 1, rest) == Some((zone, v))
  {
    assert s[p + 1] == zone[0];
    SpanEndAt(s, p, IsSpace, p + 1);
    if zone == "Normal" {
      assert !StartsAt(s, p + 1, "DMA32") && !StartsAt(s, p + 1, "DMA3");
    }
  }

  /** ` free:<n>kB` is read as `n`. */
  lemma FreeAfter(s: string, q: nat, free: nat, rest: string)
    requires q <= |s| && s[q..] == " free:" + Decimal(free) + ("kB" + rest)
    ensures FreeKBAt(s, q) == Some(free)
  {
    var d := |Decimal(free)|;
    SuffixConcat(s, q, " free:" + Decimal(free), "kB" + rest);
    StartsAtConcat(s, q, " free:", Decimal(free));
    SuffixConcat(s, q + 6 + d, "kB", rest);
    StartsAtConcat(s, q, " ", "free:");
    assert s[q] == ' ' by { assert s[q..q + 1] == " "; }
    FreeRead(s, q, free);
  }

  lemma FreeRead(s: string, q: nat, free: nat)
    requires q < |s| && s[q] == ' ' && StartsAt(s, q + 1, "free:") && StartsAt(s, q + 6, Decimal(free))
    requires StartsAt(s, q + 6 + |Decimal(free)|, "kB")
    ensures FreeKBAt(s, q) == Some(free)
  {
    FreePieces(s, q, free);
    FreeKBParts(s, q, q + 1, free, q + 6 + |Decimal(free)|);
  }

  lemma FreePieces(s: string, q: nat, free: nat)
    requires q < |s| && s[q] == ' ' && StartsAt(s, q + 1, "free:") && StartsAt(s, q + 6, Decimal(free))
    requires StartsAt(s, q + 6 + |Decimal(free)|, "kB")
    ensures Run1(s, q, IsSpace) == Some(q + 1)
    ensures NatAt(s, q + 6) == Some((free, q + 6 + |Decimal(free)|))
  {
    StartsAtHead(s, q + 1, "free:");
    OneSpace(s, q);
    DecimalThenKB(s, q + 6, free);
  }

  /** A printed number followed by `kB` reads back as that number. */
  lemma DecimalThenKB(s: string, p: nat, n: nat)
    requires StartsAt(s, p, Decimal(n)) && StartsAt(s, p + |Decimal(n)|, "kB")
    ensures NatAt(s, p) == Some((n, p + |Decimal(n)|))
  {
    StartsAtHead(s, p + |Decimal(n)|, "kB");
    NatAtDecimal(s, p, n);
  }

  /** The free-figure pattern read part by part. */
  lemma FreeKBParts(s: string, q: nat, f: nat, v: nat, g: nat)
    requires Run1(s, q, IsSpace) == Some(f) && StartsAt(s, f, "free:")
    requires NatAt(s, f + 5) == Some((v, g)) && StartsAt(s, g, "kB")
    ensures FreeKBAt(s, q) == Some(v)
  {
  }

  // ---------------------------------------------------------------- huge pages

  /** `\s+key(\d+)` at `q`: the value and where it ends. */
  function SpacedNatAfter(s: string, q: nat, key: string): (r: Option<(nat, nat)>)
    ensures r.Some? ==> q < r.value.1 <= |s|
  {
    match Run1(s, q, IsSpace)
    case None => None
    case Some(f) => if StartsAt(s, f, key) then NatAt(s, f + |key|) else None
  }

  /** `\s+hugepages_surp=(\d+)\s+hugepages_size=(\d+)kB` at `q` */
  function SurpSizeAt(s: string, q: nat): (r: Option<(nat, nat)>) {
    match SpacedNatAfter(s, q, "hugepages_surp=")
    case None => None
    case Some((surp, e)) =>
      match SpacedNatAfter(s, e, "hugepages_size=")
      case None => None
      case Some((size, f)) => if StartsAt(s, f, "kB") then Some((surp, size)) else None
  }

  /** `Node\s+(\d+)\s+hugepages_total=(\d+)\s+hugepages_free=(\d+)\s+hugepages_surp=(\d+)\s+hugepages_size=(\d+)kB` at `i` */
  function HugepagesAt(s: string, i: nat): (r: Option<HugepagesInfo>)
    ensures r.Some? ==> StartsAt(s, i, "Node")
  {
    match NodeNumberAt(s, i)
    case None => None
    case Some((node, e)) =>
      match SpacedNatAfter(s, e, "hugepages_total=")
      case None => None
      case Some((total, f)) =>
        match SpacedNatAfter(s, f, "hugepages_free=")
        case None => None
        case Some((free, g)) =>
          match SurpSizeAt(s, g)
          case None => None
          case Some((surp, size)) => Some(HugepagesInfo(node, size, total, free, surp))
  }

  function HugepagesOfLine(line: string): (r: Option<HugepagesInfo>)
    ensures r.Some? ==> Contains(line, "Node")
  {
    LeftmostNeedsLabel(line, HugepagesAt, "Node");
    Leftmost(line, HugepagesAt)
  }

  /** `parseHugepages` */
  method ParseHugepages(lines: seq<string>) returns (hugepages: seq<HugepagesInfo>)
    ensures hugepages == Collect(lines, HugepagesOfLine)
  {
    hugepages := CollectEach(lines, HugepagesOfLine);
  }

  /** A field printed as one space, its key and its value, followed by `tail`. */
  function SpacedField(key: string, n: nat, tail: string): (r: string)
    ensures r != [] && r[0] == ' '
  {
    " " + key + Decimal(n) + tail
  }

  /** A huge-page row as the kernel prints it, followed by `rest`. */
  function HugepagesText(x: HugepagesInfo, rest: string): string {
    "Node " + Decimal(x.node) +
      SpacedField("hugepages_total=", x.total,
        SpacedField("hugepages_free=", x.free,
          SpacedField("hugepages_surp=", x.surp,
            SpacedField("hugepages_size=", x.size, "kB" + rest))))
  }

  /** A printed huge-page row is read back as the record it was printed from. */
  lemma HugepagesRoundTrip(x: HugepagesInfo, rest: string)
    ensures HugepagesOfLine(HugepagesText(x, rest)) == Some(x)
  {
    var s := HugepagesText(x, rest);
    var e, f, g := HugepagesHead(s, x, rest);
    var h, k := HugepagesTail(s, g, x, rest);
    HugepagesAtParts(s, x, e, f, g, h, k);
    HugepagesLineRead(s, x);
  }

  /** The node number, total and free figures of a printed huge-page row. */
  lemma HugepagesHead(s: string, x: HugepagesInfo, rest: string) returns (e: nat, f: nat, g: nat)
    requires s == HugepagesText(x, rest)
    ensures NodeNumberAt(s, 0) == Some((x.node, e))
    ensures SpacedNatAfter(s, e, "hugepages_total=") == Some((x.total, f))
    ensures SpacedNatAfter(s, f, "hugepages_free=") == Some((x.free, g))
    ensures g <= |s| && s[g..] == SpacedField("hugepages_surp=", x.surp, SpacedField("hugepages_size=", x.size, "kB" + rest))
  {
    var t2 := SpacedField("hugepages_surp=", x.surp, SpacedField("hugepages_size=", x.size, "kB" + rest));
    var t1 := SpacedField("hugepages_free=", x.free, t2);
    var t0 := SpacedField("hugepages_total=", x.total, t1);
    e := 5 + |Decimal(x.node)|;
    NodeNumberPrinted(s, x.node, t0);
    f := SpacedFieldPrinted(s, e, "hugepages_total=", x.total, t1);
    g := SpacedFieldPrinted(s, f, "hugepages_free=", x.free, t2);
  }

  /** The surplus and size figures of a printed huge-page row, and the unit after them. */
  lemma HugepagesTail(s: string, g: nat, x: HugepagesInfo, rest: string) returns (h: nat, k: nat)
    requires g <= |s| && s[g..] == SpacedField("hugepages_surp=", x.surp, SpacedField("hugepages_size=", x.size, "kB" + rest))
    ensures SpacedNatAfter(s, g, "hugepages_surp=") == Some((x.surp, h))
    ensures SpacedNatAfter(s, h, "hugepages_size=") == Some((x.size, k)) && StartsAt(s, k, "kB")
  {
    h := SpacedFieldPrinted(s, g, "hugepages_surp=", x.surp, SpacedField("hugepages_size=", x.size, "kB" + rest));
    k := SpacedFieldPrinted(s, h, "hugepages_size=", x.size, "kB" + rest);
    SuffixConcat(s, k, "kB", rest);
  }

  lemma HugepagesLineRead(s: string, x: HugepagesInfo)
    requires HugepagesAt(s, 0) == Some(x)
    ensures HugepagesOfLine(s) == Some(x)
  {
    LeftmostAt(s, HugepagesAt, 0);
  }

  /** The huge-page pattern read field by field. */
  lemma HugepagesAtParts(s: string, x: HugepagesInfo, e: nat, f: nat, g: nat, h: nat, k: nat)
    requires NodeNumberAt(s, 0) == Some((x.node, e))
    requires SpacedNatAfter(s, e, "hugepages_total=") == Some((x.total, f))
    requires SpacedNatAfter(s, f, "hugepages_free=") == Some((x.free, g))
    requires SpacedNatAfter(s, g, "hugepages_surp=") == Some((x.surp, h))
    requires SpacedNatAfter(s, h, "hugepages_size=") == Some((x.size, k)) && StartsAt(s, k, "kB")
    ensures HugepagesAt(s, 0) == Some(x)
  {
    SurpSizeParts(s, g, x.surp, h, x.size, k);
    HugepagesHeadParts(s, x, e, f, g);
  }

  lemma SurpSizeParts(s: string, g: nat, surp: nat, h: nat, size: nat, k: nat)
    requires SpacedNatAfter(s, g, "hugepages_surp=") == Some((surp, h))
    requires SpacedNatAfter(s, h, "hugepages_size=") == Some((size, k)) && StartsAt(s, k, "kB")
    ensures SurpSizeAt(s, g) == Some((surp, size))
  {
  }

  lemma HugepagesHeadParts(s: string, x: HugepagesInfo, e: nat, f: nat, g: nat)
    requires NodeNumberAt(s, 0) == Some((x.node, e))
    requires SpacedNatAfter(s, e, "hugepages_total=") == Some((x.total, f))
    requires SpacedNatAfter(s, f, "hugepages_free=") == Some((x.free, g))
    requires SurpSizeAt(s, g) == Some((x.surp, x.size))
    ensures HugepagesAt(s, 0) == Some(x)
  {
  }

  /** A spaced field is read as printed, and what follows it is `tail`; returns where it ends. */
  lemma SpacedFieldPrinted(s: string, q: nat, key: string, n: nat, tail: string) returns (e: nat)
    requires key != [] && !IsSpace(key[0])
    requires tail != [] && !IsDigit(tail[0])
    requires q <= |s| && s[q..] == SpacedField(key, n, tail)
    ensures e == q + 1 + |key| + |Decimal(n)|
    ensures SpacedNatAfter(s, q, key) == Some((n, e))
    ensures e <= |s| && s[e..] == tail
  {
    e := q + 1 + |key| + |Decimal(n)|;
    SuffixConcat(s, q, " " + key + Decimal(n), tail);
    StartsAtConcat(s, q, " " + key, Decimal(n));
    StartsAtConcat(s, q, " ", key);
    assert s[q] == ' ' by { assert s[q..q + 1] == " "; }
    assert e < |s| && s[e] == tail[0];
    SpacedNatRead(s, q, key, n);
  }

  /** `\s+key(n)` printed with one space reads back as `n`. */
  lemma SpacedNatRead(s: string, q: nat, key: string, n: nat)
    requires key != [] && !IsSpace(key[0])
    requires q < |s| && s[q] == ' ' && StartsAt(s, q + 1, key) && StartsAt(s, q + 1 + |key|, Decimal(n))
    requires q + 1 + |key| + |Decimal(n)| < |s| ==> !IsDigit(s[q + 1 + |key| + |Decimal(n)|])
    ensures SpacedNatAfter(s, q, key) == Some((n, q + 1 + |key| + |Decimal(n)|))
  {
    SingleSpaceRun(s, q, key);
    NatAtDecimal(s, q + 1 + |key|, n);
    SpacedNatParts(s, q, key, n);
  }

  /** One space followed by a key that does not start with white space is a run of length one. */
  lemma SingleSpaceRun(s: string, q: nat, key: string)
    requires key != [] && !IsSpace(key[0])
    requires q < |s| && s[q] == ' ' && StartsAt(s, q + 1, key)
    ensures Run1(s, q, IsSpace) == Some(q + 1)
  {
    assert s[q + 1] == key[0];
    SpanEndAt(s, q, IsSpace, q + 1);
  }

  lemma SpacedNatParts(s: string, q: nat, key: string, n: nat)
    requires Run1(s, q, IsSpace) == Some(q + 1) && StartsAt(s, q + 1, key)
    requires NatAt(s, q + 1 + |key|) == Some((n, q + 1 + |key| + |Decimal(n)|))
    ensures SpacedNatAfter(s, q, key) == Some((n, q + 1 + |key| + |Decimal(n)|))
  {
  }
}
