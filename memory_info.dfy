/** The memory section: the eight memory scans run over the same lines, each on its own. */
module MemoryExtractor {
  import opened Scans
  import opened OOMTypes
  import opened MemInfoPagesExtractor
  import opened MemoryZonesExtractor
  import opened BuddyExtractor
  import opened MemoryTotalsExtractor
  import opened LowmemExtractor

  /** The memory record of a log: each part is what its scan makes of all the lines. */
  function MemoryInfoOf(lines: seq<string>): MemoryInfo {
    MemoryInfo(
      MemInfoPagesOf(lines),
      Collect(lines, NodeMemoryOfLine),
      Collect(lines, ZoneOfLine),
      Collect(lines, BuddyOfLine),
      Collect(lines, HugepagesOfLine),
      SwapInfoOf(lines),
      PageCacheInfoOf(lines),
      Collect(lines, LowmemOfLine))
  }

  /** `parseMemoryInfo`: runs the eight scans in turn and assembles their results. */
  method ParseMemoryInfo(lines: seq<string>) returns (m: MemoryInfo)
    ensures m == MemoryInfoOf(lines)
    ensures |m.nodeMemory| <= |lines| && |m.zones| <= |lines| && |m.buddyInfo| <= |lines|
    ensures |m.hugepages| <= |lines| && |m.lowmemReserve| <= |lines|
  {
    var pages := ParseMemInfoPages(lines);
    var nodes := ParseNodeMemory(lines);
    var zones := ParseZones(lines);
    var buddy := ParseBuddyInfo(lines);
    var hugepages := ParseHugepages(lines);
    var swap := ParseSwapInfo(lines);
    var pageCache := ParsePageCacheInfo(lines);
    var lowmem := ParseLowmemReserve(lines);
    m := MemoryInfo(pages, nodes, zones, buddy, hugepages, swap, pageCache, lowmem);
  }
}
