/**
 * The banner line (`CPU: 7 PID: 1 Comm: postmaster Kdump: loaded Not tainted 5.14.0 #1`) and
 * the hardware line (`Hardware name: vendor, model/platform, BIOS version date`).  This extractor
 * never raises a diagnostic: a missing line leaves its fields at the default.
 */
module SystemInfoExtractor {
  import opened Wrappers
  import opened Chars
  import opened Strings
  import opened Matching
  import opened Fields
  import opened OOMTypes
  import opened Numerals

  const CpuAnchor := "CPU:"
  const HardwareAnchor := "Hardware name:"

  /** `\s+(\S+)` at `p` */
  function SpacedToken(s: string, p: nat): (r: Option<string>)
    ensures r.Some? ==> p < |s| && IsSpace(s[p])
    ensures r.Some? ==> |r.value| > 0 && forall k :: 0 <= k < |r.value| ==> !IsSpace(r.value[k])
  {
    match Run1(s, p, IsSpace)
    case None => None
    case Some(q) =>
      match Run1(s, q, IsNonSpace)
      case None => None
      case Some(e) =>
        assert forall k :: 0 <= k < e - q ==> s[q..e][k] == s[q + k];
        Some(s[q..e])
  }

  /** `(?:tainted|Not tainted)\s+(\S+)` at `i`: the first alternative is tried first. */
  function KernelVersionAt(s: string, i: nat): (r: Option<string>)
    ensures r.Some? ==> StartsAt(s, i, "tainted") || StartsAt(s, i, "Not tainted")
    ensures r.Some? ==> StartsAt(s, i, "tainted") || StartsAt(s, i + 4, "tainted")
    ensures r.Some? ==> |r.value| > 0 && forall k :: 0 <= k < |r.value| ==> !IsSpace(r.value[k])
  {
    var first := if StartsAt(s, i, "tainted") then SpacedToken(s, i + 7) else None;
    if first.Some? then first
    else if StartsAt(s, i, "Not tainted") then
      assert "Not tainted" == "Not " + "tainted";
      StartsAtConcat(s, i, "Not ", "tainted");
      SpacedToken(s, i + 11)
    else None
  }

  /** The leftmost kernel-version match; both alternatives contain `tainted`. */
  function FirstKernelVersion(line: string): (r: Option<string>)
    ensures r.Some? ==> Contains(line, "tainted")
    ensures r.Some? ==> |r.value| > 0 && forall k :: 0 <= k < |r.value| ==> !IsSpace(r.value[k])
  {
    var r := Leftmost(line, KernelVersionAt);
    if r.Some? then
      var k :| 0 <= k <= |line| && KernelVersionAt(line, k) == r;
      assert StartsAt(line, k, "tainted") || StartsAt(line, k + 4, "tainted");
      r
    else r
  }

  /** The banner fields of a system-info record, mined from the banner line. */
  function MineBanner(line: string): (info: SystemInfo)
    ensures info.tainted <==> !Contains(line, "Not tainted")
    ensures !Contains(line, "CPU:") ==> info.cpu == 0
    ensures !Contains(line, "PID:") ==> info.pid == 0
    ensures !Contains(line, "Comm:") ==> info.comm == ""
    ensures !Contains(line, "Kdump:") ==> info.kdump == ""
    ensures forall k :: 0 <= k < |info.comm| ==> !IsSpace(info.comm[k])
    ensures forall k :: 0 <= k < |info.kdump| ==> !IsSpace(info.kdump[k])
    ensures forall k :: 0 <= k < |info.kernelVersion| ==> !IsSpace(info.kernelVersion[k])
    ensures !Contains(line, "tainted") ==> info.kernelVersion == ""
    ensures info.hardwareVendor == "" && info.hardwareModel == "" && info.hardwarePlatform == "" && info.bios == ""
  {
    DefaultSystemInfo.(
      cpu := FirstNatAfterSpaces(line, "CPU:").GetOr(0),
      pid := FirstNatAfterSpaces(line, "PID:").GetOr(0),
      comm := FirstTokenAfterSpaces(line, "Comm:").GetOr(""),
      kdump := FirstTokenAfterSpaces(line, "Kdump:").GetOr(""),
      tainted := !Contains(line, "Not tainted"),
      kernelVersion := FirstKernelVersion(line).GetOr(""))
  }

  /** `\s*([^c]+)c` at `p`: the group, which stops at the first `c`, and that `c` must follow. */
  function SpacedGroupBefore(s: string, p: nat, c: char): (r: Option<(string, nat)>)
    requires p <= |s|
    ensures r.Some? ==> |r.value.0| > 0 && c !in r.value.0
    ensures r.Some? ==> p < r.value.1 < |s| && s[r.value.1] == c
  {
    match SpacesThenRun(s, p, Except(c))
    case None => None
    case Some((k, e)) =>
      if e < |s| then
        assert forall j :: 0 <= j < e - k ==> s[k..e][j] == s[k + j];
        Some((s[k..e], e))
      else None
  }

  /** `,\s*BIOS\s*(.+)$` at `c`: the BIOS text, running to the end of the line. */
  function BiosAt(s: string, c: nat): (r: Option<string>)
    ensures r.Some? ==> |r.value| > 0 && forall k :: 0 <= k < |r.value| ==> !IsLineTerminator(r.value[k])
  {
    if c < |s| && s[c] == ',' then
      var b := Run0(s, c + 1, IsSpace);
      if StartsAt(s, b, "BIOS") then RestToEnd(s, b + 4) else None
    else None
  }

  /** `([^,]+),\s*BIOS\s*(.+)$` at `p`: platform and BIOS text. */
  function PlatformBiosAt(s: string, p: nat): (r: Option<(string, string)>)
    ensures r.Some? ==> |r.value.0| > 0 && ',' !in r.value.0
    ensures r.Some? ==> |r.value.1| > 0 && forall k :: 0 <= k < |r.value.1| ==> !IsLineTerminator(r.value.1[k])
  {
    match Run1(s, p, Except(','))
    case None => None
    case Some(comma) =>
      var platform := s[p..comma];
      assert forall k :: 0 <= k < |platform| ==> platform[k] == s[p + k];
      match BiosAt(s, comma)
      case None => None
      case Some(bios) => Some((platform, bios))
  }

  /** `\s*([^/]+)\/([^,]+),\s*BIOS\s*(.+)$` at `p`: model, platform and BIOS text. */
  function ModelPlatformBiosAt(s: string, p: nat): (r: Option<(string, string, string)>)
    requires p <= |s|
    ensures r.Some? ==> |r.value.0| > 0 && '/' !in r.value.0
    ensures r.Some? ==> |r.value.1| > 0 && ',' !in r.value.1
    ensures r.Some? ==> |r.value.2| > 0 && forall k :: 0 <= k < |r.value.2| ==> !IsLineTerminator(r.value.2[k])
  {
    PlatformAfterModel(s, SpacedGroupBefore(s, p, '/'))
  }

  /** `\/([^,]+),\s*BIOS\s*(.+)$` after the model group, when there is one. */
  function PlatformAfterModel(s: string, model: Option<(string, nat)>): (r: Option<(string, string, string)>)
    requires model.Some? ==> |model.value.0| > 0 && '/' !in model.value.0
    ensures r.Some? ==> model.Some? && r.value.0 == model.value.0
    ensures r.Some? ==> |r.value.1| > 0 && ',' !in r.value.1
    ensures r.Some? ==> |r.value.2| > 0 && forall k :: 0 <= k < |r.value.2| ==> !IsLineTerminator(r.value.2[k])
  {
    match model
    case None => None
    case Some((group, slash)) =>
      match PlatformBiosAt(s, slash + 1)
      case None => None
      case Some((platform, bios)) => Some((group, platform, bios))
  }

  /**
   * `Hardware name:\s*([^,]+),\s*([^/]+)\/([^,]+),\s*BIOS\s*(.+)$` at `i`: the four raw captures.
   * The vendor ends at the first comma, the model at the first slash after it (so it may hold
   * commas), the platform at the next comma, and the BIOS text runs to the end of the line.
   */
  function HardwareAt(s: string, i: nat): (r: Option<(string, string, string, string)>)
    ensures r.Some? ==> StartsAt(s, i, HardwareAnchor)
    ensures r.Some? ==> |r.value.0| > 0 && ',' !in r.value.0
    ensures r.Some? ==> |r.value.1| > 0 && '/' !in r.value.1
    ensures r.Some? ==> |r.value.2| > 0 && ',' !in r.value.2
    ensures r.Some? ==> |r.value.3| > 0 && forall k :: 0 <= k < |r.value.3| ==> !IsLineTerminator(r.value.3[k])
  {
    if StartsAt(s, i, HardwareAnchor) then
      match SpacedGroupBefore(s, i + |HardwareAnchor|, ',')
      case None => None
      case Some((vendor, comma)) =>
        match ModelPlatformBiosAt(s, comma + 1)
        case None => None
        case Some((model, platform, bios)) => Some((vendor, model, platform, bios))
    else None
  }

  /** The hardware fields, trimmed, filled in on a record. */
  function WithHardware(info: SystemInfo, hwLine: string): (r: SystemInfo)
    ensures r.(hardwareVendor := "", hardwareModel := "", hardwarePlatform := "", bios := "") ==
      info.(hardwareVendor := "", hardwareModel := "", hardwarePlatform := "", bios := "")
    ensures Leftmost(hwLine, HardwareAt).None? ==> r == info
    ensures Leftmost(hwLine, HardwareAt).Some? ==>
      ',' !in r.hardwareVendor && '/' !in r.hardwareModel && ',' !in r.hardwarePlatform
  {
    var hw: Option<(string, string, string, string)> := Leftmost(hwLine, HardwareAt);
    if hw.None? then info
    else
      var (vendor, model, platform, bios) := hw.value;
      NotInTrim(vendor, ',');
      NotInTrim(model, '/');
      NotInTrim(platform, ',');
      info.(hardwareVendor := Trim(vendor), hardwareModel := Trim(model),
            hardwarePlatform := Trim(platform), bios := Trim(bios))
  }

  /** The system-info record `parse` reports. */
  function SystemInfoOf(lines: seq<string>): (info: SystemInfo)
    ensures FindLineContaining(lines, CpuAnchor).None? ==>
      info.cpu == 0 && info.pid == 0 && info.comm == "" && info.kdump == "" && !info.tainted && info.kernelVersion == ""
    ensures FindLineContaining(lines, CpuAnchor).Some? ==>
      (info.tainted <==> !Contains(FindLineContaining(lines, CpuAnchor).value, "Not tainted"))
    ensures FindLineContaining(lines, HardwareAnchor).None? ==>
      info.hardwareVendor == "" && info.hardwareModel == "" && info.hardwarePlatform == "" && info.bios == ""
    ensures forall k: nat :: IsFirstLineWith(lines, CpuAnchor, k) ==>
      info.(hardwareVendor := "", hardwareModel := "", hardwarePlatform := "", bios := "") == MineBanner(lines[k])
    ensures forall k: nat :: IsFirstLineWith(lines, HardwareAnchor, k) ==>
      info == WithHardware(info.(hardwareVendor := "", hardwareModel := "", hardwarePlatform := "", bios := ""), lines[k])
  {
    FindLineContainingIs(lines, CpuAnchor);
    FindLineContainingIs(lines, HardwareAnchor);
    var banner := match FindLineContaining(lines, CpuAnchor)
      case None => DefaultSystemInfo
      case Some(line) => MineBanner(line);
    match FindLineContaining(lines, HardwareAnchor)
    case None => banner
    case Some(hwLine) => WithHardware(banner, hwLine)
  }

  /** `parseSystemInfo`: the default record, with each field overwritten when its pattern matches. */
  method ParseSystemInfo(lines: seq<string>) returns (info: SystemInfo)
    ensures info == SystemInfoOf(lines)
  {
    info := DefaultSystemInfo;
    var cpuLine := FindLineContaining(lines, CpuAnchor);
    if cpuLine.Some? {
      info := ParseBanner(cpuLine.value);
    }
    ghost var banner := info;
    var hwLine := FindLineContaining(lines, HardwareAnchor);
    if hwLine.Some? {
      info := ParseHardware(info, hwLine.value);
    }
    SystemInfoParts(lines, banner, info);
  }

  /** The first half of `parseSystemInfo`: the fields read from the banner line. */
  method ParseBanner(line: string) returns (info: SystemInfo)
    ensures info == MineBanner(line)
  {
    info := DefaultSystemInfo;
    var cpuMatch := FirstNatAfterSpaces(line, "CPU:");
    if cpuMatch.Some? {
      info := info.(cpu := cpuMatch.value);
    }
    var pidMatch := FirstNatAfterSpaces(line, "PID:");
    if pidMatch.Some? {
      info := info.(pid := pidMatch.value);
    }
    var commMatch := FirstTokenAfterSpaces(line, "Comm:");
    if commMatch.Some? {
      info := info.(comm := commMatch.value);
    }
    var kdumpMatch := FirstTokenAfterSpaces(line, "Kdump:");
    if kdumpMatch.Some? {
      info := info.(kdump := kdumpMatch.value);
    }
    info := info.(tainted := !Contains(line, "Not tainted"));
    var kernelMatch := FirstKernelVersion(line);
    if kernelMatch.Some? {
      info := info.(kernelVersion := kernelMatch.value);
    }
  }

  /** The second half of `parseSystemInfo`: the hardware fields, when the hardware line matches. */
  method ParseHardware(banner: SystemInfo, hwLine: string) returns (info: SystemInfo)
    ensures info == WithHardware(banner, hwLine)
  {
    info := banner;
    var hwMatch: Option<(string, string, string, string)> := Leftmost(hwLine, HardwareAt);
    if hwMatch.Some? {
      var (vendor, model, platform, bios) := hwMatch.value;
      info := info.(hardwareVendor := Trim(vendor), hardwareModel := Trim(model),
                    hardwarePlatform := Trim(platform), bios := Trim(bios));
    }
  }

  /** The record of a log from its banner part and its hardware part. */
  lemma SystemInfoParts(lines: seq<string>, banner: SystemInfo, info: SystemInfo)
    requires FindLineContaining(lines, CpuAnchor).None? ==> banner == DefaultSystemInfo
    requires FindLineContaining(lines, CpuAnchor).Some? ==> banner == MineBanner(FindLineContaining(lines, CpuAnchor).value)
    requires FindLineContaining(lines, HardwareAnchor).None? ==> info == banner
    requires FindLineContaining(lines, HardwareAnchor).Some? ==>
      info == WithHardware(banner, FindLineContaining(lines, HardwareAnchor).value)
    ensures info == SystemInfoOf(lines)
  {
  }

  /** The hardware line as the kernel prints it. */
  function HardwareLine(vendor: string, model: string, platform: string, bios: string): string {
    HardwareAnchor + " " + vendor + ", " + model + "/" + platform + ", BIOS " + bios
  }

  predicate NoLineTerminator(t: string) { forall k :: 0 <= k < |t| ==> !IsLineTerminator(t[k]) }

  /**
   * The hardware line of a record reads back, trimmed, into the hardware fields: the vendor is
   * ended by its comma, the model by its slash, the platform by the comma before `BIOS`.
   */
  lemma HardwareLineRoundTrip(info: SystemInfo, vendor: string, model: string, platform: string, bios: string)
    requires vendor != "" && !IsSpace(vendor[0]) && ',' !in vendor
    requires model != "" && !IsSpace(model[0]) && '/' !in model
    requires platform != "" && ',' !in platform
    requires bios != "" && !IsSpace(bios[0]) && NoLineTerminator(bios)
    ensures WithHardware(info, HardwareLine(vendor, model, platform, bios)) ==
      info.(hardwareVendor := Trim(vendor), hardwareModel := Trim(model),
            hardwarePlatform := Trim(platform), bios := Trim(bios))
  {
    HardwareAtPrinted(vendor, model, platform, bios);
    LeftmostAt(HardwareLine(vendor, model, platform, bios), HardwareAt, 0);
  }

  lemma HardwareAtPrinted(vendor: string, model: string, platform: string, bios: string)
    requires vendor != "" && !IsSpace(vendor[0]) && ',' !in vendor
    requires model != "" && !IsSpace(model[0]) && '/' !in model
    requires platform != "" && ',' !in platform
    requires bios != "" && !IsSpace(bios[0]) && NoLineTerminator(bios)
    ensures HardwareAt(HardwareLine(vendor, model, platform, bios), 0) == Some((vendor, model, platform, bios))
  {
    var s := HardwareLine(vendor, model, platform, bios);
    var tail := platform + ", BIOS " + bios;
    var afterVendor := [' '] + model + (['/'] + tail);
    assert s == HardwareAnchor + ([' '] + vendor + ([','] + afterVendor));
    assert s[..|HardwareAnchor|] == HardwareAnchor;
    assert s[|HardwareAnchor|..] == [' '] + vendor + ([','] + afterVendor);
    var comma := GroupSuffix(s, |HardwareAnchor|, ',', vendor, afterVendor);
    ModelPlatformBiosPrinted(s, comma + 1, model, platform, bios);
    assert StartsAt(s, 0, HardwareAnchor);
  }

  lemma {:induction false} ModelPlatformBiosPrinted(s: string, q: nat, model: string, platform: string, bios: string)
    requires q <= |s| && s[q..] == [' '] + model + (['/'] + (platform + ", BIOS " + bios))
    requires model != "" && !IsSpace(model[0]) && '/' !in model
    requires platform != "" && ',' !in platform
    requires bios != "" && !IsSpace(bios[0]) && NoLineTerminator(bios)
    ensures ModelPlatformBiosAt(s, q) == Some((model, platform, bios))
  {
    var slash := GroupSuffix(s, q, '/', model, platform + ", BIOS " + bios);
    PlatformAfterSlash(s, slash, model, platform, bios);
    ModelPlatformBiosParts(s, q, slash, model);
  }

  lemma {:induction false} PlatformAfterSlash(s: string, slash: nat, model: string, platform: string, bios: string)
    requires slash < |s| && s[slash + 1..] == platform + ", BIOS " + bios
    requires model != "" && '/' !in model
    requires platform != "" && ',' !in platform
    requires bios != "" && !IsSpace(bios[0]) && NoLineTerminator(bios)
    ensures PlatformAfterModel(s, Some((model, slash))) == Some((model, platform, bios))
  {
    PlatformBiosPrinted(s, slash + 1, platform, bios);
    PlatformAfterModelPrinted(s, slash, model, platform, bios);
  }

  lemma {:induction false} ModelPlatformBiosParts(s: string, q: nat, slash: nat, model: string)
    requires q <= |s| && SpacedGroupBefore(s, q, '/') == Some((model, slash))
    ensures ModelPlatformBiosAt(s, q) == PlatformAfterModel(s, Some((model, slash)))
  {
  }

  lemma {:induction false} PlatformAfterModelPrinted(s: string, slash: nat, model: string, platform: string, bios: string)
    requires |model| > 0 && '/' !in model
    requires PlatformBiosAt(s, slash + 1) == Some((platform, bios))
    ensures PlatformAfterModel(s, Some((model, slash))) == Some((model, platform, bios))
  {
  }

  /** `\s*([^c]+)c` over one space, a group without `c`, and `c` at `e`; the rest of the text follows. */
  lemma GroupSuffix(s: string, p: nat, c: char, group: string, rest: string) returns (e: nat)
    requires p <= |s| && s[p..] == [' '] + group + ([c] + rest)
    requires group != "" && !IsSpace(group[0]) && c !in group
    ensures e == p + 1 + |group| && e < |s|
    ensures SpacedGroupBefore(s, p, c) == Some((group, e))
    ensures s[e + 1..] == rest
  {
    e := p + 1 + |group|;
    assert s[p] == s[p..][0];
    assert s[p + 1..e] == s[p..][1..1 + |group|];
    assert s[e] == s[p..][1 + |group|];
    assert s[e + 1..] == s[p..][2 + |group|..];
    SpacedGroupBeforeAt(s, p, c, group);
  }

  lemma {:induction false} SpacedGroupBeforeAt(s: string, p: nat, c: char, group: string)
    requires p < |s| && s[p] == ' ' && p + 1 + |group| < |s|
    requires group != "" && !IsSpace(group[0]) && c !in group
    requires s[p + 1..p + 1 + |group|] == group && s[p + 1 + |group|] == c
    ensures SpacedGroupBefore(s, p, c) == Some((group, p + 1 + |group|))
  {
    var e := p + 1 + |group|;
    assert forall j :: p + 1 <= j < e ==> s[j] == group[j - p - 1];
    SpanEndAt(s, p + 1, Except(c), e);
    SpacesThenRunAt(s, p, p + 1, Except(c));
  }

  lemma {:induction false} BiosAtPrinted(s: string, c: nat, bios: string)
    requires c <= |s| && s[c..] == ", BIOS " + bios
    requires bios != "" && !IsSpace(bios[0]) && NoLineTerminator(bios)
    ensures BiosAt(s, c) == Some(bios)
  {
    SuffixConcat(s, c, ", BIOS ", bios);
    assert s[c] == ',' && s[c + 1] == ' ' && s[c + 2] == 'B';
    SpanEndAt(s, c + 1, IsSpace, c + 2);
    assert s[c + 2..c + 6] == "BIOS";
    assert s[c + 6] == ' ' && s[c + 7] == bios[0];
    assert forall j :: c + 7 <= j < |s| ==> s[j] == bios[j - c - 7];
    RestToEndAt(s, c + 6, c + 7);
  }

  lemma PlatformBiosPrinted(s: string, p: nat, platform: string, bios: string)
    requires p <= |s| && s[p..] == platform + ", BIOS " + bios
    requires platform != "" && ',' !in platform
    requires bios != "" && !IsSpace(bios[0]) && NoLineTerminator(bios)
    ensures PlatformBiosAt(s, p) == Some((platform, bios))
  {
    var comma := PlatformRun(s, p, platform, bios);
    BiosAtPrinted(s, comma, bios);
    PlatformBiosParts(s, p, comma, platform, bios);
  }

  /** The platform runs up to the comma that follows it. */
  lemma PlatformRun(s: string, p: nat, platform: string, bios: string) returns (comma: nat)
    requires p <= |s| && s[p..] == platform + ", BIOS " + bios
    requires platform != "" && ',' !in platform
    ensures comma == p + |platform| && comma <= |s|
    ensures s[p..comma] == platform && s[comma..] == ", BIOS " + bios
    ensures Run1(s, p, Except(',')) == Some(comma)
  {
    comma := p + |platform|;
    SuffixConcat(s, p, platform, ", BIOS " + bios);
    assert s[comma] == s[comma..][0];
    forall j | p <= j < comma
      ensures s[j] != ','
    {
      assert s[j] == s[p..comma][j - p];
      assert platform[j - p] in platform;
    }
    SpanEndAt(s, p, Except(','), comma);
  }

  lemma PlatformBiosParts(s: string, p: nat, comma: nat, platform: string, bios: string)
    requires p <= comma <= |s| && s[p..comma] == platform
    requires Run1(s, p, Except(',')) == Some(comma) && BiosAt(s, comma) == Some(bios)
    ensures PlatformBiosAt(s, p) == Some((platform, bios))
  {
  }

  /** Text without white space: what `\S+` captures whole. */
  predicate Token(t: string) { t != [] && forall k :: 0 <= k < |t| ==> !IsSpace(t[k]) }

  /**
   * The banner line as the kernel prints it for a kernel that is not tainted, after the log
   * prefix `pre` and followed by the `build` text (`#1 SMP ...`).
   */
  function BannerParts(pre: string, info: SystemInfo, build: string): seq<string> {
    [pre, "CPU:", Decimal(info.cpu), "PID:", Decimal(info.pid), "Comm:", info.comm, "Kdump:", info.kdump,
     "Not", "tainted", info.kernelVersion, build]
  }

  function BannerLine(pre: string, info: SystemInfo, build: string): string {
    Join(BannerParts(pre, info, build), ' ')
  }

  /**
   * A banner record the printed line carries whole: an untainted kernel and no hardware fields,
   * tokens without white space, and no label printed before its own place.
   */
  predicate BannerPrintable(pre: string, info: SystemInfo) {
    && !info.tainted
    && info.hardwareVendor == "" && info.hardwareModel == "" && info.hardwarePlatform == "" && info.bios == ""
    && Token(info.comm) && Token(info.kdump) && Token(info.kernelVersion)
    && !Contains(pre, "CPU:") && !Contains(pre, "PID:") && !Contains(pre, "Comm:") && !Contains(pre, "Kdump:")
    && !Contains(pre, "tainted")
    && !Contains(info.comm, "Kdump:") && !Contains(info.comm, "tainted") && !Contains(info.kdump, "tainted")
  }

  /** The banner line of an untainted kernel reads back as the record it was printed from. */
  lemma BannerLineRoundTrip(pre: string, info: SystemInfo, build: string)
    requires BannerPrintable(pre, info)
    ensures MineBanner(BannerLine(pre, info, build)) == info
  {
    BannerCpuRead(pre, info, build);
    BannerPidRead(pre, info, build);
    BannerCommRead(pre, info, build);
    BannerKdumpRead(pre, info, build);
    BannerVersionRead(pre, info, build);
  }

  lemma BannerCpuRead(pre: string, info: SystemInfo, build: string)
    requires BannerPrintable(pre, info)
    ensures FirstNatAfterSpaces(BannerLine(pre, info, build), "CPU:") == Some(info.cpu)
  {
    var parts := BannerParts(pre, info, build);
    var k := WordInJoin(parts, ' ', "CPU:", 1);
    NatAfterSpacePiece(BannerLine(pre, info, build), k, "CPU:", info.cpu);
  }

  lemma BannerPidRead(pre: string, info: SystemInfo, build: string)
    requires BannerPrintable(pre, info)
    ensures FirstNatAfterSpaces(BannerLine(pre, info, build), "PID:") == Some(info.pid)
  {
    var parts := BannerParts(pre, info, build);
    forall m | 0 <= m < 3 ensures !Contains(parts[m], "PID:") {
      if m == 1 {
        NoSubWithoutChar(parts[m], "PID:", 1);
      } else if m == 2 {
        NoSubInDecimal(info.cpu, "PID:", 0);
      }
    }
    var k := WordInJoin(parts, ' ', "PID:", 3);
    NatAfterSpacePiece(BannerLine(pre, info, build), k, "PID:", info.pid);
  }

  lemma BannerCommRead(pre: string, info: SystemInfo, build: string)
    requires BannerPrintable(pre, info)
    ensures FirstTokenAfterSpaces(BannerLine(pre, info, build), "Comm:") == Some(info.comm)
  {
    var parts := BannerParts(pre, info, build);
    forall m | 0 <= m < 5 ensures !Contains(parts[m], "Comm:") {
      if m == 1 || m == 3 {
        NoSubWithoutChar(parts[m], "Comm:", 1);
      } else if m == 2 {
        NoSubInDecimal(info.cpu, "Comm:", 0);
      } else if m == 4 {
        NoSubInDecimal(info.pid, "Comm:", 0);
      }
    }
    var k := WordInJoin(parts, ' ', "Comm:", 5);
    TokenAfterSpacePiece(BannerLine(pre, info, build), k, "Comm:", info.comm);
  }

  lemma BannerKdumpRead(pre: string, info: SystemInfo, build: string)
    requires BannerPrintable(pre, info)
    ensures FirstTokenAfterSpaces(BannerLine(pre, info, build), "Kdump:") == Some(info.kdump)
  {
    var parts := BannerParts(pre, info, build);
    forall m | 0 <= m < 7 ensures !Contains(parts[m], "Kdump:") {
      if m == 1 || m == 3 || m == 5 {
        NoSubWithoutChar(parts[m], "Kdump:", 0);
      } else if m == 2 {
        NoSubInDecimal(info.cpu, "Kdump:", 0);
      } else if m == 4 {
        NoSubInDecimal(info.pid, "Kdump:", 0);
      }
    }
    var k := WordInJoin(parts, ' ', "Kdump:", 7);
    TokenAfterSpacePiece(BannerLine(pre, info, build), k, "Kdump:", info.kdump);
  }

  lemma BannerVersionRead(pre: string, info: SystemInfo, build: string)
    requires BannerPrintable(pre, info)
    ensures FirstKernelVersion(BannerLine(pre, info, build)) == Some(info.kernelVersion)
    ensures Contains(BannerLine(pre, info, build), "Not tainted")
  {
    var parts := BannerParts(pre, info, build);
    forall m | 0 <= m < 10 ensures !Contains(parts[m], "tainted") {
      if m == 1 || m == 3 || m == 5 || m == 7 || m == 9 {
        NoSubWithoutChar(parts[m], "tainted", 1);
      } else if m == 2 {
        NoSubInDecimal(info.cpu, "tainted", 0);
      } else if m == 4 {
        NoSubInDecimal(info.pid, "tainted", 0);
      }
    }
    var k := WordInJoin(parts, ' ', "tainted", 10);
    assert parts[9] + [' '] == "Not ";
    NotTaintedVersion(BannerLine(pre, info, build), k, info.kernelVersion);
  }

  /** Printed numbers hold no label that has a non-digit. */
  lemma NoSubInDecimal(n: nat, w: string, d: nat)
    requires d < |w| && !IsDigit(w[d])
    ensures !Contains(Decimal(n), w)
  {
    NonDigitNotInDecimal(w[d], n);
    NoSubWithoutChar(Decimal(n), w, d);
  }

  /**
   * `Not tainted` followed by one space and a token, with no `tainted` earlier in the line, gives
   * that token as the kernel version.
   */
  lemma NotTaintedVersion(s: string, k: nat, version: string)
    requires LabelThenPiece(s, k, "tainted", [' '] + version, ' ') && 4 <= k && StartsAt(s, k - 4, "Not ")
    requires Token(version)
    ensures FirstKernelVersion(s) == Some(version) && Contains(s, "Not tainted")
  {
    PieceHead(s, k, "tainted", [' '], version, ' ');
    StartsAtJoined(s, k - 4, "Not ", "tainted");
    assert "Not " + "tainted" == "Not tainted";
    StartsAtHead(s, k - 4, "Not ");
    NotStartsAtChar(s, k - 4, "tainted", 0);
    StartsAtHead(s, k + 7, [' ']);
    SpacedTokenAt(s, k + 7, version);
    assert KernelVersionAt(s, k - 4) == Some(version);
    forall j | 0 <= j < k - 4 ensures KernelVersionAt(s, j).None? {
      assert !StartsAt(s, j, "tainted") && !StartsAt(s, j + 4, "tainted");
    }
    LeftmostAt(s, KernelVersionAt, k - 4);
  }

  lemma SpacedTokenAt(s: string, p: nat, tok: string)
    requires p < |s| && s[p] == ' ' && StartsAt(s, p + 1, tok) && Token(tok)
    requires p + 1 + |tok| < |s| ==> s[p + 1 + |tok|] == ' '
    ensures SpacedToken(s, p) == Some(tok)
  {
    StartsAtLiteral(s, p + 1, tok);
    SpanEndAt(s, p, IsSpace, p + 1);
    SpanEndAt(s, p + 1, IsNonSpace, p + 1 + |tok|);
    assert s[p + 1..p + 1 + |tok|] == tok;
  }
}
