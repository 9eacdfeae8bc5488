/**
 * The structured record an OOM-killer log is turned into.  Every entity is an immutable value.
 * Numbers captured by `\d+` are `nat`, those captured by `-?\d+` are `int`; a string the log
 * does not supply is `""`, and the JavaScript `null`s (nodemask, register state, code note)
 * are `None`.
 */
module OOMTypes {
  import opened Wrappers

  datatype OOMTrigger = OOMTrigger(
    timestamp: string,
    triggerProcess: string,
    gfpMask: string,
    gfpFlags: seq<string>,
    order: nat,
    oomScoreAdj: int)

  const DefaultTrigger := OOMTrigger("", "", "", [], 0, 0)

  datatype SystemInfo = SystemInfo(
    cpu: nat,
    pid: nat,
    comm: string,
    kdump: string,
    tainted: bool,
    kernelVersion: string,
    hardwareVendor: string,
    hardwareModel: string,
    hardwarePlatform: string,
    bios: string)

  const DefaultSystemInfo := SystemInfo(0, 0, "", "", false, "", "", "", "", "")

  /** One `name+0xOFFSET/0xSIZE` line of a call trace (`function` in the source's record). */
  datatype StackFrame = StackFrame(func: string, offset: string, size: string)

  /**
   * The register dump.  The source fills a partial record key by key; a key it never set is
   * `""` here, which no match can produce because every captured register value is non-empty.
   */
  datatype RegisterState = RegisterState(
    rip: string, rsp: string, eflags: string,
    rax: string, rbx: string, rcx: string,
    rdx: string, rsi: string, rdi: string,
    rbp: string, r08: string, r09: string,
    r10: string, r11: string, r12: string,
    r13: string, r14: string, r15: string)

  const NoRegisters := RegisterState("", "", "", "", "", "", "", "", "", "", "", "", "", "", "", "", "", "")

  datatype CallStack = CallStack(
    frames: seq<StackFrame>,
    registers: Option<RegisterState>,
    codeNote: Option<string>)

  /** The global page counters of the `Mem-Info:` block (unit: pages). */
  datatype MemInfoPages = MemInfoPages(
    activeAnon: nat, inactiveAnon: nat, isolatedAnon: nat,
    activeFile: nat, inactiveFile: nat, isolatedFile: nat,
    unevictable: nat, dirty: nat, writeback: nat,
    slabReclaimable: nat, slabUnreclaimable: nat,
    mapped: nat, shmem: nat, pagetables: nat, secPagetables: nat,
    bounce: nat, kernelMiscReclaimable: nat,
    free: nat, freePcp: nat, freeCma: nat)

  /** One `Node N active_anon:...kB ...` summary (unit: kB). */
  datatype NodeMemoryKB = NodeMemoryKB(
    node: nat,
    activeAnon: int, inactiveAnon: int, activeFile: int, inactiveFile: int,
    unevictable: int, isolatedAnon: int, isolatedFile: int,
    mapped: int, dirty: int, writeback: int,
    shmem: int, shmemThp: int, shmemPmdmapped: int, anonThp: int,
    writebackTmp: int, kernelStack: int, pagetables: int, secPagetables: int,
    allUnreclaimable: bool)

  /** One `Node N ZONE free:...kB ...` row (unit: kB). */
  datatype ZoneInfo = ZoneInfo(
    node: nat, zone: string, free: nat,
    boost: int, min: int, low: int, high: int, reservedHighatomic: int,
    activeAnon: int, inactiveAnon: int, activeFile: int, inactiveFile: int,
    unevictable: int, writepending: int, present: int, managed: int,
    mlocked: int, bounce: int, freePcp: int, localPcp: int, freeCma: int)

  datatype BuddyBlock = BuddyBlock(count: nat, size: nat, flags: string)

  datatype BuddyInfo = BuddyInfo(node: nat, zone: string, blocks: seq<BuddyBlock>, total: nat)

  datatype HugepagesInfo = HugepagesInfo(node: nat, size: nat, total: nat, free: nat, surp: nat)

  datatype SwapInfo = SwapInfo(freeSwap: nat, totalSwap: nat, pagesInSwapCache: nat)

  datatype PageCacheInfo = PageCacheInfo(
    totalPagecachePages: nat, pagesRam: nat, pagesHighMemMovableOnly: nat,
    pagesReserved: nat, pagesCmaReserved: nat, pagesHwpoisoned: nat)

  /** A number `parseInt` produces: a value, or `NaN` when the text starts with no digit. */
  datatype ParsedInt = Parsed(value: nat) | NotANumber

  datatype MemoryInfo = MemoryInfo(
    memInfoPages: MemInfoPages,
    nodeMemory: seq<NodeMemoryKB>,
    zones: seq<ZoneInfo>,
    buddyInfo: seq<BuddyInfo>,
    hugepages: seq<HugepagesInfo>,
    swapInfo: SwapInfo,
    pageCacheInfo: PageCacheInfo,
    lowmemReserve: seq<seq<ParsedInt>>)

  /** One row of the `Tasks state (memory values in pages)` table. */
  datatype ProcessInfo = ProcessInfo(
    pid: nat, uid: nat, tgid: nat, totalVm: nat, rss: nat,
    pgtablesBytes: nat, swapents: nat, oomScoreAdj: int, name: string)

  datatype OOMConstraint = OOMConstraint(
    constraint: string,
    nodemask: Option<string>,
    cpuset: string,
    memsAllowed: string,
    globalOom: bool,
    taskMemcg: string,
    task: string,
    pid: nat,
    uid: nat)

  const DefaultConstraint := OOMConstraint("", None, "", "", false, "", "", 0, 0)

  datatype KilledProcess = KilledProcess(
    pid: nat, name: string,
    totalVmKB: nat, anonRssKB: nat, fileRssKB: nat, shmemRssKB: nat,
    uid: nat, pgtablesKB: nat, oomScoreAdj: int)

  const DefaultKilled := KilledProcess(0, "", 0, 0, 0, 0, 0, 0, 0)

  datatype ParsedOOMLog = ParsedOOMLog(
    trigger: OOMTrigger,
    systemInfo: SystemInfo,
    callStack: CallStack,
    memoryInfo: MemoryInfo,
    processes: seq<ProcessInfo>,
    oomConstraint: OOMConstraint,
    killedProcess: KilledProcess,
    rawLog: string,
    parseErrors: seq<string>)

  datatype OOMParseResult = OOMParseResult(
    success: bool,
    data: Option<ParsedOOMLog>,
    errors: seq<string>)

  /** The three section-level diagnostics, the only ones the parser raises. */
  const NoTriggerLine := "Could not find OOM trigger line"
  const NoConstraintLine := "Could not find oom-kill constraint line"
  const NoKilledLine := "Could not find killed process line"
}
