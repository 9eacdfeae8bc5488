/**
 * The swap and page-cache summaries.  Every line of the log is tried against every counter's
 * pattern, first match in the line; a line that matches sets the counter, so the last matching
 * line wins, and a counter no line matches stays 0.
 */
module MemoryTotalsExtractor {
  import opened Wrappers
  import opened Chars
  import opened Strings
  import opened Numerals
  import opened Matching
  import opened Scans
  import opened OOMTypes

  // ---------------------------------------------------------------- swap

  datatype SwapCounter = FreeSwap | TotalSwap | SwapCache

  /** `Free swap\s*=\s*(\d+)kB` at `i` */
  function FreeSwapAt(s: string, i: nat): Option<nat> {
    KBAfterEqualsAt(s, i, "Free swap")
  }

  /** `Total swap\s*=\s*(\d+)kB` at `i` */
  function TotalSwapAt(s: string, i: nat): Option<nat> {
    KBAfterEqualsAt(s, i, "Total swap")
  }

  /** `(\d+)\s+pages in swap cache` at `i` */
  function SwapCacheAt(s: string, i: nat): Option<nat> {
    NatBeforeAt(s, i, "pages in swap cache")
  }

  /** What `line.match` gives counter `c`, when the line matches its pattern. */
  function SwapReading(line: string, c: SwapCounter): Option<nat> {
    match c
    case FreeSwap => Leftmost(line, FreeSwapAt)
    case TotalSwap => Leftmost(line, TotalSwapAt)
    case SwapCache => Leftmost(line, SwapCacheAt)
  }

  function SwapReadingOf(c: SwapCounter): string -> Option<nat> {
    (line: string) => SwapReading(line, c)
  }

  /** The field of the record that holds counter `c`. */
  function SwapCount(w: SwapInfo, c: SwapCounter): nat {
    match c
    case FreeSwap => w.freeSwap
    case TotalSwap => w.totalSwap
    case SwapCache => w.pagesInSwapCache
  }

  /** The swap summary of `lines`: each counter from the last line matching its pattern, else 0. */
  function SwapInfoOf(lines: seq<string>): SwapInfo {
    SwapInfo(
      LastSome(lines, SwapReadingOf(FreeSwap)).GetOr(0),
      LastSome(lines, SwapReadingOf(TotalSwap)).GetOr(0),
      LastSome(lines, SwapReadingOf(SwapCache)).GetOr(0))
  }

  /** The summary after one more line: each counter the line matches is overwritten. */
  function SwapWithLine(w: SwapInfo, line: string): SwapInfo {
    SwapInfo(
      SwapReading(line, FreeSwap).GetOr(w.freeSwap),
      SwapReading(line, TotalSwap).GetOr(w.totalSwap),
      SwapReading(line, SwapCache).GetOr(w.pagesInSwapCache))
  }

  /** `parseSwapInfo`: one pass over the lines, each match overwriting its counter. */
  method ParseSwapInfo(lines: seq<string>) returns (info: SwapInfo)
    ensures info == SwapInfoOf(lines)
  {
    info := SwapInfo(0, 0, 0);
    for i := 0 to |lines|
      invariant info == SwapInfoOf(lines[..i])
    {
      var line := lines[i];
      ghost var before := info;
      var freeSwap := SwapReading(line, FreeSwap);
      if freeSwap.Some? {
        info := info.(freeSwap := freeSwap.value);
      }
      var totalSwap := SwapReading(line, TotalSwap);
      if totalSwap.Some? {
        info := info.(totalSwap := totalSwap.value);
      }
      var swapCache := SwapReading(line, SwapCache);
      if swapCache.Some? {
        info := info.(pagesInSwapCache := swapCache.value);
      }
      assert info == SwapWithLine(before, line);
      SwapStep(lines, i);
    }
    assert lines[..|lines|] == lines;
  }

  lemma SwapStep(lines: seq<string>, i: nat)
    requires i < |lines|
    ensures SwapInfoOf(lines[..i + 1]) == SwapWithLine(SwapInfoOf(lines[..i]), lines[i])
  {
    LastSomePrefixStep(lines, SwapReadingOf(FreeSwap), i);
    LastSomePrefixStep(lines, SwapReadingOf(TotalSwap), i);
    LastSomePrefixStep(lines, SwapReadingOf(SwapCache), i);
  }

  /** Each counter holds what the last line matching its pattern says, and 0 when no line does. */
  lemma SwapIsLastReading(lines: seq<string>, c: SwapCounter, k: nat)
    requires k < |lines| && SwapReading(lines[k], c).Some?
    requires forall j :: k < j < |lines| ==> SwapReading(lines[j], c).None?
    ensures SwapCount(SwapInfoOf(lines), c) == SwapReading(lines[k], c).value
  {
    LastSomeIs(lines, SwapReadingOf(c), k);
    SwapCountIsLast(lines, c);
  }

  lemma SwapCountIsLast(lines: seq<string>, c: SwapCounter)
    ensures SwapCount(SwapInfoOf(lines), c) == LastSome(lines, SwapReadingOf(c)).GetOr(0)
  {
  }

  /** A counter no line matches stays 0. */
  lemma SwapDefaultsToZero(lines: seq<string>, c: SwapCounter)
    requires forall j :: 0 <= j < |lines| ==> SwapReading(lines[j], c).None?
    ensures SwapCount(SwapInfoOf(lines), c) == 0
  {
    assert forall j :: 0 <= j < |lines| ==> SwapReadingOf(c)(lines[j]).None?;
    SwapCountIsLast(lines, c);
  }

  /** The kernel's `Free swap  = <n>kB` line sets the free-swap counter to `n`. */
  lemma FreeSwapPrinted(n: nat, rest: string)
    ensures SwapReading("Free swap  = " + (Decimal(n) + ("kB" + rest)), FreeSwap) == Some(n)
  {
    var s := "Free swap  = " + (Decimal(n) + ("kB" + rest));
    KBAfterEqualsPrinted(s, "Free swap", "  ", n, rest);
    LeftmostAt(s, FreeSwapAt, 0);
  }

  /** The kernel's `Total swap = <n>kB` line sets the total-swap counter to `n`. */
  lemma TotalSwapPrinted(n: nat, rest: string)
    ensures SwapReading("Total swap = " + (Decimal(n) + ("kB" + rest)), TotalSwap) == Some(n)
  {
    var s := "Total swap = " + (Decimal(n) + ("kB" + rest));
    KBAfterEqualsPrinted(s, "Total swap", " ", n, rest);
    LeftmostAt(s, TotalSwapAt, 0);
  }

  /** The kernel's `<n> pages in swap cache` line sets the swap-cache counter to `n`. */
  lemma SwapCachePrinted(n: nat, rest: string)
    ensures SwapReading(Decimal(n) + (" " + ("pages in swap cache" + rest)), SwapCache) == Some(n)
  {
    var s := Decimal(n) + (" " + ("pages in swap cache" + rest));
    NatBeforePrinted(s, "pages in swap cache", n, rest);
    LeftmostAt(s, SwapCacheAt, 0);
  }

  /** `lit\s*=\s*(\d+)kB` reads a value printed after `lit`, white space and `= `. */
  lemma KBAfterEqualsPrinted(s: string, lit: string, gap: string, n: nat, rest: string)
    requires AllSpace(gap)
    requires s == lit + gap + ("= " + (Decimal(n) + ("kB" + rest)))
    ensures KBAfterEqualsAt(s, 0, lit) == Some(n)
  {
    var p := KBAfterEqualsLayout(s, lit, gap, n, rest);
    KBAfterEqualsRead(s, lit, p, n);
  }

  lemma KBAfterEqualsLayout(s: string, lit: string, gap: string, n: nat, rest: string) returns (p: nat)
    requires AllSpace(gap)
    requires s == lit + gap + ("= " + (Decimal(n) + ("kB" + rest)))
    ensures p == |lit| + |gap| && p + 1 < |s|
    ensures StartsAt(s, 0, lit) && forall k :: |lit| <= k < p ==> IsSpace(s[k])
    ensures s[p] == '=' && s[p + 1] == ' '
    ensures StartsAt(s, p + 2, Decimal(n)) && StartsAt(s, p + 2 + |Decimal(n)|, "kB")
  {
    p := |lit| + |gap|;
    FourPieces(s, lit + gap, "= ", Decimal(n), "kB" + rest);
    StartsAtConcat(s, 0, lit, gap);
    StartsAtConcat(s, p + 2 + |Decimal(n)|, "kB", rest);
    KBAfterEqualsHead(s, lit, gap);
  }

  /** The label, then white space, then `= `. */
  lemma KBAfterEqualsHead(s: string, lit: string, gap: string)
    requires AllSpace(gap)
    requires StartsAt(s, |lit|, gap) && StartsAt(s, |lit| + |gap|, "= ")
    ensures forall k :: |lit| <= k < |lit| + |gap| ==> IsSpace(s[k])
    ensures |lit| + |gap| + 1 < |s| && s[|lit| + |gap|] == '=' && s[|lit| + |gap| + 1] == ' '
  {
    StartsAtLiteral(s, |lit|, gap);
    StartsAtLiteral(s, |lit| + |gap|, "= ");
  }

  lemma KBAfterEqualsRead(s: string, lit: string, p: nat, n: nat)
    requires p + 1 < |s| && |lit| <= p
    requires StartsAt(s, 0, lit) && forall k :: |lit| <= k < p ==> IsSpace(s[k])
    requires s[p] == '=' && s[p + 1] == ' '
    requires StartsAt(s, p + 2, Decimal(n)) && StartsAt(s, p + 2 + |Decimal(n)|, "kB")
    ensures KBAfterEqualsAt(s, 0, lit) == Some(n)
  {
    SpanEndAt(s, |lit|, IsSpace, p);
    var e := KBNumberRead(s, p + 1, n);
    KBAfterEqualsParts(s, lit, p, n, e);
  }

  /** A space and then a printed number followed by `kB`. */
  lemma KBNumberRead(s: string, q: nat, n: nat) returns (e: nat)
    requires q < |s| && s[q] == ' '
    requires StartsAt(s, q + 1, Decimal(n)) && StartsAt(s, q + 1 + |Decimal(n)|, "kB")
    ensures e == q + 1 + |Decimal(n)|
    ensures Run0(s, q, IsSpace) == q + 1 && NatAt(s, q + 1) == Some((n, e)) && StartsAt(s, e, "kB")
  {
    e := q + 1 + |Decimal(n)|;
    StartsAtLiteral(s, q + 1, Decimal(n));
    SpanEndAt(s, q, IsSpace, q + 1);
    StartsAtLiteral(s, e, "kB");
    NatAtDecimal(s, q + 1, n);
  }

  lemma KBAfterEqualsParts(s: string, lit: string, p: nat, n: nat, e: nat)
    requires StartsAt(s, 0, lit) && Run0(s, |lit|, IsSpace) == p && p < |s| && s[p] == '='
    requires Run0(s, p + 1, IsSpace) == p + 2 && NatAt(s, p + 2) == Some((n, e)) && StartsAt(s, e, "kB")
    ensures KBAfterEqualsAt(s, 0, lit) == Some(n)
  {
  }

  /** `(\d+)\s+lit` reads a value printed before one space and `lit`. */
  lemma NatBeforePrinted(s: string, lit: string, n: nat, rest: string)
    requires lit != [] && !IsSpace(lit[0])
    requires s == Decimal(n) + (" " + (lit + rest))
    ensures NatBeforeAt(s, 0, lit) == Some(n)
  {
    var d := NatBeforeLayout(s, lit, n, rest);
    NatBeforeRead(s, lit, d, n);
  }

  lemma NatBeforeLayout(s: string, lit: string, n: nat, rest: string) returns (d: nat)
    requires lit != []
    requires s == Decimal(n) + (" " + (lit + rest))
    ensures d == |Decimal(n)| && d + 1 < |s|
    ensures StartsAt(s, 0, Decimal(n)) && s[d] == ' ' && StartsAt(s, d + 1, lit)
  {
    d := |Decimal(n)|;
    FourPieces(s, Decimal(n), " ", lit, rest);
    StartsAtHead(s, d, " ");
  }

  lemma NatBeforeRead(s: string, lit: string, d: nat, n: nat)
    requires lit != [] && !IsSpace(lit[0])
    requires d == |Decimal(n)| && d + 1 < |s|
    requires StartsAt(s, 0, Decimal(n)) && s[d] == ' ' && StartsAt(s, d + 1, lit)
    ensures NatBeforeAt(s, 0, lit) == Some(n)
  {
    StartsAtLiteral(s, d + 1, lit);
    NatAtDecimal(s, 0, n);
    SpanEndAt(s, d, IsSpace, d + 1);
  }

  // ---------------------------------------------------------------- page cache

  datatype CacheCounter =
    | TotalPagecache | PagesRam | PagesHighMem | PagesReserved | PagesCmaReserved | PagesHwpoisoned

  /** The words each counter's number is printed before. */
  function CacheLabel(c: CacheCounter): string {
    match c
    case TotalPagecache => "total pagecache pages"
    case PagesRam => "pages RAM"
    case PagesHighMem => "pages HighMem"
    case PagesReserved => "pages reserved"
    case PagesCmaReserved => "pages cma reserved"
    case PagesHwpoisoned => "pages hwpoisoned"
  }

  /** `(\d+)\s+label` at `i` */
  function CacheAt(c: CacheCounter): (string, nat) -> Option<nat> {
    (s: string, i: nat) => NatBeforeAt(s, i, CacheLabel(c))
  }

  /** What `line.match` gives counter `c`, when the line matches its pattern. */
  function CacheReading(line: string, c: CacheCounter): Option<nat> {
    Leftmost(line, CacheAt(c))
  }

  function CacheReadingOf(c: CacheCounter): string -> Option<nat> {
    (line: string) => CacheReading(line, c)
  }

  /** The field of the record that holds counter `c`. */
  function CacheCount(p: PageCacheInfo, c: CacheCounter): nat {
    match c
    case TotalPagecache => p.totalPagecachePages
    case PagesRam => p.pagesRam
    case PagesHighMem => p.pagesHighMemMovableOnly
    case PagesReserved => p.pagesReserved
    case PagesCmaReserved => p.pagesCmaReserved
    case PagesHwpoisoned => p.pagesHwpoisoned
  }

  function LastCache(lines: seq<string>, c: CacheCounter): nat {
    LastSome(lines, CacheReadingOf(c)).GetOr(0)
  }

  /** The page-cache summary of `lines`: each counter from the last line matching its pattern, else 0. */
  function PageCacheInfoOf(lines: seq<string>): PageCacheInfo {
    PageCacheInfo(
      LastCache(lines, TotalPagecache), LastCache(lines, PagesRam), LastCache(lines, PagesHighMem),
      LastCache(lines, PagesReserved), LastCache(lines, PagesCmaReserved), LastCache(lines, PagesHwpoisoned))
  }

  /** The summary after one more line: each counter the line matches is overwritten. */
  function CacheWithLine(p: PageCacheInfo, line: string): PageCacheInfo {
    PageCacheInfo(
      CacheReading(line, TotalPagecache).GetOr(p.totalPagecachePages),
      CacheReading(line, PagesRam).GetOr(p.pagesRam),
      CacheReading(line, PagesHighMem).GetOr(p.pagesHighMemMovableOnly),
      CacheReading(line, PagesReserved).GetOr(p.pagesReserved),
      CacheReading(line, PagesCmaReserved).GetOr(p.pagesCmaReserved),
      CacheReading(line, PagesHwpoisoned).GetOr(p.pagesHwpoisoned))
  }

  /** `parsePageCacheInfo`: one pass over the lines, each match overwriting its counter. */
  method ParsePageCacheInfo(lines: seq<string>) returns (info: PageCacheInfo)
    ensures info == PageCacheInfoOf(lines)
  {
    info := PageCacheInfo(0, 0, 0, 0, 0, 0);
    for i := 0 to |lines|
      invariant info == PageCacheInfoOf(lines[..i])
    {
      info := ReadCacheLine(info, lines[i]);
      CacheStep(lines, i);
    }
    assert lines[..|lines|] == lines;
  }

  /** The body of the loop of `parsePageCacheInfo`: each counter the line matches is overwritten. */
  method ReadCacheLine(before: PageCacheInfo, line: string) returns (info: PageCacheInfo)
    ensures info == CacheWithLine(before, line)
  {
    info := before;
    var pagecache := CacheReading(line, TotalPagecache);
    if pagecache.Some? {
      info := info.(totalPagecachePages := pagecache.value);
    }
    var ram := CacheReading(line, PagesRam);
    if ram.Some? {
      info := info.(pagesRam := ram.value);
    }
    var highMem := CacheReading(line, PagesHighMem);
    if highMem.Some? {
      info := info.(pagesHighMemMovableOnly := highMem.value);
    }
    var reserved := CacheReading(line, PagesReserved);
    if reserved.Some? {
      info := info.(pagesReserved := reserved.value);
    }
    var cma := CacheReading(line, PagesCmaReserved);
    if cma.Some? {
      info := info.(pagesCmaReserved := cma.value);
    }
    var hwpoisoned := CacheReading(line, PagesHwpoisoned);
    if hwpoisoned.Some? {
      info := info.(pagesHwpoisoned := hwpoisoned.value);
    }
  }

  lemma CacheStep(lines: seq<string>, i: nat)
    requires i < |lines|
    ensures PageCacheInfoOf(lines[..i + 1]) == CacheWithLine(PageCacheInfoOf(lines[..i]), lines[i])
  {
    LastSomePrefixStep(lines, CacheReadingOf(TotalPagecache), i);
    LastSomePrefixStep(lines, CacheReadingOf(PagesRam), i);
    LastSomePrefixStep(lines, CacheReadingOf(PagesHighMem), i);
    LastSomePrefixStep(lines, CacheReadingOf(PagesReserved), i);
    LastSomePrefixStep(lines, CacheReadingOf(PagesCmaReserved), i);
    LastSomePrefixStep(lines, CacheReadingOf(PagesHwpoisoned), i);
  }

  /** Each counter holds what the last line matching its pattern says, and 0 when no line does. */
  lemma CacheIsLastReading(lines: seq<string>, c: CacheCounter, k: nat)
    requires k < |lines| && CacheReading(lines[k], c).Some?
    requires forall j :: k < j < |lines| ==> CacheReading(lines[j], c).None?
    ensures CacheCount(PageCacheInfoOf(lines), c) == CacheReading(lines[k], c).value
  {
    LastSomeIs(lines, CacheReadingOf(c), k);
    CacheCountIsLast(lines, c);
  }

  lemma CacheCountIsLast(lines: seq<string>, c: CacheCounter)
    ensures CacheCount(PageCacheInfoOf(lines), c) == LastCache(lines, c)
  {
    var p := PageCacheInfoOf(lines);
    match c
    case TotalPagecache => assert p.totalPagecachePages == LastCache(lines, c);
    case PagesRam => assert p.pagesRam == LastCache(lines, c);
    case PagesHighMem => assert p.pagesHighMemMovableOnly == LastCache(lines, c);
    case PagesReserved => assert p.pagesReserved == LastCache(lines, c);
    case PagesCmaReserved => assert p.pagesCmaReserved == LastCache(lines, c);
    case PagesHwpoisoned => assert p.pagesHwpoisoned == LastCache(lines, c);
  }

  /** A counter no line matches stays 0. */
  lemma CacheDefaultsToZero(lines: seq<string>, c: CacheCounter)
    requires forall j :: 0 <= j < |lines| ==> CacheReading(lines[j], c).None?
    ensures CacheCount(PageCacheInfoOf(lines), c) == 0
  {
    assert forall j :: 0 <= j < |lines| ==> CacheReadingOf(c)(lines[j]).None?;
    CacheCountIsLast(lines, c);
  }

  /** The kernel's `<n> <label>` summary line sets counter `c` to `n`. */
  lemma CachePrinted(c: CacheCounter, n: nat, rest: string)
    ensures CacheReading(Decimal(n) + (" " + (CacheLabel(c) + rest)), c) == Some(n)
  {
    var s := Decimal(n) + (" " + (CacheLabel(c) + rest));
    NatBeforePrinted(s, CacheLabel(c), n, rest);
    LeftmostAt(s, CacheAt(c), 0);
  }

  /** A `<n> pages cma reserved` line leaves the reserved-pages counter alone. */
  lemma CmaLineIsNotReserved(n: nat)
    ensures CacheReading(Decimal(n) + " pages cma reserved", PagesReserved).None?
  {
    var s := Decimal(n) + " pages cma reserved";
    var d := CmaLayout(s, n);
    NotReservedAnywhere(s, d);
  }

  lemma NotReservedAnywhere(s: string, d: nat)
    requires d + 7 < |s|
    requires forall k :: 0 <= k < d ==> IsDigit(s[k])
    requires forall k :: d <= k < |s| ==> !IsDigit(s[k])
    requires s[d] == ' ' && s[d + 1] == 'p' && s[d + 7] == 'c'
    ensures CacheReading(s, PagesReserved).None?
  {
    forall j | 0 <= j <= |s|
      ensures CacheAt(PagesReserved)(s, j).None?
    {
      NotReservedAt(s, d, j);
      ReservedAt(s, j);
    }
    LeftmostNone(s, CacheAt(PagesReserved));
  }

  lemma ReservedAt(s: string, j: nat)
    ensures CacheAt(PagesReserved)(s, j) == NatBeforeAt(s, j, "pages reserved")
  {
    assert CacheLabel(PagesReserved) == "pages reserved";
  }

  lemma CmaLayout(s: string, n: nat) returns (d: nat)
    requires s == Decimal(n) + " pages cma reserved"
    ensures d == |Decimal(n)| && d + 7 < |s|
    ensures forall k :: 0 <= k < d ==> IsDigit(s[k])
    ensures forall k :: d <= k < |s| ==> !IsDigit(s[k])
    ensures s[d] == ' ' && s[d + 1] == 'p' && s[d + 7] == 'c'
  {
    d := CmaPieces(s, n);
    CmaPositions(s, n, d);
  }

  lemma CmaPieces(s: string, n: nat) returns (d: nat)
    requires s == Decimal(n) + " pages cma reserved"
    ensures d == |Decimal(n)| && |s| == d + 19
    ensures StartsAt(s, 0, Decimal(n)) && StartsAt(s, d, " pages cma reserved")
  {
    d := |Decimal(n)|;
    SuffixConcat(s, 0, Decimal(n), " pages cma reserved");
    assert s[d..d + 19] == s[d..];
  }

  lemma CmaPositions(s: string, n: nat, d: nat)
    requires d == |Decimal(n)| && |s| == d + 19
    requires StartsAt(s, 0, Decimal(n)) && StartsAt(s, d, " pages cma reserved")
    ensures forall k :: 0 <= k < d ==> IsDigit(s[k])
    ensures forall k :: d <= k < |s| ==> !IsDigit(s[k])
    ensures s[d] == ' ' && s[d + 1] == 'p' && s[d + 7] == 'c'
  {
    StartsAtLiteral(s, 0, Decimal(n));
    StartsAtLiteral(s, d, " pages cma reserved");
    CmaWordsHaveNoDigit();
    CmaWordsChars();
  }

  lemma CmaWordsChars()
    ensures var lit := " pages cma reserved"; lit[0] == ' ' && lit[1] == 'p' && lit[7] == 'c'
  {
  }

  lemma CmaWordsHaveNoDigit()
    ensures forall k :: 0 <= k < |" pages cma reserved"| ==> !IsDigit(" pages cma reserved"[k])
  {
    var lit := " pages cma reserved";
    assert forall c :: c in lit ==> !IsDigit(c);
    forall k | 0 <= k < |lit|
      ensures !IsDigit(lit[k])
    {
      assert lit[k] in lit;
    }
  }

  /** No `(\d+)\s+pages reserved` match starts anywhere in such a line. */
  lemma NotReservedAt(s: string, d: nat, j: nat)
    requires d + 7 < |s| && j <= |s|
    requires forall k :: 0 <= k < d ==> IsDigit(s[k])
    requires forall k :: d <= k < |s| ==> !IsDigit(s[k])
    requires s[d] == ' ' && s[d + 1] == 'p' && s[d + 7] == 'c'
    ensures NatBeforeAt(s, j, "pages reserved").None?
  {
    if j < d {
      SpanEndAt(s, j, IsDigit, d);
      SpanEndAt(s, d, IsSpace, d + 1);
      if d + 15 <= |s| {
        assert s[d + 1..d + 15][6] == s[d + 7] && "pages reserved"[6] == 'r';
      }
    }
  }
}
