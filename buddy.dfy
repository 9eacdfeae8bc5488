/**
 * The buddy allocator rows of the memory report: `Node 0 Normal: 1*4kB (U) 2*8kB (UM) ... = 12kB`.
 * The row pattern captures the block list lazily, up to the ` = <total>kB` that ends the row, and
 * the blocks are then read from that text one after another, as `matchAll` does.
 */
module BuddyExtractor {
  import opened Wrappers
  import opened Chars
  import opened Strings
  import opened Numerals
  import opened Matching
  import opened Scans
  import opened OOMTypes
  import opened MemoryZonesExtractor

  // ---------------------------------------------------------------- the row

  /** `\s*=\s*(\d+)kB` at `q`: the total that ends a buddy row. */
  function TotalAt(s: string, q: nat): (r: Option<nat>) {
    var a := Run0(s, q, IsSpace);
    if a < |s| && s[a] == '=' then
      match NatAt(s, Run0(s, a + 1, IsSpace))
      case None => None
      case Some((v, e)) => if StartsAt(s, e, "kB") then Some(v) else None
    else None
  }

  /**
   * The lazy `(.+?)`, its first character already taken, extended one character at a time from `q`
   * until `follow` (what the pattern demands after the group) matches.
   */
  function LazyUntil(s: string, q: nat, follow: (string, nat) -> Option<nat>): (r: Option<(nat, nat)>)
    requires q <= |s|
    ensures r.Some? ==> q <= r.value.0 <= |s| && follow(s, r.value.0) == Some(r.value.1)
    decreases |s| - q
  {
    if follow(s, q).Some? then Some((q, follow(s, q).value))
    else if q < |s| && !IsLineTerminator(s[q]) then LazyUntil(s, q + 1, follow)
    else None
  }

  /** No position of `s[a..b]` starts a match of `follow`, and no character there ends the line. */
  predicate Unstopped(s: string, a: nat, b: nat, follow: (string, nat) -> Option<nat>)
    requires b <= |s|
  {
    && (forall j :: a <= j < b ==> follow(s, j).None?)
    && (forall j :: a <= j < b ==> !IsLineTerminator(s[j]))
  }

  /** The lazy group stops at the first position where `follow` matches, and never crosses a line terminator. */
  lemma {:induction false} LazyUntilFirst(s: string, q: nat, follow: (string, nat) -> Option<nat>)
    requires q <= |s|
    ensures LazyUntil(s, q, follow).Some? ==> Unstopped(s, q, LazyUntil(s, q, follow).value.0, follow)
    decreases |s| - q
  {
    var here := follow(s, q);
    if here.Some? {
      assert LazyUntil(s, q, follow) == Some((q, here.value));
    } else if q < |s| && !IsLineTerminator(s[q]) {
      var r := LazyUntil(s, q + 1, follow);
      assert LazyUntil(s, q, follow) == r;
      LazyUntilFirst(s, q + 1, follow);
    } else {
      assert LazyUntil(s, q, follow).None?;
    }
  }

  /** Conversely, the lazy group reaches the first match of `follow` that nothing stops it before. */
  lemma {:induction false} LazyUntilReaches(s: string, q: nat, e: nat, follow: (string, nat) -> Option<nat>)
    requires q <= e <= |s| && Unstopped(s, q, e, follow) && follow(s, e).Some?
    ensures LazyUntil(s, q, follow) == Some((e, follow(s, e).value))
    decreases e - q
  {
    if q < e {
      assert follow(s, q).None? && !IsLineTerminator(s[q]);
      LazyUntilReaches(s, q + 1, e, follow);
    }
  }

  /** `(.+?)\s*=\s*(\d+)kB` at `k`: the end of the group and the total. */
  function LazyGroupAt(s: string, k: nat): (r: Option<(nat, nat)>)
    ensures r.Some? ==> k < r.value.0 <= |s| && TotalAt(s, r.value.0) == Some(r.value.1)
  {
    if k < |s| && !IsLineTerminator(s[k]) then
      LazyUntil(s, k + 1, TotalAt)
    else None
  }

  /**
   * The lazy group begun at `k` takes no line terminator and ends at the first position after `k`
   * where a total follows: a greedy group would run on to the last one.
   */
  lemma LazyGroupFirst(s: string, k: nat)
    ensures LazyGroupAt(s, k).Some? ==> !IsLineTerminator(s[k]) && Unstopped(s, k + 1, LazyGroupAt(s, k).value.0, TotalAt)
  {
    if k < |s| && !IsLineTerminator(s[k]) {
      LazyUntilFirst(s, k + 1, TotalAt);
    }
  }

  /** Conversely, from a start that is no line terminator the lazy group reaches the first total that nothing stops it before. */
  lemma LazyGroupReaches(s: string, k: nat, e: nat, total: nat)
    requires k < e <= |s| && !IsLineTerminator(s[k])
    requires Unstopped(s, k + 1, e, TotalAt) && TotalAt(s, e) == Some(total)
    ensures LazyGroupAt(s, k) == Some((e, total))
  {
    var r := LazyUntil(s, k + 1, TotalAt);
    LazyUntilReaches(s, k + 1, e, TotalAt);
    assert r == Some((e, total));
    assert LazyGroupAt(s, k) == r;
  }

  /** The greedy `\s+` before the lazy group gives back white space one character at a time. */
  function SpacesThenLazyFrom(s: string, p: nat, k: nat): (r: Option<(string, nat)>)
    requires p < k <= |s|
    decreases k - p
  {
    match LazyGroupAt(s, k)
    case Some((q, total)) => Some((s[k..q], total))
    case None => if k == p + 1 then None else SpacesThenLazyFrom(s, p, k - 1)
  }

  /** `:\s+(.+?)\s*=\s*(\d+)kB` at `q`: the block text and the total. */
  function BuddyTailAt(s: string, q: nat): (r: Option<(string, nat)>) {
    if q < |s| && s[q] == ':' then
      var m := SpanEnd(s, q + 1, IsSpace);
      if m == q + 1 then None else SpacesThenLazyFrom(s, q + 1, m)
    else None
  }

  /** `Node\s+(\d+)\s+(DMA32?|Normal):\s+(.+?)\s*=\s*(\d+)kB` at `i`: node, zone, block text and total. */
  function BuddyRowAt(s: string, i: nat): (r: Option<(nat, string, string, nat)>)
    ensures r.Some? ==> IsZoneName(r.value.1)
  {
    match NodeNumberAt(s, i)
    case None => None
    case Some((node, e)) =>
      match Run1(s, e, IsSpace)
      case None => None
      case Some(z) =>
        match ZoneThen(s, z, BuddyTailAt)
        case None => None
        case Some((zone, tail)) => Some((node, zone, tail.0, tail.1))
  }

  // ---------------------------------------------------------------- the blocks

  /** `\*(\d+)kB\s*` at `e`: the block size and where the white space after its unit ends. */
  function StarSizeAt(t: string, e: nat): (r: Option<(nat, nat)>)
    ensures r.Some? ==> e < r.value.1 <= |t|
  {
    if e < |t| && t[e] == '*' then
      match NatAt(t, e + 1)
      case None => None
      case Some((size, f)) => if StartsAt(t, f, "kB") then Some((size, SpanEnd(t, f + 2, IsSpace))) else None
    else None
  }

  /** `\(([^)]*)\)` at `g`: the flags and where the closing parenthesis ends. */
  function FlagsAt(t: string, g: nat): (r: Option<(string, nat)>)
    ensures r.Some? ==> g < r.value.1 <= |t| && ')' !in r.value.0
  {
    if g < |t| && t[g] == '(' then
      var h := SpanEnd(t, g + 1, Except(')'));
      if h < |t| && t[h] == ')' then
        var flags := t[g + 1..h];
        assert forall k :: 0 <= k < |flags| ==> flags[k] == t[g + 1 + k];
        Some((flags, h + 1))
      else None
    else None
  }

  /** `(\d+)\*(\d+)kB\s*\(([^)]*)\)` at `i`: one block and where its match ends. */
  function BlockAt(t: string, i: nat): (r: Option<(BuddyBlock, nat)>)
    ensures r.Some? ==> i < r.value.1 <= |t|
    ensures r.Some? ==> ')' !in r.value.0.flags
  {
    match NatAt(t, i)
    case None => None
    case Some((count, e)) =>
      match StarSizeAt(t, e)
      case None => None
      case Some((size, g)) =>
        match FlagsAt(t, g)
        case None => None
        case Some((flags, h)) => Some((BuddyBlock(count, size, flags), h))
  }

  /** The blocks `matchAll` finds from `i` on: each search resumes where the previous match ended. */
  function BlocksFrom(t: string, i: nat): (r: seq<BuddyBlock>)
    requires i <= |t|
    ensures forall b :: b in r ==> ')' !in b.flags
    decreases |t| - i
  {
    var found: Option<(BuddyBlock, nat)> := LeftmostFrom(t, i, BlockAt);
    if found.None? then []
    else [found.value.0] + BlocksFrom(t, found.value.1)
  }

  /** When a block starts right at `i`, it is the first one found, and the search resumes after it. */
  lemma BlocksFromAt(t: string, i: nat, b: BuddyBlock, e: nat)
    requires i < |t| && BlockAt(t, i) == Some((b, e))
    ensures e <= |t| && BlocksFrom(t, i) == [b] + BlocksFrom(t, e)
  {
    assert LeftmostFrom(t, i, BlockAt) == BlockAt(t, i);
  }

  /** Positions where no block starts are passed over. */
  lemma BlocksSkipTo(t: string, a: nat, b: nat)
    requires a <= b <= |t|
    requires forall j :: a <= j < b ==> BlockAt(t, j).None?
    ensures BlocksFrom(t, a) == BlocksFrom(t, b)
  {
    LeftmostFromSkip(t, BlockAt, a, b);
  }

  /** Nothing is found at the end of the text. */
  lemma BlocksAtEnd(t: string)
    ensures BlocksFrom(t, |t|) == []
  {
    assert BlockAt(t, |t|).None?;
  }

  // ---------------------------------------------------------------- printed blocks

  /** A block as the kernel prints it: count, size and the migrate-type letters. */
  function BlockText(b: BuddyBlock): string {
    Decimal(b.count) + StarText(b.size, b.flags)
  }

  /** The part of a printed block after its count. */
  function StarText(size: nat, flags: string): string {
    "*" + (Decimal(size) + UnitText(flags))
  }

  /** The part of a printed block after its size. */
  function UnitText(flags: string): string {
    "kB" + (" " + FlagsText(flags))
  }

  /** The flags of a printed block, in parentheses. */
  function FlagsText(flags: string): string {
    "(" + (flags + ")")
  }

  /** Reading back a printed block gives the block and the position just past it. */
  lemma BlockRoundTrip(b: BuddyBlock, t: string, i: nat)
    requires ')' !in b.flags
    requires StartsAt(t, i, BlockText(b))
    ensures BlockAt(t, i) == Some((b, i + |BlockText(b)|))
  {
    StartsAtConcat(t, i, Decimal(b.count), StarText(b.size, b.flags));
    var h := BlockRead(t, i, b);
  }

  /** A printed count followed by the rest of a printed block is read as that block; returns its end. */
  lemma BlockRead(t: string, i: nat, b: BuddyBlock) returns (h: nat)
    requires ')' !in b.flags
    requires StartsAt(t, i, Decimal(b.count))
    requires StartsAt(t, i + |Decimal(b.count)|, StarText(b.size, b.flags))
    ensures h == i + |BlockText(b)|
    ensures BlockAt(t, i) == Some((b, h))
  {
    var e := i + |Decimal(b.count)|;
    assert e < |t| && t[e] == '*' by { StartsAtLiteral(t, e, StarText(b.size, b.flags)); }
    NatAtDecimal(t, i, b.count);
    var g := StarSizeLayout(t, e, b.size, b.flags);
    h := FlagsLayout(t, g, b.flags);
    BlockParts(t, i, e, g, b, h);
  }

  /** The block pattern read part by part. */
  lemma BlockParts(t: string, i: nat, e: nat, g: nat, b: BuddyBlock, h: nat)
    requires NatAt(t, i) == Some((b.count, e))
    requires StarSizeAt(t, e) == Some((b.size, g))
    requires FlagsAt(t, g) == Some((b.flags, h))
    ensures BlockAt(t, i) == Some((b, h))
  {
  }

  /** `*<size>kB ` printed before the flags is read as the size; returns where the flags start. */
  lemma StarSizeLayout(t: string, e: nat, size: nat, flags: string) returns (g: nat)
    requires StartsAt(t, e, StarText(size, flags))
    ensures g == e + 4 + |Decimal(size)| && g + |FlagsText(flags)| == e + |StarText(size, flags)|
    ensures StarSizeAt(t, e) == Some((size, g))
    ensures StartsAt(t, g, FlagsText(flags))
  {
    var f := e + 1 + |Decimal(size)|;
    g := f + 3;
    StartsAtConcat(t, e, "*", Decimal(size) + UnitText(flags));
    StartsAtConcat(t, e + 1, Decimal(size), UnitText(flags));
    StartsAtLiteral(t, e, "*");
    UnitLayout(t, f, flags);
    StarSizeRead(t, e, size, f);
  }

  /** `kB ` and then the flags. */
  lemma UnitLayout(t: string, f: nat, flags: string)
    requires StartsAt(t, f, UnitText(flags))
    ensures StartsAt(t, f, "kB") && f + 3 < |t| && t[f + 2] == ' ' && t[f + 3] == '('
    ensures StartsAt(t, f + 3, FlagsText(flags))
  {
    StartsAtConcat(t, f, "kB", " " + FlagsText(flags));
    StartsAtConcat(t, f + 2, " ", FlagsText(flags));
    StartsAtLiteral(t, f + 2, " ");
    StartsAtLiteral(t, f + 3, FlagsText(flags));
  }

  /** `*<size>kB ` and a non-space read as the size. */
  lemma StarSizeRead(t: string, e: nat, size: nat, f: nat)
    requires e < |t| && t[e] == '*' && StartsAt(t, e + 1, Decimal(size)) && f == e + 1 + |Decimal(size)|
    requires StartsAt(t, f, "kB") && f + 3 < |t| && t[f + 2] == ' ' && !IsSpace(t[f + 3])
    ensures StarSizeAt(t, e) == Some((size, f + 3))
  {
    StartsAtLiteral(t, f, "kB");
    NatAtDecimal(t, e + 1, size);
    SpanEndAt(t, f + 2, IsSpace, f + 3);
  }

  /** `(<flags>)` is read as the flags. */
  lemma FlagsLayout(t: string, g: nat, flags: string) returns (end: nat)
    requires ')' !in flags
    requires StartsAt(t, g, FlagsText(flags))
    ensures end == g + |FlagsText(flags)|
    ensures FlagsAt(t, g) == Some((flags, end))
  {
    var h := g + 1 + |flags|;
    end := h + 1;
    StartsAtConcat(t, g, "(", flags + ")");
    StartsAtConcat(t, g + 1, flags, ")");
    StartsAtLiteral(t, g, "(");
    StartsAtLiteral(t, h, ")");
    forall k | g + 1 <= k < h
      ensures t[k] != ')'
    {
      assert t[k] == t[g + 1..h][k - g - 1];
    }
    SpanEndAt(t, g + 1, Except(')'), h);
  }

  /** The blocks of a buddy row as the kernel prints them, separated by single spaces. */
  function BlocksText(bs: seq<BuddyBlock>): string
    decreases |bs|
  {
    if bs == [] then ""
    else if |bs| == 1 then BlockText(bs[0])
    else BlockText(bs[0]) + " " + BlocksText(bs[1..])
  }

  /** Flags the kernel prints: letters that close no parenthesis, hold no `=` and end no line. */
  predicate PlainBlock(b: BuddyBlock) {
    forall j :: 0 <= j < |b.flags| ==> b.flags[j] != ')' && b.flags[j] != '=' && !IsLineTerminator(b.flags[j])
  }

  predicate PlainFlags(bs: seq<BuddyBlock>) {
    forall k :: 0 <= k < |bs| ==> PlainBlock(bs[k])
  }

  /** Reading the blocks back from printed blocks gives the same blocks, in order. */
  lemma {:induction false} BlocksRoundTrip(bs: seq<BuddyBlock>, t: string, i: nat)
    requires PlainFlags(bs)
    requires i <= |t| && t[i..] == BlocksText(bs)
    ensures BlocksFrom(t, i) == bs
    decreases |bs|, 1
  {
    if bs == [] {
      assert i == |t|;
      BlocksAtEnd(t);
    } else if |bs| == 1 {
      PlainFlagsSplit(bs);
      LastBlock(bs[0], t, i);
      assert bs == [bs[0]];
    } else {
      MoreBlocksRoundTrip(bs, t, i);
    }
  }

  /** Two or more printed blocks: the first, then the rest read back from after the space. */
  lemma {:induction false} MoreBlocksRoundTrip(bs: seq<BuddyBlock>, t: string, i: nat)
    requires |bs| >= 2 && PlainFlags(bs)
    requires i <= |t| && t[i..] == BlocksText(bs)
    ensures BlocksFrom(t, i) == bs
    decreases |bs|, 0
  {
    PlainFlagsSplit(bs);
    var e := BlocksLayout(bs, t, i);
    BlocksRoundTrip(bs[1..], t, e + 1);
    NextBlocks(bs, t, i, e);
  }

  /** A single printed block that ends the text is the only block found. */
  lemma LastBlock(b: BuddyBlock, t: string, i: nat)
    requires ')' !in b.flags
    requires i <= |t| && t[i..] == BlockText(b)
    ensures BlocksFrom(t, i) == [b]
  {
    assert StartsAt(t, i, BlockText(b)) by { assert t[i..] == BlockText(b); }
    BlocksHead(b, t, i, i + |BlockText(b)|);
    BlocksAtEnd(t);
  }

  /** The first block, then the blocks found after the space that follows it. */
  lemma NextBlocks(bs: seq<BuddyBlock>, t: string, i: nat, e: nat)
    requires |bs| >= 2 && ')' !in bs[0].flags
    requires e == i + |BlockText(bs[0])| && e < |t| && t[e] == ' '
    requires StartsAt(t, i, BlockText(bs[0]))
    requires BlocksFrom(t, e + 1) == bs[1..]
    ensures BlocksFrom(t, i) == bs
  {
    BlocksAfterHead(bs[0], t, i, e);
    HeadAndTail(bs, BlocksFrom(t, i), BlocksFrom(t, e + 1));
  }

  lemma HeadAndTail(bs: seq<BuddyBlock>, whole: seq<BuddyBlock>, tail: seq<BuddyBlock>)
    requires bs != [] && whole == [bs[0]] + tail && tail == bs[1..]
    ensures whole == bs
  {
    assert [bs[0]] + bs[1..] == bs;
  }

  /** A printed block and a space: the block, then what is found after the space. */
  lemma BlocksAfterHead(b: BuddyBlock, t: string, i: nat, e: nat)
    requires ')' !in b.flags
    requires e == i + |BlockText(b)| && e < |t| && t[e] == ' '
    requires StartsAt(t, i, BlockText(b))
    ensures BlocksFrom(t, i) == [b] + BlocksFrom(t, e + 1)
  {
    BlocksHead(b, t, i, e);
    BlocksSpace(t, e);
  }

  /** The first block's flags, and the flags of the others, are plain. */
  lemma PlainFlagsSplit(bs: seq<BuddyBlock>)
    requires PlainFlags(bs) && bs != []
    ensures ')' !in bs[0].flags
    ensures PlainFlags(bs[1..])
  {
    assert PlainBlock(bs[0]);
    assert forall j :: 0 <= j < |bs[0].flags| ==> bs[0].flags[j] != ')';
    assert forall k :: 0 <= k < |bs| - 1 ==> bs[1..][k] == bs[k + 1];
  }

  /** Printed blocks, two or more: the first block, one space, the rest. */
  lemma BlocksLayout(bs: seq<BuddyBlock>, t: string, i: nat) returns (e: nat)
    requires |bs| >= 2 && i <= |t| && t[i..] == BlocksText(bs)
    ensures e == i + |BlockText(bs[0])| && e < |t| && t[e] == ' '
    ensures StartsAt(t, i, BlockText(bs[0]))
    ensures t[e + 1..] == BlocksText(bs[1..])
  {
    e := i + |BlockText(bs[0])|;
    SuffixConcat(t, i, BlockText(bs[0]) + " ", BlocksText(bs[1..]));
    StartsAtConcat(t, i, BlockText(bs[0]), " ");
    assert t[e..e + 1] == " ";
  }

  /** A printed block starting at `i` is the first block found from `i`. */
  lemma BlocksHead(b: BuddyBlock, t: string, i: nat, e: nat)
    requires ')' !in b.flags
    requires StartsAt(t, i, BlockText(b)) && e == i + |BlockText(b)|
    ensures e <= |t| && BlocksFrom(t, i) == [b] + BlocksFrom(t, e)
  {
    BlockRoundTrip(b, t, i);
    BlocksFromAt(t, i, b, e);
  }

  /** The space between two blocks starts none. */
  lemma BlocksSpace(t: string, e: nat)
    requires e < |t| && t[e] == ' '
    ensures BlocksFrom(t, e) == BlocksFrom(t, e + 1)
  {
    assert BlockAt(t, e).None?;
    BlocksSkipTo(t, e, e + 1);
  }

  /**
   * The kernel prints a block of zero pages without flags, and the block pattern needs them, so
   * nothing in such a block is read: the search goes on after it.
   */
  lemma EmptyBlockSkipped(size: nat, t: string)
    requires t == [] || (|t| >= 2 && t[0] == ' ' && IsDigit(t[1]))
    ensures var s := "0*" + Decimal(size) + "kB" + t;
      BlocksFrom(s, 0) == BlocksFrom(s, 4 + |Decimal(size)|)
  {
    var s := "0*" + Decimal(size) + "kB" + t;
    var d := |Decimal(size)|;
    EmptyBlockLayout(s, size, t);
    EmptyBlockRead(s, size, t);
  }

  lemma EmptyBlockRead(s: string, size: nat, t: string)
    requires t == [] || (|t| >= 2 && t[0] == ' ' && IsDigit(t[1]))
    requires var d := |Decimal(size)|;
      4 + d <= |s| && s[0] == '0' && s[1] == '*' && StartsAt(s, 2, Decimal(size)) &&
      s[2 + d] == 'k' && s[3 + d] == 'B' && s[4 + d..] == t &&
      forall j :: 2 <= j < 2 + d ==> IsDigit(s[j])
    ensures BlocksFrom(s, 0) == BlocksFrom(s, 4 + |Decimal(size)|)
  {
    var d := |Decimal(size)|;
    EmptyBlockHead(s, size, t);
    EmptyBlockInside(s, d);
    BlocksSkipTo(s, 0, 4 + d);
  }

  /** No block starts inside the zero block after its first digit. */
  lemma EmptyBlockInside(s: string, d: nat)
    requires 4 + d <= |s| && s[1] == '*' && s[2 + d] == 'k' && s[3 + d] == 'B'
    requires forall j :: 2 <= j < 2 + d ==> IsDigit(s[j])
    ensures forall j :: 1 <= j < 4 + d ==> BlockAt(s, j).None?
  {
    forall j | 1 <= j < 4 + d
      ensures BlockAt(s, j).None?
    {
      if 2 <= j < 2 + d {
        SpanEndAt(s, j, IsDigit, 2 + d);
      }
    }
  }

  lemma EmptyBlockLayout(s: string, size: nat, t: string)
    requires s == "0*" + Decimal(size) + "kB" + t
    ensures var d := |Decimal(size)|;
      4 + d <= |s| && s[0] == '0' && s[1] == '*' && StartsAt(s, 2, Decimal(size)) &&
      s[2 + d] == 'k' && s[3 + d] == 'B' && s[4 + d..] == t &&
      forall j :: 2 <= j < 2 + d ==> IsDigit(s[j])
  {
    var d := |Decimal(size)|;
    assert s[2..2 + d] == Decimal(size);
    assert forall j :: 2 <= j < 2 + d ==> s[j] == Decimal(size)[j - 2];
  }

  /** The zero block itself does not match: no `(` follows its unit. */
  lemma EmptyBlockHead(s: string, size: nat, t: string)
    requires t == [] || (|t| >= 2 && t[0] == ' ' && IsDigit(t[1]))
    requires var d := |Decimal(size)|;
      4 + d <= |s| && s[0] == '0' && s[1] == '*' && StartsAt(s, 2, Decimal(size)) &&
      s[2 + d] == 'k' && s[3 + d] == 'B' && s[4 + d..] == t
    ensures BlockAt(s, 0).None?
  {
    var d := |Decimal(size)|;
    assert NatAt(s, 0) == Some((0, 1)) by {
      SpanEndAt(s, 0, IsDigit, 1);
      assert s[0..1] == "0" && NatOf("0") == 0;
    }
    var g := EmptyBlockUnit(s, size, t);
    assert FlagsAt(s, g).None?;
    BlockWithoutFlags(s, 0, 1, g, 0, size);
  }

  /** After the zero block's unit comes either the end of the text or a digit. */
  lemma EmptyBlockUnit(s: string, size: nat, t: string) returns (g: nat)
    requires t == [] || (|t| >= 2 && t[0] == ' ' && IsDigit(t[1]))
    requires var d := |Decimal(size)|;
      4 + d <= |s| && s[1] == '*' && StartsAt(s, 2, Decimal(size)) &&
      s[2 + d] == 'k' && s[3 + d] == 'B' && s[4 + d..] == t
    ensures StarSizeAt(s, 1) == Some((size, g))
    ensures g == |s| || IsDigit(s[g])
  {
    var d := |Decimal(size)|;
    var f := 2 + d;
    assert NatAt(s, 2) == Some((size, f)) by { NatAtDecimal(s, 2, size); }
    assert StartsAt(s, f, "kB") by { assert s[f..f + 2] == "kB"; }
    if t == [] {
      g := |s|;
      assert |s| == 4 + d;
      assert SpanEnd(s, f + 2, IsSpace) == g;
    } else {
      g := 5 + d;
      assert s[4 + d] == ' ' && s[g] == t[1] by {
        assert s[4 + d..][0] == t[0] && s[4 + d..][1] == t[1];
      }
      OneSpace(s, f + 2);
    }
    StarSizeParts(s, 1, f, g, size);
  }

  /** The size pattern read part by part. */
  lemma StarSizeParts(t: string, e: nat, f: nat, g: nat, size: nat)
    requires e < |t| && t[e] == '*' && NatAt(t, e + 1) == Some((size, f)) && StartsAt(t, f, "kB")
    requires SpanEnd(t, f + 2, IsSpace) == g
    ensures StarSizeAt(t, e) == Some((size, g))
  {
  }

  /** A count and a size with no flags after them are no block. */
  lemma BlockWithoutFlags(t: string, i: nat, e: nat, g: nat, count: nat, size: nat)
    requires NatAt(t, i) == Some((count, e))
    requires StarSizeAt(t, e) == Some((size, g))
    requires FlagsAt(t, g).None?
    ensures BlockAt(t, i).None?
  {
  }

  // ---------------------------------------------------------------- the records

  /** The buddy record a line yields: its blocks are read from the lazily matched block text. */
  function BuddyOfLine(line: string): (r: Option<BuddyInfo>)
    ensures r.Some? <==> Leftmost(line, BuddyRowAt).Some?
    ensures r.Some? ==> IsZoneName(r.value.zone)
    ensures r.Some? ==> r.value.node == Leftmost(line, BuddyRowAt).value.0
    ensures r.Some? ==> r.value.zone == Leftmost(line, BuddyRowAt).value.1
    ensures r.Some? ==> r.value.blocks == BlocksFrom(Leftmost(line, BuddyRowAt).value.2, 0)
    ensures r.Some? ==> r.value.total == Leftmost(line, BuddyRowAt).value.3
  {
    var row := Leftmost(line, BuddyRowAt);
    if row.None? then None
    else
      var (node, zone, blockText, total) := row.value;
      Some(BuddyInfo(node, zone, BlocksFrom(blockText, 0), total))
  }

  /** `parseBuddyInfo` */
  method ParseBuddyInfo(lines: seq<string>) returns (buddy: seq<BuddyInfo>)
    ensures buddy == Collect(lines, BuddyOfLine)
  {
    buddy := CollectEach(lines, BuddyOfLine);
  }

  /** No buddy record names plain `DMA`. */
  lemma {:induction false} BuddyZonesAreNamed(lines: seq<string>)
    ensures forall b :: b in Collect(lines, BuddyOfLine) ==> IsZoneName(b.zone) && b.zone != "DMA"
  {
    forall b | b in Collect(lines, BuddyOfLine)
      ensures IsZoneName(b.zone)
    {
      CollectSound(lines, BuddyOfLine, b);
    }
  }

  // ---------------------------------------------------------------- a printed row

  /** The total that ends a printed row. */
  function TotalText(total: nat): string {
    " = " + Decimal(total) + "kB"
  }

  /** What follows the zone name of a printed row: the colon, the blocks and the total. */
  function BuddyTailText(blocks: string, total: nat): string {
    ": " + blocks + TotalText(total)
  }

  /** A buddy row as the kernel prints it: `Node N ZONE: <blocks> = TkB`. */
  function BuddyLine(node: nat, zone: string, bs: seq<BuddyBlock>, total: nat): string {
    "Node " + Decimal(node) + (" " + zone + BuddyTailText(BlocksText(bs), total))
  }

  /** Text the lazy group passes over: no `=` and no line terminator. */
  predicate PlainText(t: string) {
    forall j :: 0 <= j < |t| ==> t[j] != '=' && !IsLineTerminator(t[j])
  }

  /** A printed row of at least one block reads back as its node, zone, blocks and total. */
  lemma BuddyRowRoundTrip(node: nat, zone: string, bs: seq<BuddyBlock>, total: nat)
    requires zone == "DMA32" || zone == "Normal"
    requires bs != [] && PlainFlags(bs)
    ensures BuddyOfLine(BuddyLine(node, zone, bs, total)) == Some(BuddyInfo(node, zone, bs, total))
  {
    var s := BuddyLine(node, zone, bs, total);
    var b := BlocksText(bs);
    BlocksTextShape(bs);
    BuddyRowPrinted(s, node, zone, b, total);
    LeftmostAt(s, BuddyRowAt, 0);
    BlocksRoundTrip(bs, b, 0);
    BuddyOfRow(s);
  }

  lemma BuddyOfRow(s: string)
    requires BuddyRowAt(s, 0).Some?
    ensures Leftmost(s, BuddyRowAt) == BuddyRowAt(s, 0)
    ensures var row := BuddyRowAt(s, 0).value; BuddyOfLine(s) == Some(BuddyInfo(row.0, row.1, BlocksFrom(row.2, 0), row.3))
  {
    LeftmostAt(s, BuddyRowAt, 0);
  }

  /** The printed row matches at its start with the printed captures. */
  lemma BuddyRowPrinted(s: string, node: nat, zone: string, b: string, total: nat)
    requires zone == "DMA32" || zone == "Normal"
    requires b != [] && PlainText(b) && IsDigit(b[0]) && b[|b| - 1] == ')'
    requires s == "Node " + Decimal(node) + (" " + zone + BuddyTailText(b, total))
    ensures BuddyRowAt(s, 0) == Some((node, zone, b, total))
  {
    var tail := " " + zone + BuddyTailText(b, total);
    assert tail[0] == ' ';
    NodeNumberPrinted(s, node, tail);
    BuddyRowAfterNode(s, node, 5 + |Decimal(node)|, zone, b, total);
  }

  lemma BuddyRowAfterNode(s: string, node: nat, e: nat, zone: string, b: string, total: nat)
    requires zone == "DMA32" || zone == "Normal"
    requires b != [] && PlainText(b) && IsDigit(b[0]) && b[|b| - 1] == ')'
    requires NodeNumberAt(s, 0) == Some((node, e))
    requires e <= |s| && s[e..] == " " + zone + BuddyTailText(b, total)
    ensures BuddyRowAt(s, 0) == Some((node, zone, b, total))
  {
    BuddyZoneAfter(s, e, zone, b, total);
    BuddyRowAccepted(s, node, e, e + 1, zone, b, total);
  }

  lemma BuddyRowAccepted(s: string, node: nat, e: nat, z: nat, zone: string, b: string, total: nat)
    requires NodeNumberAt(s, 0) == Some((node, e))
    requires Run1(s, e, IsSpace) == Some(z)
    requires ZoneThen(s, z, BuddyTailAt) == Some((zone, (b, total)))
    ensures BuddyRowAt(s, 0) == Some((node, zone, b, total))
  {
  }

  /** One space, an accepted zone name and a printed tail are read as printed. */
  lemma BuddyZoneAfter(s: string, p: nat, zone: string, b: string, total: nat)
    requires zone == "DMA32" || zone == "Normal"
    requires b != [] && PlainText(b) && IsDigit(b[0]) && b[|b| - 1] == ')'
    requires p <= |s| && s[p..] == " " + zone + BuddyTailText(b, total)
    ensures Run1(s, p, IsSpace) == Some(p + 1)
    ensures ZoneThen(s, p + 1, BuddyTailAt) == Some((zone, (b, total)))
  {
    SuffixConcat(s, p, " " + zone, BuddyTailText(b, total));
    StartsAtConcat(s, p, " ", zone);
    assert s[p] == ' ' by { assert s[p..p + 1] == " "; }
    BuddyTailPrinted(s, p + 1 + |zone|, b, total);
    ZoneRead(s, p, zone, BuddyTailAt, (b, total));
  }

  /** `: <blocks> = TkB` is read as the block text and the total. */
  lemma BuddyTailPrinted(s: string, c: nat, b: string, total: nat)
    requires b != [] && PlainText(b) && IsDigit(b[0]) && b[|b| - 1] == ')'
    requires c <= |s| && s[c..] == BuddyTailText(b, total)
    ensures BuddyTailAt(s, c) == Some((b, total))
  {
    TailTextSplit(s, c, b, total);
    BuddyTailFrom(s, c, c + 2 + |b|, b, total);
  }

  lemma BuddyTailFrom(s: string, c: nat, q: nat, b: string, total: nat)
    requires b != [] && PlainText(b) && IsDigit(b[0]) && b[|b| - 1] == ')'
    requires q == c + 2 + |b| <= |s| && s[c] == ':' && s[c + 1] == ' '
    requires s[c + 2..q] == b && s[q..] == TotalText(total)
    ensures BuddyTailAt(s, c) == Some((b, total))
  {
    TotalPrinted(s, q, total);
    LazyOverBlocks(s, c + 2, q, b, total);
    assert s[c + 2] == b[0];
    BuddyTailRead(s, c, q, total);
  }

  lemma BuddyTailRead(s: string, c: nat, q: nat, total: nat)
    requires c + 2 < |s| && s[c] == ':' && s[c + 1] == ' ' && IsDigit(s[c + 2])
    requires LazyGroupAt(s, c + 2) == Some((q, total))
    ensures BuddyTailAt(s, c) == Some((s[c + 2..q], total))
  {
    OneSpace(s, c + 1);
    assert SpacesThenLazyFrom(s, c + 1, c + 2) == Some((s[c + 2..q], total));
  }

  lemma TailTextSplit(s: string, c: nat, b: string, total: nat)
    requires c <= |s| && s[c..] == BuddyTailText(b, total)
    ensures c + 2 + |b| <= |s| && s[c] == ':' && s[c + 1] == ' '
    ensures s[c + 2..c + 2 + |b|] == b && s[c + 2 + |b|..] == TotalText(total)
  {
    SuffixConcat(s, c, ": " + b, TotalText(total));
    SuffixConcat(s, c, ": ", b + TotalText(total));
    SuffixConcat(s, c + 2, b, TotalText(total));
  }

  /** The lazy group begun on printed blocks stops exactly where they end. */
  lemma LazyOverBlocks(s: string, k: nat, q: nat, b: string, total: nat)
    requires b != [] && PlainText(b) && b[|b| - 1] == ')'
    requires k + |b| == q <= |s| && s[k..q] == b
    requires TotalAt(s, q) == Some(total)
    ensures LazyGroupAt(s, k) == Some((q, total))
  {
    PlainStretch(s, k, q, b);
    assert s[q - 1] == b[|b| - 1];
    if k + 1 < q {
      NoTotalInPlain(s, k + 1, q);
    }
    LazyGroupReaches(s, k, q, total);
  }

  lemma PlainStretch(s: string, lo: nat, hi: nat, b: string)
    requires lo <= hi <= |s| && s[lo..hi] == b && PlainText(b)
    ensures forall j :: lo <= j < hi ==> s[j] != '=' && !IsLineTerminator(s[j])
  {
    forall j | lo <= j < hi
      ensures s[j] != '=' && !IsLineTerminator(s[j])
    {
      assert s[j] == b[j - lo];
    }
  }

  /** A stretch without `=` or line terminators that ends in a non-space starts no total. */
  lemma NoTotalInPlain(s: string, lo: nat, hi: nat)
    requires lo < hi <= |s| && !IsSpace(s[hi - 1])
    requires forall j :: lo <= j < hi ==> s[j] != '=' && !IsLineTerminator(s[j])
    ensures Unstopped(s, lo, hi, TotalAt)
  {
    forall j | lo <= j < hi
      ensures TotalAt(s, j).None? && !IsLineTerminator(s[j])
    {
      var a := SpanEnd(s, j, IsSpace);
    }
  }

  /** ` = TkB` is read as the total. */
  lemma TotalPrinted(s: string, q: nat, total: nat)
    requires q <= |s| && s[q..] == TotalText(total)
    ensures TotalAt(s, q) == Some(total)
  {
    var d := Decimal(total);
    TotalTextSplit(s, q, d);
    TotalRead(s, q, total);
  }

  lemma TotalTextSplit(s: string, q: nat, d: string)
    requires q <= |s| && s[q..] == " = " + d + "kB"
    ensures q + 3 + |d| + 2 <= |s| && s[q] == ' ' && s[q + 1] == '=' && s[q + 2] == ' '
    ensures StartsAt(s, q + 3, d) && StartsAt(s, q + 3 + |d|, "kB")
  {
    SuffixConcat(s, q, " = " + d, "kB");
    SuffixConcat(s, q, " = ", d + "kB");
    SuffixConcat(s, q + 3, d, "kB");
  }

  lemma TotalRead(s: string, q: nat, total: nat)
    requires q + 3 <= |s| && s[q] == ' ' && s[q + 1] == '=' && s[q + 2] == ' '
    requires StartsAt(s, q + 3, Decimal(total)) && StartsAt(s, q + 3 + |Decimal(total)|, "kB")
    ensures TotalAt(s, q) == Some(total)
  {
    var d := Decimal(total);
    assert s[q + 3] == d[0];
    assert s[q + 3 + |d|] == 'k';
    NatAtDecimal(s, q + 3, total);
    TotalReadAt(s, q, total, q + 3 + |d|);
  }

  lemma TotalReadAt(s: string, q: nat, v: nat, e: nat)
    requires q + 3 < |s| && s[q] == ' ' && s[q + 1] == '=' && s[q + 2] == ' ' && IsDigit(s[q + 3])
    requires NatAt(s, q + 3) == Some((v, e)) && StartsAt(s, e, "kB")
    ensures TotalAt(s, q) == Some(v)
  {
    OneSpace(s, q);
    OneSpace(s, q + 2);
  }

  /** A single white-space character followed by another character: `\s*` takes exactly it. */
  lemma OneSpace(s: string, p: nat)
    requires p + 1 < |s| && IsSpace(s[p]) && !IsSpace(s[p + 1])
    ensures Run0(s, p, IsSpace) == p + 1 && SpanEnd(s, p, IsSpace) == p + 1
  {
    SpanEndAt(s, p, IsSpace, p + 1);
  }

  /** Printed blocks begin with a digit, end with `)`, and hold no `=` or line terminator. */
  lemma {:induction false} BlocksTextShape(bs: seq<BuddyBlock>)
    requires bs != [] && PlainFlags(bs)
    ensures var b := BlocksText(bs); b != [] && PlainText(b) && IsDigit(b[0]) && b[|b| - 1] == ')'
    decreases |bs|
  {
    BlockTextShape(bs[0]);
    if |bs| > 1 {
      PlainFlagsSplit(bs);
      assert PlainFlags(bs[1..]) by {
        forall k | 0 <= k < |bs[1..]| ensures PlainBlock(bs[1..][k]) {
          assert bs[1..][k] == bs[k + 1];
        }
      }
      BlocksTextShape(bs[1..]);
      var h := BlockText(bs[0]);
      var t := BlocksText(bs[1..]);
      PlainConcat(h, " ");
      PlainConcat(h + " ", t);
      assert BlocksText(bs) == h + " " + t;
      assert (h + " " + t)[0] == h[0];
    }
  }

  /** A printed block begins with a digit, ends with `)`, and holds no `=` or line terminator. */
  lemma BlockTextShape(b: BuddyBlock)
    requires PlainBlock(b)
    ensures var t := BlockText(b); t != [] && PlainText(t) && IsDigit(t[0]) && t[|t| - 1] == ')'
  {
    var f := b.flags;
    assert PlainText(f);
    PlainConcat(f, ")");
    PlainConcat("(", f + ")");
    PlainConcat(" ", FlagsText(f));
    PlainConcat("kB", " " + FlagsText(f));
    PlainDecimal(b.size);
    PlainConcat(Decimal(b.size), UnitText(f));
    PlainConcat("*", Decimal(b.size) + UnitText(f));
    PlainDecimal(b.count);
    PlainConcat(Decimal(b.count), StarText(b.size, f));
    assert BlockText(b)[0] == Decimal(b.count)[0];
  }

  lemma PlainDecimal(n: nat)
    ensures PlainText(Decimal(n))
  {
  }

  lemma PlainConcat(a: string, b: string)
    requires PlainText(a) && PlainText(b)
    ensures PlainText(a + b)
  {
    forall j | 0 <= j < |a + b|
      ensures (a + b)[j] != '=' && !IsLineTerminator((a + b)[j])
    {
      if j < |a| {
        assert (a + b)[j] == a[j];
      } else {
        assert (a + b)[j] == b[j - |a|];
      }
    }
  }
}
