/**
 * The three ways the parser walks the lines of a log: collect what each line yields
 * (`for ... { if (match) out.push(...) }`), keep what the last matching line yields
 * (`for ... { if (match) field = ... }`), and track whether a scan is between an opening and a
 * closing marker line.  Each is defined on a prefix of the lines and its last line, which is
 * the shape a loop invariant needs.
 */
module Scans {
  import opened Wrappers
  import opened Strings

  function OptList<T>(o: Option<T>): (r: seq<T>)
    ensures o.None? ==> r == []
    ensures o.Some? ==> r == [o.value]
  {
    match o
    case None => []
    case Some(v) => [v]
  }

  /** What `f` yields for each line, in line order; lines it yields nothing for contribute nothing. */
  function Collect<T>(ls: seq<string>, f: string -> Option<T>): (r: seq<T>)
    ensures |r| <= |ls|
  {
    if ls == [] then [] else Collect(ls[..|ls| - 1], f) + OptList(f(ls[|ls| - 1]))
  }

  /** Everything collected comes from some line. */
  lemma {:induction false} CollectSound<T>(ls: seq<string>, f: string -> Option<T>, x: T)
    requires x in Collect(ls, f)
    ensures exists k :: 0 <= k < |ls| && f(ls[k]) == Some(x)
  {
    var n := |ls| - 1;
    if x in Collect(ls[..n], f) {
      CollectSound(ls[..n], f, x);
      var k :| 0 <= k < n && f(ls[..n][k]) == Some(x);
      assert ls[..n][k] == ls[k];
    } else {
      assert f(ls[n]) == Some(x);
    }
  }

  /** Every line that yields something is collected. */
  lemma {:induction false} CollectComplete<T>(ls: seq<string>, f: string -> Option<T>, k: nat)
    requires k < |ls| && f(ls[k]).Some?
    ensures f(ls[k]).value in Collect(ls, f)
  {
    var n := |ls| - 1;
    if k < n {
      assert ls[..n][k] == ls[k];
      CollectComplete(ls[..n], f, k);
    }
  }

  /** Like `Collect`, but what a line yields may depend on the lines before it. */
  function CollectInContext<T>(ls: seq<string>, f: (seq<string>, string) -> Option<T>): (r: seq<T>)
    ensures |r| <= |ls|
  {
    if ls == [] then [] else CollectInContext(ls[..|ls| - 1], f) + OptList(f(ls[..|ls| - 1], ls[|ls| - 1]))
  }

  lemma {:induction false} CollectInContextSound<T>(ls: seq<string>, f: (seq<string>, string) -> Option<T>, x: T)
    requires x in CollectInContext(ls, f)
    ensures exists k :: 0 <= k < |ls| && f(ls[..k], ls[k]) == Some(x)
  {
    var n := |ls| - 1;
    if x in CollectInContext(ls[..n], f) {
      CollectInContextSound(ls[..n], f, x);
      var k :| 0 <= k < n && f(ls[..n][..k], ls[..n][k]) == Some(x);
      assert ls[..n][..k] == ls[..k] && ls[..n][k] == ls[k];
    } else {
      assert f(ls[..n], ls[n]) == Some(x);
    }
  }

  lemma {:induction false} CollectInContextComplete<T>(ls: seq<string>, f: (seq<string>, string) -> Option<T>, k: nat)
    requires k < |ls| && f(ls[..k], ls[k]).Some?
    ensures f(ls[..k], ls[k]).value in CollectInContext(ls, f)
  {
    var n := |ls| - 1;
    if k < n {
      assert ls[..n][..k] == ls[..k] && ls[..n][k] == ls[k];
      CollectInContextComplete(ls[..n], f, k);
    }
  }

  /** A scan that yields whenever another does yields at least as many items. */
  lemma {:induction false} CollectInContextFewer<T, U>(ls: seq<string>, f: (seq<string>, string) -> Option<T>,
                                                       g: (seq<string>, string) -> Option<U>)
    requires forall k :: 0 <= k < |ls| && f(ls[..k], ls[k]).Some? ==> g(ls[..k], ls[k]).Some?
    ensures |CollectInContext(ls, f)| <= |CollectInContext(ls, g)|
  {
    if ls != [] {
      var n := |ls| - 1;
      var p := ls[..n];
      forall k | 0 <= k < |p| && f(p[..k], p[k]).Some? ensures g(p[..k], p[k]).Some? {
        assert p[..k] == ls[..k] && p[k] == ls[k];
      }
      CollectInContextFewer(p, f, g);
      assert ls[..n] == p;
    }
  }

  /** A scan that yields nothing for any line collects nothing. */
  lemma {:induction false} CollectInContextNone<T>(ls: seq<string>, f: (seq<string>, string) -> Option<T>)
    requires forall k :: 0 <= k < |ls| ==> f(ls[..k], ls[k]).None?
    ensures CollectInContext(ls, f) == []
  {
    if ls != [] {
      var n := |ls| - 1;
      var p := ls[..n];
      forall k | 0 <= k < |p| ensures f(p[..k], p[k]).None? {
        assert p[..k] == ls[..k] && p[k] == ls[k];
      }
      CollectInContextNone(p, f);
    }
  }

  /** What the first lines yield comes first: the result for a prefix is a prefix of the result. */
  lemma {:induction false} CollectInContextPrefix<T>(ls: seq<string>, f: (seq<string>, string) -> Option<T>, i: nat)
    requires i <= |ls|
    ensures CollectInContext(ls[..i], f) <= CollectInContext(ls, f)
    decreases |ls| - i
  {
    if i < |ls| {
      CollectInContextPrefix(ls, f, i + 1);
      assert ls[..i + 1][..i] == ls[..i];
    } else {
      assert ls[..i] == ls;
    }
  }

  /** What the last line that yields anything yields: a later match overwrites an earlier one. */
  function LastSome<T>(ls: seq<string>, f: string -> Option<T>): (r: Option<T>)
    ensures r.None? <==> forall k :: 0 <= k < |ls| ==> f(ls[k]).None?
    ensures r.Some? ==> exists k :: 0 <= k < |ls| && f(ls[k]) == r && forall j :: k < j < |ls| ==> f(ls[j]).None?
  {
    if ls == [] then None
    else if f(ls[|ls| - 1]).Some? then f(ls[|ls| - 1])
    else
      var r := LastSome(ls[..|ls| - 1], f);
      LastSomeExtend(ls, ls[..|ls| - 1], f, r);
      r
  }

  /** A last line that yields nothing leaves the reading of the lines before it in force. */
  lemma LastSomeExtend<T>(ls: seq<string>, p: seq<string>, f: string -> Option<T>, r: Option<T>)
    requires ls != [] && p == ls[..|ls| - 1] && f(ls[|ls| - 1]).None?
    requires r.None? <==> forall k :: 0 <= k < |p| ==> f(p[k]).None?
    requires r.Some? ==> exists k :: 0 <= k < |p| && f(p[k]) == r && forall j :: k < j < |p| ==> f(p[j]).None?
    ensures r.None? <==> forall k :: 0 <= k < |ls| ==> f(ls[k]).None?
    ensures r.Some? ==> exists k :: 0 <= k < |ls| && f(ls[k]) == r && forall j :: k < j < |ls| ==> f(ls[j]).None?
  {
    assert forall k :: 0 <= k < |p| ==> p[k] == ls[k];
    if r.Some? {
      var k :| 0 <= k < |p| && f(p[k]) == r && forall j :: k < j < |p| ==> f(p[j]).None?;
      LastWitness(ls, p, f, r, k);
    }
  }

  lemma LastWitness<T>(ls: seq<string>, p: seq<string>, f: string -> Option<T>, r: Option<T>, k: nat)
    requires ls != [] && p == ls[..|ls| - 1] && f(ls[|ls| - 1]).None?
    requires k < |p| && f(p[k]) == r && forall j :: k < j < |p| ==> f(p[j]).None?
    ensures k < |ls| && f(ls[k]) == r && forall j :: k < j < |ls| ==> f(ls[j]).None?
  {
    assert forall j :: 0 <= j < |p| ==> p[j] == ls[j];
  }

  /** Reading one more line of `ls` adds what that line yields. */
  lemma CollectPrefixStep<T>(ls: seq<string>, f: string -> Option<T>, i: nat)
    requires i < |ls|
    ensures Collect(ls[..i + 1], f) == Collect(ls[..i], f) + OptList(f(ls[i]))
  {
    assert ls[..i + 1][..i] == ls[..i];
  }

  /**
   * The scan loop shared by the extractors that keep every match: each line is tried once, in
   * order, and what it yields is appended.
   */
  method CollectEach<T>(ls: seq<string>, f: string -> Option<T>) returns (r: seq<T>)
    ensures r == Collect(ls, f)
  {
    r := [];
    for i := 0 to |ls|
      invariant r == Collect(ls[..i], f)
    {
      CollectPrefixStep(ls, f, i);
      var found := f(ls[i]);
      if found.Some? {
        r := r + [found.value];
      }
    }
    assert ls[..|ls|] == ls;
  }

  /** Reading one more line of `ls` replaces the last reading when that line yields one. */
  lemma LastSomePrefixStep<T>(ls: seq<string>, f: string -> Option<T>, i: nat)
    requires i < |ls|
    ensures LastSome(ls[..i + 1], f) == if f(ls[i]).Some? then f(ls[i]) else LastSome(ls[..i], f)
  {
    assert ls[..i + 1][..i] == ls[..i];
  }

  /** The line that yields something with no later line yielding anything decides the result. */
  lemma LastSomeIs<T>(ls: seq<string>, f: string -> Option<T>, k: nat)
    requires k < |ls| && f(ls[k]).Some?
    requires forall j :: k < j < |ls| ==> f(ls[j]).None?
    ensures LastSome(ls, f) == f(ls[k])
  {
  }

  /** One more line: its reading if it has one, else what the lines before it gave. */
  lemma LastSomeStep<T>(ls: seq<string>, f: string -> Option<T>)
    requires ls != []
    ensures LastSome(ls, f) == if f(ls[|ls| - 1]).Some? then f(ls[|ls| - 1]) else LastSome(ls[..|ls| - 1], f)
  {
  }

  /**
   * Whether a scan that opens a region at a line containing `open` and closes it at a line
   * containing `close` (the opening test taking precedence) is inside the region once it has
   * read `ls`.
   */
  function RegionOpenAfter(ls: seq<string>, open: string, close: string): bool {
    if ls == [] then false
    else if Contains(ls[|ls| - 1], open) then true
    else if Contains(ls[|ls| - 1], close) then false
    else RegionOpenAfter(ls[..|ls| - 1], open, close)
  }

  /** A region that no line opens is never entered. */
  lemma {:induction false} NeverOpened(ls: seq<string>, open: string, close: string)
    requires forall k :: 0 <= k < |ls| ==> !Contains(ls[k], open)
    ensures !RegionOpenAfter(ls, open, close)
  {
    if ls != [] {
      var p := ls[..|ls| - 1];
      assert forall k :: 0 <= k < |p| ==> p[k] == ls[k];
      NeverOpened(p, open, close);
    }
  }

  /** A line containing either marker is a marker line. */
  predicate IsMarker(line: string, open: string, close: string) {
    Contains(line, open) || Contains(line, close)
  }

  /** The last marker line of `ls` is an opening one. */
  ghost predicate LastMarkerOpens(ls: seq<string>, open: string, close: string) {
    exists j :: 0 <= j < |ls| && Contains(ls[j], open) && NoMarkerAfter(ls, j, open, close)
  }

  ghost predicate NoMarkerAfter(ls: seq<string>, j: int, open: string, close: string) {
    forall m :: j < m < |ls| && m >= 0 ==> !IsMarker(ls[m], open, close)
  }

  /** The scan is inside the region exactly when the last marker line it has read is an opening one. */
  lemma {:induction false} RegionOpenAfterIff(ls: seq<string>, open: string, close: string)
    ensures RegionOpenAfter(ls, open, close) <==> LastMarkerOpens(ls, open, close)
  {
    if RegionOpenAfter(ls, open, close) {
      RegionOpenAfterWitness(ls, open, close);
    }
    if LastMarkerOpens(ls, open, close) {
      var j :| 0 <= j < |ls| && Contains(ls[j], open) && NoMarkerAfter(ls, j, open, close);
      OpenedRegionStaysOpen(ls, open, close, j);
    }
  }

  lemma {:induction false} RegionOpenAfterWitness(ls: seq<string>, open: string, close: string)
    requires RegionOpenAfter(ls, open, close)
    ensures LastMarkerOpens(ls, open, close)
  {
    var n := |ls| - 1;
    if Contains(ls[n], open) {
      assert NoMarkerAfter(ls, n, open, close);
    } else {
      var p := ls[..n];
      RegionOpenAfterWitness(p, open, close);
      var j :| 0 <= j < n && Contains(p[j], open) && NoMarkerAfter(p, j, open, close);
      assert p[j] == ls[j];
      forall m | j < m < |ls| ensures !IsMarker(ls[m], open, close) {
        if m < n {
          assert p[m] == ls[m];
        }
      }
      assert NoMarkerAfter(ls, j, open, close);
    }
  }

  lemma {:induction false} OpenedRegionStaysOpen(ls: seq<string>, open: string, close: string, j: nat)
    requires j < |ls| && Contains(ls[j], open) && NoMarkerAfter(ls, j, open, close)
    ensures RegionOpenAfter(ls, open, close)
  {
    var n := |ls| - 1;
    if j < n {
      assert !IsMarker(ls[n], open, close);
      var p := ls[..n];
      assert p[j] == ls[j];
      forall m | j < m < n ensures !IsMarker(p[m], open, close) {
        assert p[m] == ls[m];
      }
      OpenedRegionStaysOpen(p, open, close, j);
    }
  }
}
