/** Finding a file on a raw disk by its time stamp: a shrinking range of offsets, probed in its middle. */
module DiskSearch {
  import opened IndexList

  const SEARCH_SIZE_WINDOW: nat := 4 * 1048576
  const SEARCH_TIME_WINDOW: nat := 60
  const PAGE: nat := 0x2000

  /** Disk offsets lo up to hi. */
  datatype Range = Range(lo: nat, hi: nat)

  datatype Option<T> = Some(value: T) | None

  /** Arithmetic on uint64_t. */
  function Wrapped(x: int): nat {
    x % 0x1_0000_0000_0000_0000
  }

  /** Clearing the bits below a page. */
  function PageOf(x: nat): (p: nat)
    ensures p <= x < p + PAGE
  {
    x - x % PAGE
  }

  /** get_search_window: a window in the middle of the range, from a page boundary on. */
  function SearchWindow(r: Range): Option<Range> {
    if Wrapped(r.hi - r.lo) < SEARCH_SIZE_WINDOW || r.lo > r.hi then None
    else
      var middle := Wrapped(r.hi + r.lo) / 2;
      Some(Range(PageOf(Wrapped(middle - SEARCH_SIZE_WINDOW / 2)), Wrapped(middle + SEARCH_SIZE_WINDOW / 2)))
  }

  /** Offsets of a disk: their sum does not wrap around. */
  predicate Reachable(r: Range) {
    r.lo < 0x7fff_ffff_ff00_0000 && r.hi < 0x7fff_ffff_ff00_0000
  }

  method GetSearchWindow(r: Range) returns (status: int, s: Range)
    ensures SearchWindow(r) == if status == 0 then Some(s) else None
    ensures (status == 0 || status == -1) && (Reachable(r) ==> (status == 0 <==> r.lo + SEARCH_SIZE_WINDOW <= r.hi))
  {
    s := Range(0, 0);
    if Wrapped(r.hi - r.lo) < SEARCH_SIZE_WINDOW || r.lo > r.hi {
      return -1, s;
    }
    var middle := Wrapped(r.hi + r.lo) / 2;
    s := Range(PageOf(Wrapped(middle - SEARCH_SIZE_WINDOW / 2)), s.hi);
    s := Range(s.lo, Wrapped(middle + SEARCH_SIZE_WINDOW / 2));
    return 0, s;
  }

  lemma NoWrap(x: nat)
    requires x < 0x1_0000_0000_0000_0000
    ensures Wrapped(x) == x
  {
  }

  /** On a disk nothing wraps around. */
  lemma WindowIs(r: Range)
    requires Reachable(r)
    ensures SearchWindow(r) == if r.lo + SEARCH_SIZE_WINDOW > r.hi then None
                               else Some(Range(PageOf((r.hi + r.lo) / 2 - SEARCH_SIZE_WINDOW / 2),
                                               (r.hi + r.lo) / 2 + SEARCH_SIZE_WINDOW / 2))
  {
    hide Wrapped, PageOf;
    NoWrap(r.hi + r.lo);
    if r.lo + SEARCH_SIZE_WINDOW <= r.hi {
      NoWrap(r.hi - r.lo);
      NoWrap((r.hi + r.lo) / 2 - SEARCH_SIZE_WINDOW / 2);
      NoWrap((r.hi + r.lo) / 2 + SEARCH_SIZE_WINDOW / 2);
    } else if r.lo <= r.hi {
      NoWrap(r.hi - r.lo);
    }
  }

  /** In numbers: 2 MiB on either side of the middle, down to a multiple of 8192 bytes. */
  lemma WindowInNumbers(r: Range)
    requires Reachable(r)
    ensures SearchWindow(r).Some? <==> r.lo + 4194304 <= r.hi
    ensures SearchWindow(r).Some? ==>
      var w, middle := SearchWindow(r).value, (r.lo + r.hi) / 2;
      w.hi == middle + 2097152 && w.lo % 8192 == 0 && w.lo <= middle - 2097152 < w.lo + 8192
  {
    hide SearchWindow, PageOf;
    WindowIs(r);
    if r.lo + SEARCH_SIZE_WINDOW <= r.hi {
      PageStarts((r.lo + r.hi) / 2 - SEARCH_SIZE_WINDOW / 2);
    }
  }

  lemma PageStarts(x: nat)
    ensures PageOf(x) % 8192 == 0
  {
  }

  /** Where the sum of both ends takes more than 64 bits, the window lies below the range altogether. */
  lemma WindowWraps(r: Range)
    requires r.hi < 0x1_0000_0000_0000_0000 && r.lo + SEARCH_SIZE_WINDOW <= r.hi
    requires r.lo + r.hi >= 0x1_0000_0000_0000_0000 + SEARCH_SIZE_WINDOW
    ensures SearchWindow(r).Some?
    ensures var w, middle := SearchWindow(r).value, (r.lo + r.hi - 0x1_0000_0000_0000_0000) / 2;
      && w.hi == middle + SEARCH_SIZE_WINDOW / 2 <= r.lo
      && w.lo <= middle - SEARCH_SIZE_WINDOW / 2 < w.lo + PAGE
  {
    hide PageOf, Wrapped;
    var over, middle := r.lo + r.hi - 0x1_0000_0000_0000_0000, (r.lo + r.hi - 0x1_0000_0000_0000_0000) / 2;
    OneLap(over);
    NoWrap(r.hi - r.lo);
    NoWrap(middle - SEARCH_SIZE_WINDOW / 2);
    NoWrap(middle + SEARCH_SIZE_WINDOW / 2);
  }

  lemma OneLap(x: nat)
    requires x < 0x1_0000_0000_0000_0000
    ensures Wrapped(x + 0x1_0000_0000_0000_0000) == x
  {
  }

  /** The window lies in the range, but for less than a page below it, and is at most a page too long; either
      part that is left is at most half the range, rounded up, less half a window. */
  lemma WindowSplits(r: Range)
    requires Reachable(r) && SearchWindow(r).Some?
    ensures var w := SearchWindow(r).value; var length := r.hi - r.lo;
      && length >= SEARCH_SIZE_WINDOW
      && r.lo < w.lo + PAGE && w.lo < w.hi <= r.hi && SEARCH_SIZE_WINDOW <= w.hi - w.lo < SEARCH_SIZE_WINDOW + PAGE
      && w.lo as int - r.lo <= (length + 1) / 2 - SEARCH_SIZE_WINDOW / 2
      && r.hi - w.hi <= (length + 1) / 2 - SEARCH_SIZE_WINDOW / 2
  {
    hide SearchWindow, PageOf;
    WindowIs(r);
  }

  /** What find_in_window reads off the disk. */
  datatype Image = Image(rawtime: int, usec: nat, port: nat, fSize: nat, fOffset: nat)

  predicate InTime(f: Image, rawtime: int) {
    Distance(f.rawtime, rawtime) <= SEARCH_TIME_WINDOW
  }

  /** The part of the range that is searched on, after `probe` found this in window w. */
  function Narrowed(r: Range, w: Range, found: Option<Image>, rawtime: int): Range {
    if found.Some? && found.value.rawtime <= rawtime then Range(w.hi, r.hi) else Range(r.lo, w.lo)
  }

  /** A potential that halves with every window. */
  function Potential(r: Range): nat {
    if r.lo <= r.hi then r.hi - r.lo + SEARCH_SIZE_WINDOW - 1 else 0
  }

  lemma NarrowedHalves(r: Range, found: Option<Image>, rawtime: int)
    requires Reachable(r) && SearchWindow(r).Some?
    ensures var n := Narrowed(r, SearchWindow(r).value, found, rawtime);
      Reachable(n) && 2 * Potential(n) <= Potential(r) && Potential(r) >= 2 * SEARCH_SIZE_WINDOW - 1
      && r.lo < n.lo + PAGE && n.hi <= r.hi
  {
    hide SearchWindow;
    WindowSplits(r);
  }

  /** The files the search looks at, one window after the other, until one is in time or the range is used up. */
  datatype Search = Search(windows: nat, files: seq<Image>, hit: bool)

  function Searched(r: Range, rawtime: int, probe: Range -> Option<Image>): (s: Search)
    requires Reachable(r)
    decreases Potential(r)
  {
    var w := SearchWindow(r);
    if w == None then Search(0, [], false)
    else
      var found := probe(w.value);
      if found.Some? && InTime(found.value, rawtime) then Search(1, [found.value], true)
      else
        NarrowedHalves(r, found, rawtime);
        var rest := Searched(Narrowed(r, w.value, found, rawtime), rawtime, probe);
        Search(1 + rest.windows, (if found.Some? then [found.value] else []) + rest.files, rest.hit)
  }

  function Pow2(n: nat): nat {
    if n == 0 then 1 else 2 * Pow2(n - 1)
  }

  /** Logarithmically many windows: n of them need a range of about 2^n windows. */
  predicate Few(n: nat, r: Range) {
    n > 0 ==> Pow2(n - 1) * (2 * SEARCH_SIZE_WINDOW - 1) <= Potential(r)
  }

  lemma {:induction false} FewWindows(r: Range, rawtime: int, probe: Range -> Option<Image>)
    requires Reachable(r)
    ensures Few(Searched(r, rawtime, probe).windows, r)
    decreases Potential(r)
  {
    hide SearchWindow, Narrowed, Potential, Pow2;
    var w := SearchWindow(r);
    if w.Some? {
      var found := probe(w.value);
      NarrowedHalves(r, found, rawtime);
      var n := Searched(r, rawtime, probe).windows;
      if found.None? || !InTime(found.value, rawtime) {
        FewWindows(Narrowed(r, w.value, found, rawtime), rawtime, probe);
      }
      PowStep(n);
    }
  }

  lemma PowStep(n: nat)
    ensures Pow2(0) == 1 && (n > 1 ==> Pow2(n - 1) == 2 * Pow2(n - 2))
  {
  }

  lemma {:induction false} LastHit(r: Range, rawtime: int, probe: Range -> Option<Image>)
    requires Reachable(r)
    ensures var s := Searched(r, rawtime, probe);
      && (s.hit ==> s.files != [] && InTime(s.files[|s.files| - 1], rawtime))
      && forall i :: 0 <= i < (if s.hit then |s.files| - 1 else |s.files|) ==> !InTime(s.files[i], rawtime)
    decreases Potential(r)
  {
    hide SearchWindow, Narrowed, Potential, InTime;
    var w := SearchWindow(r);
    if w.Some? {
      var found := probe(w.value);
      NarrowedHalves(r, found, rawtime);
      if found.None? || !InTime(found.value, rawtime) {
        LastHit(Narrowed(r, w.value, found, rawtime), rawtime, probe);
      }
    }
  }

  /** A hit is the last file looked at and within a minute of the target; all files before it are further off. */
  lemma OnlyTheLastHits(r: Range, rawtime: int, probe: Range -> Option<Image>)
    requires Reachable(r)
    ensures var s := Searched(r, rawtime, probe);
      && (s.hit ==> s.files != [] && -60 <= s.files[|s.files| - 1].rawtime - rawtime <= 60)
      && forall i :: 0 <= i < (if s.hit then |s.files| - 1 else |s.files|) ==> !(-60 <= s.files[i].rawtime - rawtime <= 60)
  {
    LastHit(r, rawtime, probe);
    hide Searched;
  }

  lemma HitInTime(r: Range, rawtime: int, probe: Range -> Option<Image>)
    requires Reachable(r)
    ensures var s := Searched(r, rawtime, probe);
      s.hit ==> s.files != [] && Distance(s.files[|s.files| - 1].rawtime, rawtime) <= SEARCH_TIME_WINDOW
  {
    LastHit(r, rawtime, probe);
  }

  /** A window of the length the search uses, in the range but for less than a page. */
  predicate Probed(w: Range, r: Range) {
    r.lo < w.lo + PAGE && w.hi <= r.hi && w.lo + SEARCH_SIZE_WINDOW <= w.hi < w.lo + SEARCH_SIZE_WINDOW + PAGE
  }

  /** Every file looked at was found in such a window. */
  lemma {:induction false} FilesAreProbed(r: Range, rawtime: int, probe: Range -> Option<Image>, f: Image)
    requires Reachable(r) && f in Searched(r, rawtime, probe).files
    ensures exists w: Range :: probe(w) == Some(f) && Probed(w, r)
    decreases Potential(r)
  {
    hide SearchWindow, Potential, InTime;
    var w := SearchWindow(r).value;
    var found := probe(w);
    WindowSplits(r);
    assert Probed(w, r);
    if found != Some(f) {
      NarrowedHalves(r, found, rawtime);
      FilesAreProbed(Narrowed(r, w, found, rawtime), rawtime, probe, f);
    }
  }

  // ---------- find_disk_index ----------

  /** Where the search starts: from the nearest known file to its neighbour on the side of the target. */
  function StartRange(offsets: seq<nat>, times: seq<int>, k: nat, rawtime: int, startPos: nat, endPos: nat): Range
    requires |offsets| == |times| && (offsets == [] || k < |offsets|)
  {
    if offsets == [] then Range(startPos, endPos)
    else if rawtime > times[k] then Range(offsets[k], if k + 1 < |offsets| then offsets[k + 1] else endPos)
    else Range(if k > 0 then offsets[k - 1] else startPos, offsets[k])
  }

  ghost function Offsets(idir: DiskIdir): (o: seq<nat>)
    reads idir, idir.nodes
    ensures |o| == |idir.nodes| && forall i :: 0 <= i < |o| ==> o[i] == idir.nodes[i].fOffset
  {
    seq(|idir.nodes|, i requires 0 <= i < |idir.nodes| reads idir, idir.nodes => idir.nodes[i].fOffset)
  }

  /** The times of a sparse directory into which the files were inserted, first one first. */
  function Inserted(times: seq<int>, files: seq<Image>): (r: seq<int>)
    ensures |r| == |times| + |files|
  {
    if files == [] then times
    else
      var t := files[|files| - 1].rawtime;
      var before := Inserted(times, files[..|files| - 1]);
      InsertAt(before, Position(before, t), t)
  }

  lemma {:induction false} InsertedSorted(times: seq<int>, files: seq<Image>)
    ensures Sorted(Inserted(times, files)) <==> Sorted(times)
    decreases |files|
  {
    if files != [] {
      var before := Inserted(times, files[..|files| - 1]);
      InsertedSorted(times, files[..|files| - 1]);
      InsertKeepsSorted(before, files[|files| - 1].rawtime);
    }
  }

  lemma InsertedNext(times: seq<int>, files: seq<Image>, f: Image)
    ensures Inserted(times, files + [f])
         == InsertAt(Inserted(times, files), Position(Inserted(times, files), f.rawtime), f.rawtime)
  {
  }

  /** Entries of a directory with these times, and the new ones in the places the files take. */
  function Placed<T>(all: seq<T>, times: seq<int>, news: seq<T>, files: seq<Image>): (r: seq<T>)
    requires |all| == |times| && |news| == |files|
    ensures |r| == |all| + |files|
  {
    if files == [] then all
    else
      var n := |files| - 1;
      InsertAt(Placed(all, times, news[..n], files[..n]), Position(Inserted(times, files[..n]), files[n].rawtime), news[n])
  }

  lemma PlacedNone<T>(all: seq<T>, times: seq<int>)
    requires |all| == |times|
    ensures Placed(all, times, [], []) == all
  {
  }

  lemma PlacedNext<T>(all: seq<T>, times: seq<int>, news: seq<T>, files: seq<Image>, x: T, f: Image)
    requires |all| == |times| && |news| == |files|
    ensures Placed(all, times, news + [x], files + [f])
         == InsertAt(Placed(all, times, news, files), Position(Inserted(times, files), f.rawtime), x)
  {
    assert (news + [x])[..|news|] == news && (files + [f])[..|files|] == files;
  }

  lemma PlacedOne<T>(all: seq<T>, times: seq<int>, x: T, f: Image)
    requires |all| == |times|
    ensures Placed(all, times, [x], [f]) == InsertAt(all, Position(times, f.rawtime), x)
  {
    PlacedNext(all, times, [], [], x, f);
    assert [] + [x] == [x] && [] + [f] == [f];
  }

  lemma {:induction false} PlacedTwice<T>(all: seq<T>, times: seq<int>, m: seq<T>, a: seq<Image>, n: seq<T>, b: seq<Image>)
    requires |all| == |times| && |m| == |a| && |n| == |b|
    ensures Placed(Placed(all, times, m, a), Inserted(times, a), n, b) == Placed(all, times, m + n, a + b)
    decreases |b|
  {
    if b == [] {
      assert a + b == a && m + n == m;
    } else {
      hide Placed, Inserted, InsertAt, Position;
      var k := |b| - 1;
      PlacedTwice(all, times, m, a, n[..k], b[..k]);
      InsertedTwice(times, a, b[..k]);
      PlacedNext(Placed(all, times, m, a), Inserted(times, a), n[..k], b[..k], n[k], b[k]);
      PlacedNext(all, times, m + n[..k], a + b[..k], n[k], b[k]);
      LastApart(m, n);
      LastApart(a, b);
    }
  }

  lemma LastApart<T>(a: seq<T>, b: seq<T>)
    requires b != []
    ensures b[..|b| - 1] + [b[|b| - 1]] == b && a + b[..|b| - 1] + [b[|b| - 1]] == a + b
  {
  }

  /** The node holds what was read off the disk. */
  predicate Describes(n: DiskIndex, f: Image)
    reads n`rawtime, n`usec, n`port, n`fSize, n`fOffset
  {
    n.rawtime == f.rawtime && n.usec == f.usec && n.port == f.port && n.fSize == f.fSize && n.fOffset == f.fOffset
  }

  /** One node for each file, in the same order. */
  ghost predicate Holding(news: seq<DiskIndex>, files: seq<Image>)
    reads news`rawtime, news`usec, news`port, news`fSize, news`fOffset
  {
    |news| == |files| && forall i :: 0 <= i < |news| ==> Describes(news[i], files[i])
  }

  lemma HoldingBoth(a: seq<DiskIndex>, f: seq<Image>, b: seq<DiskIndex>, g: seq<Image>)
    requires Holding(a, f) && Holding(b, g)
    ensures Holding(a + b, f + g)
  {
  }

  /** The list has kept its nodes and got the new ones, each once. */
  ghost predicate Grown(before: seq<DiskIndex>, after: seq<DiskIndex>, news: seq<DiskIndex>) {
    multiset(after) == multiset(before) + multiset(news)
  }

  lemma {:induction false} PlacedGrows(all: seq<DiskIndex>, times: seq<int>, news: seq<DiskIndex>, files: seq<Image>)
    requires |all| == |times| && |news| == |files|
    ensures Grown(all, Placed(all, times, news, files), news)
    decreases |files|
  {
    if files != [] {
      var n := |files| - 1;
      var before := Placed(all, times, news[..n], files[..n]);
      PlacedGrows(all, times, news[..n], files[..n]);
      InsertedOnce(before, Position(Inserted(times, files[..n]), files[n].rawtime), news[n]);
      assert news == news[..n] + [news[n]];
    }
  }

  /** The node returned is the last new one. */
  ghost predicate EndsIn(news: seq<DiskIndex>, ret: DiskIndex?) {
    ret != null ==> news != [] && ret == news[|news| - 1]
  }

  lemma EndsWith(m: seq<DiskIndex>, n: seq<DiskIndex>, ret: DiskIndex?)
    requires EndsIn(n, ret)
    ensures EndsIn(m + n, ret)
  {
  }

  lemma LastHeld(news: seq<DiskIndex>, files: seq<Image>, ret: DiskIndex)
    requires Holding(news, files) && EndsIn(news, ret)
    ensures files != [] && ret.rawtime == files[|files| - 1].rawtime
  {
  }

  lemma HeldAll(news: seq<DiskIndex>, files: seq<Image>)
    requires Holding(news, files)
    ensures |news| == |files|
  {
  }

  method NewNode(f: Image) returns (n: DiskIndex)
    ensures fresh(n) && n.next == null && n.prev == null && Describes(n, f)
  {
    n := new DiskIndex();
    n.rawtime, n.usec, n.port, n.fSize, n.fOffset := f.rawtime, f.usec, f.port, f.fSize, f.fOffset;
  }

  /** A new node for what was found, put into the directory. */
  method AddFile(idir: DiskIdir, f: Image) returns (n: DiskIndex)
    requires idir.Valid()
    modifies idir, idir.Repr`next, idir.Repr`prev
    ensures idir.Valid() && fresh(n) && Describes(n, f) && n.rawtime == f.rawtime
    ensures idir.nodes == InsertAt(old(idir.nodes), Position(old(idir.Times()), f.rawtime), n)
    ensures fresh(idir.Repr - old(idir.Repr))
    ensures idir.Times() == InsertAt(old(idir.Times()), Position(old(idir.Times()), f.rawtime), f.rawtime)
  {
    hide Position, Sorted, InsertAt, DiskIdir.Valid, DiskIdir.Times;
    n := NewNode(f);
    assert idir.Times() == old(idir.Times());
    InsertElements(idir.nodes, Position(idir.Times(), f.rawtime), n);
    var size := idir.InsertNode(n);
  }

  /** One round of the search. */
  lemma SearchedStep(r: Range, rawtime: int, probe: Range -> Option<Image>)
    requires Reachable(r)
    ensures var s := Searched(r, rawtime, probe);
      if SearchWindow(r).None? then s.files == [] && !s.hit && s.windows == 0
      else
        var found := probe(SearchWindow(r).value);
        var n := Narrowed(r, SearchWindow(r).value, found, rawtime);
        && Reachable(n) && Potential(n) < Potential(r)
        && (found.None? ==> s.files == [] + Searched(n, rawtime, probe).files && s.hit == Searched(n, rawtime, probe).hit)
        && s.windows == 1 + (if found.Some? && InTime(found.value, rawtime) then 0 else Searched(n, rawtime, probe).windows)
        && (found.Some? && InTime(found.value, rawtime) ==> s.files == [found.value] && s.hit)
        && (found.Some? && !InTime(found.value, rawtime) ==>
              s.files == [found.value] + Searched(n, rawtime, probe).files && s.hit == Searched(n, rawtime, probe).hit)
  {
    hide SearchWindow, Narrowed, Potential, InTime;
    if SearchWindow(r).Some? {
      NarrowedHalves(r, probe(SearchWindow(r).value), rawtime);
    }
  }

  /** Where the search starts. */
  method FirstRange(idir: DiskIdir, startPos: nat, endPos: nat, rawtime: int, ghost offsets: seq<nat>, ghost times: seq<int>)
    returns (range: Range, ghost k: nat)
    requires idir.Valid() && Reachable(Range(startPos, endPos)) && offsets == Offsets(idir) && times == idir.Times()
    requires forall n :: n in idir.nodes ==> Reachable(Range(n.fOffset, n.fOffset))
    ensures idir.Valid() && idir.Times() == times
    ensures Reachable(range) && (times != [] ==> k < |times| && Nearest(times, rawtime, k))
    ensures range == StartRange(offsets, times, k, rawtime, startPos, endPos)
  {
    hide Nearest;
    var nearest;
    nearest, k := idir.FindNearestByTime(rawtime);
    if nearest == null {
      return Range(startPos, endPos), k;
    }
    assert idir.Linked(k);
    if rawtime > nearest.rawtime {
      range := Range(nearest.fOffset, if nearest.next != null then nearest.next.fOffset else endPos);
    } else {
      range := Range(if nearest.prev != null then nearest.prev.fOffset else startPos, nearest.fOffset);
    }
  }

  /** One round: what it adds to the directory, and whether and where the search goes on. */
  method Round(idir: DiskIdir, range: Range, rawtime: int, probe: Range -> Option<Image>)
    returns (process: bool, next: Range, ret: DiskIndex?, ghost added: seq<Image>, ghost news: seq<DiskIndex>,
             ghost windows: nat)
    requires idir.Valid() && Reachable(range)
    modifies idir, idir.Repr`next, idir.Repr`prev
    ensures idir.Valid() && Reachable(next) && (process ==> Potential(next) < Potential(range))
    ensures fresh(idir.Repr - old(idir.Repr))
    ensures idir.Times() == Inserted(old(idir.Times()), added)
    ensures var s := Searched(range, rawtime, probe);
      if process then ret == null && s.files == added + Searched(next, rawtime, probe).files
                      && s.hit == Searched(next, rawtime, probe).hit
                      && s.windows == windows + Searched(next, rawtime, probe).windows
      else s.files == added && (ret != null <==> s.hit) && s.windows == windows
    ensures windows == if SearchWindow(range).Some? then 1 else 0
    ensures Holding(news, added) && fresh(news) && EndsIn(news, ret)
    ensures idir.nodes == Placed(old(idir.nodes), old(idir.Times()), news, added)
  {
    hide Searched, SearchWindow, Potential, Inserted, Placed, Position, InsertAt, Sorted, Reachable, Describes;
    hide DiskIdir.Valid;
    process, next, ret, added, news, windows := true, range, null, [], [], 0;
    ghost var times := idir.Times();
    SearchedStep(range, rawtime, probe);
    NothingInserted(times);
    PlacedNone(idir.nodes, times);
    ghost var was := idir.nodes;
    var status, window := GetSearchWindow(range);
    if status != 0 {
      return false, range, null, [], [], 0;
    }
    var found := probe(window);
    windows := 1;
    if found.None? {
      return true, Range(range.lo, window.lo), null, [], [], 1;
    }
    InsertedNext(times, [], found.value);
    assert [] + [found.value] == [found.value];
    var node := AddFile(idir, found.value);
    PlacedOne(was, times, node, found.value);
    added, news := [found.value], [node];
    if Distance(node.rawtime, rawtime) > SEARCH_TIME_WINDOW {
      if node.rawtime - rawtime > 0 {
        next := Range(range.lo, window.lo);
      } else {
        next := Range(window.hi, range.hi);
      }
    } else {
      process := false;
      ret := node;
    }
  }

  /** The loop of find_disk_index, and the rounds in which it opens a window. */
  method SearchFrom(idir: DiskIdir, start: Range, rawtime: int, probe: Range -> Option<Image>)
    returns (ret: DiskIndex?, ghost news: seq<DiskIndex>, ghost rounds: nat)
    requires idir.Valid() && Reachable(start)
    modifies idir, idir.Repr`next, idir.Repr`prev
    ensures idir.Valid()
    ensures var s := Searched(start, rawtime, probe);
      (ret != null <==> s.hit) && Holding(news, s.files) && idir.Times() == Inserted(old(idir.Times()), s.files)
    ensures EndsIn(news, ret) && fresh(news)
    ensures idir.nodes == Placed(old(idir.nodes), old(idir.Times()), news, Searched(start, rawtime, probe).files)
    ensures rounds == Searched(start, rawtime, probe).windows
  {
    hide Searched, Potential, Inserted, Placed, Reachable, Describes, DiskIdir.Valid, DiskIdir.Times;
    assert Holding([], []) && EndsIn([], null);
    hide Holding, EndsIn;
    PlacedNone(idir.nodes, idir.Times());
    var range := start;
    ghost var s := Searched(start, rawtime, probe);
    ghost var times := idir.Times();
    ret, news, rounds := null, [], 0;
    ghost var done: seq<Image> := [];
    NothingInserted(times);
    var process := true;
    while process
      invariant idir.Valid() && Reachable(range)
      invariant fresh(idir.Repr - old(idir.Repr))
      invariant idir.Times() == Inserted(times, done)
      invariant process ==> ret == null && s.files == done + Searched(range, rawtime, probe).files
                            && s.hit == Searched(range, rawtime, probe).hit
                            && s.windows == rounds + Searched(range, rawtime, probe).windows
      invariant !process ==> s.files == done && (ret != null <==> s.hit) && s.windows == rounds
      invariant Holding(news, done) && fresh(news) && EndsIn(news, ret) && |news| == |done|
      invariant idir.nodes == Placed(old(idir.nodes), times, news, done)
      decreases process, Potential(range)
    {
      ghost var added, nodes, windows;
      process, range, ret, added, nodes, windows := Round(idir, range, rawtime, probe);
      InsertedTwice(times, done, added);
      MoreFiles(done, added, Searched(range, rawtime, probe).files);
      HoldingBoth(news, done, nodes, added);
      PlacedTwice(old(idir.nodes), times, news, done, nodes, added);
      EndsWith(news, nodes, ret);
      done, news, rounds := done + added, news + nodes, rounds + windows;
    }
  }

  lemma MoreFiles(a: seq<Image>, b: seq<Image>, c: seq<Image>)
    ensures a + (b + c) == (a + b) + c
  {
  }

  lemma {:induction false} InsertedTwice(times: seq<int>, a: seq<Image>, b: seq<Image>)
    ensures Inserted(Inserted(times, a), b) == Inserted(times, a + b)
    decreases |b|
  {
    if b == [] {
      assert a + b == a;
    } else {
      InsertedTwice(times, a, b[..|b| - 1]);
      assert (a + b)[..|a + b| - 1] == a + b[..|b| - 1];
    }
  }

  lemma NothingInserted(times: seq<int>)
    ensures Inserted(times, []) == times
  {
  }

  /** find_disk_index: the directory keeps its nodes and gets a new one, in its place, for every file found on
      the way; the result is the node of the file within a minute of the target, if the search hits one. The
      rounds that open a window are logarithmically many. */
  method FindDiskIndex(idir: DiskIdir, startPos: nat, endPos: nat, rawtime: int, probe: Range -> Option<Image>)
    returns (ret: DiskIndex?, start: Range, ghost k: nat, ghost news: seq<DiskIndex>, ghost rounds: nat)
    requires idir.Valid() && Reachable(Range(startPos, endPos))
    requires forall n :: n in idir.nodes ==> Reachable(Range(n.fOffset, n.fOffset))
    modifies idir, idir.Repr`next, idir.Repr`prev
    ensures idir.Valid() && Reachable(start)
    ensures old(idir.Times()) != [] ==> k < |old(idir.Times())| && Nearest(old(idir.Times()), rawtime, k)
    ensures start == StartRange(old(Offsets(idir)), old(idir.Times()), k, rawtime, startPos, endPos)
    ensures var s := Searched(start, rawtime, probe);
      && (ret != null <==> s.hit)
      && Holding(news, s.files) && EndsIn(news, ret)
      && (ret != null ==> Distance(ret.rawtime, rawtime) <= SEARCH_TIME_WINDOW)
      && idir.Times() == Inserted(old(idir.Times()), s.files)
    ensures fresh(news) && Grown(old(idir.nodes), idir.nodes, news)
    ensures idir.nodes == Placed(old(idir.nodes), old(idir.Times()), news, Searched(start, rawtime, probe).files)
    ensures Sorted(idir.Times()) <==> Sorted(old(idir.Times()))
    ensures Few(rounds, start)
  {
    ghost var offsets, times := Offsets(idir), idir.Times();
    start, k := FirstRange(idir, startPos, endPos, rawtime, offsets, times);
    hide Searched, Inserted, Placed, Grown, Sorted, Reachable, StartRange, Nearest, InTime, Distance, Offsets;
    hide Holding, EndsIn, Describes, DiskIdir.Valid, DiskIdir.Times, Few;
    FewWindows(start, rawtime, probe);
    HitInTime(start, rawtime, probe);
    InsertedSorted(times, Searched(start, rawtime, probe).files);
    ret, news, rounds := SearchFrom(idir, start, rawtime, probe);
    HeldAll(news, Searched(start, rawtime, probe).files);
    PlacedGrows(old(idir.nodes), times, news, Searched(start, rawtime, probe).files);
    if ret != null {
      LastHeld(news, Searched(start, rawtime, probe).files, ret);
    }
  }
}
