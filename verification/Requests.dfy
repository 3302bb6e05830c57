/** Requests for files by time, one after the other: each search starts from what the earlier ones have found. */
module Requests {
  import opened IndexList
  import opened DiskSearch
  import opened DiskContents

  function TimesOf(dir: seq<Image>): (t: seq<int>)
    ensures |t| == |dir| && forall i :: 0 <= i < |t| ==> t[i] == dir[i].rawtime
  {
    seq(|dir|, i requires 0 <= i < |dir| => dir[i].rawtime)
  }

  function OffsetsOf(dir: seq<Image>): (o: seq<nat>)
    ensures |o| == |dir| && forall i :: 0 <= i < |o| ==> o[i] == dir[i].fOffset
  {
    seq(|dir|, i requires 0 <= i < |dir| => dir[i].fOffset)
  }

  /** The first of the nearest times. */
  function Closest(times: seq<int>, t: int): (k: nat)
    requires times != []
    ensures k < |times| && (forall j :: 0 <= j < |times| ==> Distance(times[k], t) <= Distance(times[j], t))
    ensures forall j :: 0 <= j < k ==> Distance(times[k], t) < Distance(times[j], t)
  {
    if |times| == 1 then 0
    else
      var k := 1 + Closest(times[1..], t);
      if Distance(times[0], t) <= Distance(times[k], t) then 0 else k
  }

  /** The one find_nearest_by_time picks. */
  function NearestOf(times: seq<int>, t: int): (k: nat)
    requires times != []
    ensures k < |times| && Nearest(times, t, k)
  {
    if |times| > 1 && Minimal(times, t, 1) then 1
    else
      var k := Closest(times, t);
      assert forall j :: 0 <= j < k ==> Distance(times[k], t) < Distance(times[j], t) && !Minimal(times, t, j);
      k
  }

  /** The entries of a directory are files of the disk that begin in the partition. */
  predicate Known(disk: seq<Image>, all: Range, dir: seq<Image>) {
    forall i :: 0 <= i < |dir| ==> dir[i] in disk && BeginsIn(dir[i], all)
  }

  /** All files begin in the partition. */
  predicate Within(disk: seq<Image>, all: Range) {
    forall i :: 0 <= i < |disk| ==> BeginsIn(disk[i], all)
  }

  /** Where find_disk_index begins to search. */
  function FirstRange(disk: seq<Image>, all: Range, dir: seq<Image>, rawtime: int): (r: Range)
    requires Reachable(all) && Known(disk, all, dir)
    ensures Reachable(r) && (dir == [] ==> r == all) && (dir != [] ==> all.lo <= r.lo && r.hi <= all.hi)
  {
    var k := if dir == [] then 0 else NearestOf(TimesOf(dir), rawtime);
    StartRange(OffsetsOf(dir), TimesOf(dir), k, rawtime, all.lo, all.hi)
  }

  /** The directory after a request, and whether the request found a file. */
  datatype Answer = Answer(dir: seq<Image>, hit: bool)

  function Request(disk: seq<Image>, all: Range, dir: seq<Image>, rawtime: int): Answer
    requires Reachable(all) && Known(disk, all, dir)
  {
    var s := Searched(FirstRange(disk, all, dir, rawtime), rawtime, Probe(disk));
    Answer(Placed(dir, TimesOf(dir), s.files, s.files), s.hit)
  }

  // ---------- What requests keep ----------

  lemma {:induction false} PlacedElements(all: seq<Image>, times: seq<int>, files: seq<Image>)
    requires |all| == |times|
    ensures forall f :: f in Placed(all, times, files, files) ==> f in all || f in files
    decreases |files|
  {
    if files != [] {
      PlacedElements(all, times, files[..|files| - 1]);
    }
  }

  lemma TimesInserted(dir: seq<Image>, k: nat, f: Image)
    requires k <= |dir|
    ensures TimesOf(InsertAt(dir, k, f)) == InsertAt(TimesOf(dir), k, f.rawtime)
  {
  }

  lemma {:induction false} PlacedTimes(dir: seq<Image>, files: seq<Image>)
    ensures TimesOf(Placed(dir, TimesOf(dir), files, files)) == Inserted(TimesOf(dir), files)
    decreases |files|
  {
    if files != [] {
      hide InsertAt, Position;
      var n := |files| - 1;
      PlacedTimes(dir, files[..n]);
      TimesInserted(Placed(dir, TimesOf(dir), files[..n], files[..n]),
                    Position(Inserted(TimesOf(dir), files[..n]), files[n].rawtime), files[n]);
    }
  }

  lemma FoundOnDisk(disk: seq<Image>, r: Range, rawtime: int, f: Image)
    requires Reachable(r) && f in Searched(r, rawtime, Probe(disk)).files
    ensures f in disk && r.lo < f.fOffset + PAGE && f.fOffset < r.hi
  {
    FilesAreProbed(r, rawtime, Probe(disk), f);
  }

  /** A request only adds files of the disk, and keeps a sorted directory sorted. */
  lemma RequestKeeps(disk: seq<Image>, all: Range, dir: seq<Image>, rawtime: int)
    requires Reachable(all) && Within(disk, all) && Known(disk, all, dir)
    ensures var a := Request(disk, all, dir, rawtime);
      Known(disk, all, a.dir) && (Sorted(TimesOf(a.dir)) <==> Sorted(TimesOf(dir)))
  {
    hide Searched, Sorted, Inserted, Placed;
    var r := FirstRange(disk, all, dir, rawtime);
    var files := Searched(r, rawtime, Probe(disk)).files;
    forall f | f in files
      ensures f in disk
    {
      FoundOnDisk(disk, r, rawtime, f);
    }
    PlacedElements(dir, TimesOf(dir), files);
    PlacedTimes(dir, files);
    InsertedSorted(TimesOf(dir), files);
  }

  /** The directory after requests for these times. */
  function Requested(disk: seq<Image>, all: Range, dir: seq<Image>, targets: seq<int>): (d: seq<Image>)
    requires Reachable(all) && Within(disk, all) && Known(disk, all, dir)
    ensures Known(disk, all, d) && (Sorted(TimesOf(d)) <==> Sorted(TimesOf(dir)))
    decreases |targets|
  {
    if targets == [] then dir
    else
      RequestKeeps(disk, all, dir, targets[0]);
      Requested(disk, all, Request(disk, all, dir, targets[0]).dir, targets[1..])
  }

  // ---------- Where a request searches ----------

  /** The first m entries are earlier than the target, the others are not. */
  predicate EarlierThan(dir: seq<Image>, rawtime: int, m: nat) {
    && m <= |dir| && (forall i :: 0 <= i < m ==> dir[i].rawtime < rawtime)
    && (forall i :: m <= i < |dir| ==> dir[i].rawtime >= rawtime)
  }

  predicate StrictlySorted(times: seq<int>) {
    forall i, j :: 0 <= i < j < |times| ==> times[i] < times[j]
  }

  lemma NearestNextToTarget(times: seq<int>, t: int, k: nat)
    requires k < |times| && StrictlySorted(times) && Minimal(times, t, k)
    ensures t > times[k] && k + 1 < |times| ==> t <= times[k + 1]
    ensures t <= times[k] && k > 0 ==> times[k - 1] < t
  {
    NearestBrackets(times, t, k);
  }

  lemma OneSplit(dir: seq<Image>, rawtime: int, m: nat, n: nat)
    requires EarlierThan(dir, rawtime, m) && EarlierThan(dir, rawtime, n)
    ensures m == n
  {
    assert m < |dir| ==> dir[m].rawtime >= rawtime;
    assert n < |dir| ==> dir[n].rawtime >= rawtime;
  }

  /** In a directory of different times, whatever is in time, the search goes from the last entry that is earlier
      than the target, or the start of the partition, to the first one that is not, or the end of the partition. */
  lemma SearchesBetween(disk: seq<Image>, all: Range, dir: seq<Image>, rawtime: int, m: nat)
    requires Reachable(all) && Known(disk, all, dir) && StrictlySorted(TimesOf(dir)) && EarlierThan(dir, rawtime, m)
    ensures FirstRange(disk, all, dir, rawtime)
         == Range(if m == 0 then all.lo else dir[m - 1].fOffset, if m == |dir| then all.hi else dir[m].fOffset)
  {
    if dir != [] {
      var times := TimesOf(dir);
      var k := NearestOf(times, rawtime);
      NearestNextToTarget(times, rawtime, k);
      SplitAtNearest(dir, rawtime, k);
      OneSplit(dir, rawtime, m, if rawtime > times[k] then k + 1 else k);
    }
  }

  lemma SplitAtNearest(dir: seq<Image>, rawtime: int, k: nat)
    requires k < |dir| && StrictlySorted(TimesOf(dir))
    requires rawtime > dir[k].rawtime && k + 1 < |dir| ==> rawtime <= dir[k + 1].rawtime
    requires rawtime <= dir[k].rawtime && k > 0 ==> dir[k - 1].rawtime < rawtime
    ensures EarlierThan(dir, rawtime, if rawtime > dir[k].rawtime then k + 1 else k)
  {
    var times := TimesOf(dir);
    assert forall i :: 0 <= i < |dir| ==> times[i] == dir[i].rawtime;
    assert forall i :: 0 <= i < k ==> times[i] < times[k];
    assert forall i :: k < i < |dir| ==> times[k] < times[i];
    assert k > 0 ==> forall i :: 0 <= i < k - 1 ==> times[i] < times[k - 1];
    assert k + 1 < |dir| ==> forall i :: k + 1 < i < |dir| ==> times[k + 1] < times[i];
  }

  // ---------- When a request finds a recording ----------

  /** Nothing in the directory is in time. */
  predicate NoneInTime(dir: seq<Image>, rawtime: int) {
    forall i :: 0 <= i < |dir| ==> !InTime(dir[i], rawtime)
  }

  /** The nearest entry has a neighbour of another time, or none, on the side of the target. */
  predicate Bracketed(dir: seq<Image>, rawtime: int) {
    dir == [] ||
    var times := TimesOf(dir);
    var k := NearestOf(times, rawtime);
    if rawtime > times[k] then k + 1 == |times| || times[k + 1] != times[k]
    else k == 0 || times[k - 1] != times[k]
  }

  lemma EarlierBegins(disk: seq<Image>, least: nat, f: Image, rawtime: int, i: nat)
    requires Laid(disk, least) && Chronological(disk) && f in disk && i < |disk| && InTime(disk[i], rawtime)
    requires f.rawtime < rawtime && !InTime(f, rawtime)
    ensures f.fOffset < disk[i].fOffset
  {
    var p :| 0 <= p < |disk| && disk[p] == f;
    assert p < i;
  }

  lemma LaterBegins(disk: seq<Image>, least: nat, f: Image, rawtime: int, j: nat)
    requires Laid(disk, least) && Chronological(disk) && f in disk && j < |disk| && InTime(disk[j], rawtime)
    requires f.rawtime > rawtime && !InTime(f, rawtime)
    ensures disk[j].fOffset < f.fOffset
  {
    var p :| 0 <= p < |disk| && disk[p] == f;
    assert j < p;
  }

  /** What the recordings and the directory have to be for the theorem. */
  ghost predicate Settled(disk: seq<Image>, least: nat, all: Range, dir: seq<Image>, rawtime: int, i: nat, j: nat) {
    && Surveyed(disk, least, all, rawtime, i, j)
    && Known(disk, all, dir) && Sorted(TimesOf(dir)) && NoneInTime(dir, rawtime)
  }

  /** The range begins and ends around the whole recording. */
  lemma RangeHoldsAll(disk: seq<Image>, least: nat, all: Range, dir: seq<Image>, rawtime: int, i: nat, j: nat)
    requires Settled(disk, least, all, dir, rawtime, i, j) && Bracketed(dir, rawtime)
    ensures var r := FirstRange(disk, all, dir, rawtime); r.lo <= disk[i].fOffset && disk[j].fOffset < r.hi
  {
    if dir != [] {
      var times := TimesOf(dir);
      var k := NearestOf(times, rawtime);
      hide Laid, Chronological, Nearest, Gapless, InTime;
      BetweenEntries(times, rawtime, k);
      hide Minimal, Sorted;
      if rawtime > times[k] {
        EarlierBegins(disk, least, dir[k], rawtime, i);
        if k + 1 < |dir| {
          LaterThanTarget(dir[k + 1], rawtime);
          LaterBegins(disk, least, dir[k + 1], rawtime, j);
        }
      } else {
        LaterThanTarget(dir[k], rawtime);
        LaterBegins(disk, least, dir[k], rawtime, j);
        if k > 0 {
          EarlierBegins(disk, least, dir[k - 1], rawtime, i);
        }
      }
    }
  }

  lemma LaterThanTarget(f: Image, rawtime: int)
    requires f.rawtime >= rawtime && !InTime(f, rawtime)
    ensures f.rawtime > rawtime
  {
  }

  lemma BetweenEntries(times: seq<int>, t: int, k: nat)
    requires k < |times| && Sorted(times) && Nearest(times, t, k)
    ensures t > times[k] && k + 1 < |times| && times[k] != times[k + 1] ==> t <= times[k + 1]
    ensures t <= times[k] && k > 0 && times[k - 1] != times[k] ==> times[k - 1] < t
  {
    NearestBrackets(times, t, k);
  }

  lemma StillGapless(disk: seq<Image>, all: Range, r: Range)
    requires Gapless(disk, all) && all.lo <= r.lo && r.hi <= all.hi
    ensures Gapless(disk, r)
  {
    forall w | Probed(w, r)
      ensures FirstIn(disk, w) < |disk| || AllBefore(disk, w, r)
    {
      assert Probed(w, all);
    }
  }

  /** From any directory: what decides is the part of the recording that begins in the range the directory leaves.
      If it is long enough it is found; and what is found begins in the range, but for less than a page. */
  lemma RequestFindsPart(disk: seq<Image>, least: nat, all: Range, dir: seq<Image>, rawtime: int, i: nat, j: nat)
    requires Reachable(all) && Known(disk, all, dir) && Laid(disk, least) && Chronological(disk) && Gapless(disk, all)
    requires 0 < least <= SEARCH_SIZE_WINDOW
    ensures var r := FirstRange(disk, all, dir, rawtime);
      && (Wanted(disk, r, rawtime, i, j) && disk[j].fOffset - disk[i].fOffset >= SureSpan(least)
          ==> Request(disk, all, dir, rawtime).hit)
      && (Request(disk, all, dir, rawtime).hit
          ==> exists f :: f in disk && InTime(f, rawtime) && r.lo < f.fOffset + PAGE && f.fOffset < r.hi)
  {
    hide Laid, Chronological, InTime, Searched;
    var r := FirstRange(disk, all, dir, rawtime);
    StillGapless(disk, all, r);
    hide Gapless, FirstRange;
    if Wanted(disk, r, rawtime, i, j) && disk[j].fOffset - disk[i].fOffset >= SureSpan(least) {
      FindsLongRecording(disk, least, r, rawtime, i, j);
    }
    LastHit(r, rawtime, Probe(disk));
    var s := Searched(r, rawtime, Probe(disk));
    if s.hit {
      FoundOnDisk(disk, r, rawtime, s.files[|s.files| - 1]);
    }
  }

  /** In a directory of different times a part of a recording that begins between the last earlier entry and the
      first one that is not earlier is found, if it is long enough. */
  lemma RequestFindsBetween(disk: seq<Image>, least: nat, all: Range, dir: seq<Image>, rawtime: int, m: nat, i: nat, j: nat)
    requires Reachable(all) && Known(disk, all, dir) && Laid(disk, least) && Chronological(disk) && Gapless(disk, all)
    requires 0 < least <= SEARCH_SIZE_WINDOW && StrictlySorted(TimesOf(dir)) && EarlierThan(dir, rawtime, m)
    requires i <= j < |disk| && InTime(disk[i], rawtime) && InTime(disk[j], rawtime)
    requires (if m == 0 then all.lo else dir[m - 1].fOffset) <= disk[i].fOffset
    requires disk[j].fOffset < if m == |dir| then all.hi else dir[m].fOffset
    requires disk[j].fOffset - disk[i].fOffset >= SureSpan(least)
    ensures Request(disk, all, dir, rawtime).hit
  {
    SearchesBetween(disk, all, dir, rawtime, m);
    hide FirstRange, Request, Laid, Chronological, Gapless, InTime;
    RequestFindsPart(disk, least, all, dir, rawtime, i, j);
  }

  /** With such a directory a recording in time that is long enough is found. */
  lemma RequestFinds(disk: seq<Image>, least: nat, all: Range, dir: seq<Image>, rawtime: int, i: nat, j: nat)
    requires Settled(disk, least, all, dir, rawtime, i, j) && Bracketed(dir, rawtime)
    requires 0 < least <= SEARCH_SIZE_WINDOW && disk[j].fOffset - disk[i].fOffset >= SureSpan(least)
    ensures Request(disk, all, dir, rawtime).hit
  {
    hide Bracketed, Laid, Chronological, Gapless, InTime, Request, Sorted;
    RangeHoldsAll(disk, least, all, dir, rawtime, i, j);
    RequestFindsPart(disk, least, all, dir, rawtime, i, j);
  }

  lemma NotLater(disk: seq<Image>, least: nat, f: Image, g: Image)
    requires Laid(disk, least) && Chronological(disk) && f in disk && g in disk && f.fOffset < g.fOffset
    ensures f.rawtime <= g.rawtime
  {
    var p :| 0 <= p < |disk| && disk[p] == f;
    var q :| 0 <= q < |disk| && disk[q] == g;
    assert p < q;
  }

  lemma NotEarlier(disk: seq<Image>, least: nat, f: Image, g: Image)
    requires Laid(disk, least) && Chronological(disk) && f in disk && g in disk
    requires PAGE <= least && g.fOffset < f.fOffset + PAGE
    ensures g.rawtime <= f.rawtime
  {
    var p :| 0 <= p < |disk| && disk[p] == f;
    var q :| 0 <= q < |disk| && disk[q] == g;
    assert q <= p;
  }

  /** Between two entries of the same time there is nothing in time. */
  lemma NothingBetweenEqual(disk: seq<Image>, least: nat, all: Range, dir: seq<Image>, rawtime: int, i: nat, j: nat, f: Image)
    requires Settled(disk, least, all, dir, rawtime, i, j) && !Bracketed(dir, rawtime) && PAGE <= least && f in disk
    requires var r := FirstRange(disk, all, dir, rawtime); r.lo < f.fOffset + PAGE && f.fOffset < r.hi
    ensures !InTime(f, rawtime)
  {
    var times := TimesOf(dir);
    var k := NearestOf(times, rawtime);
    if rawtime > times[k] {
      assert !InTime(dir[k + 1], rawtime);
      NotLater(disk, least, f, dir[k + 1]);
    } else {
      assert !InTime(dir[k - 1], rawtime);
      NotEarlier(disk, least, f, dir[k - 1]);
    }
  }

  lemma RequestMisses(disk: seq<Image>, least: nat, all: Range, dir: seq<Image>, rawtime: int, i: nat, j: nat)
    requires Settled(disk, least, all, dir, rawtime, i, j) && !Bracketed(dir, rawtime)
    requires PAGE <= least <= SEARCH_SIZE_WINDOW
    ensures !Request(disk, all, dir, rawtime).hit
  {
    RequestFindsPart(disk, least, all, dir, rawtime, i, j);
    hide Bracketed, Settled, InTime, FirstRange, Request;
    var r := FirstRange(disk, all, dir, rawtime);
    if Request(disk, all, dir, rawtime).hit {
      var f :| f in disk && InTime(f, rawtime) && r.lo < f.fOffset + PAGE && f.fOffset < r.hi;
      NothingBetweenEqual(disk, least, all, dir, rawtime, i, j, f);
    }
  }

  lemma SettledIs(disk: seq<Image>, least: nat, all: Range, dir: seq<Image>, rawtime: int, i: nat, j: nat)
    requires Settled(disk, least, all, dir, rawtime, i, j)
    ensures Reachable(all) && Known(disk, all, dir)
  {
  }

  /** When nothing in time is known yet, a recording that is long enough is found by the request, if and only if
      the nearest entry has no neighbour of its own time on the side of the target. */
  lemma RequestFindsExactly(disk: seq<Image>, least: nat, all: Range, dir: seq<Image>, rawtime: int, i: nat, j: nat)
    requires Settled(disk, least, all, dir, rawtime, i, j) && PAGE <= least <= SEARCH_SIZE_WINDOW
    requires disk[j].fOffset - disk[i].fOffset >= SureSpan(least)
    ensures Request(disk, all, dir, rawtime).hit <==> Bracketed(dir, rawtime)
  {
    hide Request, Settled, Bracketed;
    SettledIs(disk, least, all, dir, rawtime, i, j);
    if Bracketed(dir, rawtime) {
      RequestFinds(disk, least, all, dir, rawtime, i, j);
    } else {
      RequestMisses(disk, least, all, dir, rawtime, i, j);
    }
  }

  lemma EmptyIsBracketed(disk: seq<Image>, least: nat, all: Range, rawtime: int, i: nat, j: nat)
    requires Surveyed(disk, least, all, rawtime, i, j)
    ensures Settled(disk, least, all, [], rawtime, i, j) && Bracketed([], rawtime)
    ensures Request(disk, all, [], rawtime).hit == Searched(all, rawtime, Probe(disk)).hit
  {
  }

  /** A recording of at least d in such a directory's way. */
  ghost predicate Sought(disk: seq<Image>, least: nat, all: Range, dir: seq<Image>, rawtime: int, i: nat, j: nat, d: int) {
    && Settled(disk, least, all, dir, rawtime, i, j) && Bracketed(dir, rawtime)
    && disk[j].fOffset - disk[i].fOffset >= d
  }

  /** The span is exact for requests too, from whatever directory of that kind: an empty one is among them. */
  lemma RequestSpanIsExact(least: nat, d: int)
    requires 0 < least <= SEARCH_SIZE_WINDOW / 2
    ensures (forall disk: seq<Image>, all, dir, rawtime, i: nat, j: nat ::
               Sought(disk, least, all, dir, rawtime, i, j, d) ==> Request(disk, all, dir, rawtime).hit)
       <==> d >= SureSpan(least)
  {
    if d >= SureSpan(least) {
      forall disk: seq<Image>, all, dir, rawtime, i: nat, j: nat | Sought(disk, least, all, dir, rawtime, i, j, d)
        ensures Request(disk, all, dir, rawtime).hit
      {
        hide Bracketed, Surveyed, Searched;
        RequestFinds(disk, least, all, dir, rawtime, i, j);
      }
    } else {
      hide Request, Settled, Bracketed, Surveyed, Searched;
      MissedDiskIsMissed(least);
      MissedDiskIsSurveyed(least);
      EmptyIsBracketed(MissedDisk(least), least, MISSED_RANGE, 100, 1, 4);
      assert Sought(MissedDisk(least), least, MISSED_RANGE, [], 100, 1, 4, d);
    }
  }

  /** After any requests, from an empty directory on: as long as they have found nothing in time, a recording that
      is long enough is found if and only if the nearest entry has no neighbour of its own time on the side of the
      target. */
  lemma FindsAfterRequests(disk: seq<Image>, least: nat, all: Range, targets: seq<int>, rawtime: int, i: nat, j: nat)
    requires Surveyed(disk, least, all, rawtime, i, j) && Within(disk, all) && PAGE <= least <= SEARCH_SIZE_WINDOW
    requires disk[j].fOffset - disk[i].fOffset >= SureSpan(least)
    requires NoneInTime(Requested(disk, all, [], targets), rawtime)
    ensures var dir := Requested(disk, all, [], targets);
      Request(disk, all, dir, rawtime).hit <==> Bracketed(dir, rawtime)
  {
    hide Surveyed, Bracketed, NoneInTime, Request, Requested, Known;
    assert Reachable(all) && Known(disk, all, []) && Sorted(TimesOf([])) by { NothingKnown(disk, least, all, rawtime, i, j); }
    RequestFindsExactly(disk, least, all, Requested(disk, all, [], targets), rawtime, i, j);
  }

  lemma NothingKnown(disk: seq<Image>, least: nat, all: Range, rawtime: int, i: nat, j: nat)
    requires Surveyed(disk, least, all, rawtime, i, j)
    ensures Reachable(all) && Known(disk, all, []) && Sorted(TimesOf([]))
  {
  }

  // ---------- The same request again ----------

  /** The same request again, on a full disk whose files are all in time: the first two find a file each, which are
      inserted one behind the other because their times are equal; the third searches from the one to the other,
      which lies before it, and finds nothing. */
  lemma ThirdRequestMisses()
    ensures var disk, all := RegularDisk(0), REGULAR_RANGE;
      && Surveyed(disk, 1048576, all, 0, 0, 63) && disk[63].fOffset - disk[0].fOffset >= SureSpan(1048576)
      && var first := Request(disk, all, [], 0);
      && first == Answer([disk[30]], true)
      && Known(disk, all, first.dir)
      && var second := Request(disk, all, first.dir, 0);
      && second == Answer([disk[30], disk[13]], true)
      && Known(disk, all, second.dir) && !Request(disk, all, second.dir, 0).hit
  {
    RegularIsGapless(0);
    var disk := RegularDisk(0);
    assert Surveyed(disk, 1048576, REGULAR_RANGE, 0, 0, 63);
    FirstRequest(disk);
    SecondRequest(disk);
    ThirdRequest(disk);
  }

  lemma HitAtOnce(disk: seq<Image>, r: Range, w: Range, f: Image)
    requires Reachable(r) && SearchWindow(r) == Some(w) && Probe(disk)(w) == Some(f) && f.rawtime == 0
    ensures Searched(r, 0, Probe(disk)) == Search(1, [f], true)
  {
  }

  lemma FirstRequest(disk: seq<Image>)
    requires disk == RegularDisk(0)
    ensures Request(disk, REGULAR_RANGE, [], 0) == Answer([disk[30]], true)
  {
    var w := Range(30 * 1048576, 34 * 1048576);
    WindowIs(REGULAR_RANGE);
    FirstOfRegular(0, w, 30);
    hide FirstIn, Searched, Placed;
    HitAtOnce(disk, REGULAR_RANGE, w, disk[30]);
    PlacedOne([], [], disk[30], disk[30]);
    assert TimesOf([]) == [] && InsertAt([], 0, disk[30]) == [disk[30]];
  }

  lemma SecondRequest(disk: seq<Image>)
    requires disk == RegularDisk(0)
    ensures Known(disk, REGULAR_RANGE, [disk[30]])
    ensures Request(disk, REGULAR_RANGE, [disk[30]], 0) == Answer([disk[30], disk[13]], true)
  {
    var dir, w, r := [disk[30]], Range(13 * 1048576, 17 * 1048576), Range(0, 30 * 1048576);
    assert disk[30] in disk;
    assert TimesOf(dir) == [0];
    assert FirstRange(disk, REGULAR_RANGE, dir, 0) == r;
    WindowIs(r);
    FirstOfRegular(0, w, 13);
    hide FirstIn, Searched, Placed, FirstRange;
    HitAtOnce(disk, r, w, disk[13]);
    PlacedOne(dir, [0], disk[13], disk[13]);
    assert Position([0], 0) == 1 by { PositionIs([0], 0, 1); }
    assert InsertAt(dir, 1, disk[13]) == [disk[30], disk[13]];
  }

  lemma ThirdRequest(disk: seq<Image>)
    requires disk == RegularDisk(0)
    ensures Known(disk, REGULAR_RANGE, [disk[30], disk[13]])
    ensures !Request(disk, REGULAR_RANGE, [disk[30], disk[13]], 0).hit
  {
    var dir := [disk[30], disk[13]];
    assert disk[30] in disk && disk[13] in disk;
    assert TimesOf(dir) == [0, 0];
    assert Minimal([0, 0], 0, 1);
    assert FirstRange(disk, REGULAR_RANGE, dir, 0) == Range(30 * 1048576, 13 * 1048576);
    WindowIs(Range(30 * 1048576, 13 * 1048576));
  }

  // ---------- The command in place ----------

  lemma HoldingInserted(nodes: seq<DiskIndex>, dir: seq<Image>, k: nat, n: DiskIndex, f: Image)
    requires Holding(nodes, dir) && k <= |nodes| && Describes(n, f)
    ensures Holding(InsertAt(nodes, k, n), InsertAt(dir, k, f))
  {
  }

  lemma {:induction false} HoldingPlaced(nodes: seq<DiskIndex>, dir: seq<Image>, news: seq<DiskIndex>, files: seq<Image>)
    requires Holding(nodes, dir) && Holding(news, files)
    ensures Holding(Placed(nodes, TimesOf(dir), news, files), Placed(dir, TimesOf(dir), files, files))
    decreases |files|
  {
    if files != [] {
      var n := |files| - 1;
      HoldingPlaced(nodes, dir, news[..n], files[..n]);
      hide Holding, Describes, InsertAt;
      assert Describes(news[n], files[n]) by { HeldAt(news, files, n); }
      HoldingInserted(Placed(nodes, TimesOf(dir), news[..n], files[..n]), Placed(dir, TimesOf(dir), files[..n], files[..n]),
                      Position(Inserted(TimesOf(dir), files[..n]), files[n].rawtime), news[n], files[n]);
    }
  }

  lemma HeldAt(news: seq<DiskIndex>, files: seq<Image>, k: nat)
    requires Holding(news, files) && k < |files|
    ensures Describes(news[k], files[k])
  {
  }

  /** The find_file command: with a full index its nearest entry, otherwise find_disk_index on the sparse one. */
  method FindFile(index: DiskIdir, sparse: DiskIdir, ghost dir: seq<Image>, disk: seq<Image>, all: Range, rawtime: int)
    returns (indx: DiskIndex?)
    requires index.Valid() && sparse.Valid() && index != sparse
    requires Reachable(all) && Holding(sparse.nodes, dir) && Known(disk, all, dir)
    modifies sparse, sparse.Repr`next, sparse.Repr`prev
    ensures sparse.Valid()
    ensures old(index.nodes) != [] ==>
      && sparse.nodes == old(sparse.nodes)
      && exists k :: 0 <= k < |old(index.nodes)| && indx == old(index.nodes)[k] && Nearest(old(index.Times()), rawtime, k)
    ensures old(index.nodes) == [] ==>
      var a := Request(disk, all, dir, rawtime);
      && (indx != null <==> a.hit) && Holding(sparse.nodes, a.dir)
      && (indx != null ==> Distance(indx.rawtime, rawtime) <= SEARCH_TIME_WINDOW)
  {
    if index.size == 0 {
      indx := FindSparse(sparse, dir, disk, all, rawtime);
    } else {
      ghost var k;
      indx, k := index.FindNearestByTime(rawtime);
    }
  }

  method FindSparse(sparse: DiskIdir, ghost dir: seq<Image>, disk: seq<Image>, all: Range, rawtime: int)
    returns (indx: DiskIndex?)
    requires sparse.Valid() && Reachable(all) && Holding(sparse.nodes, dir) && Known(disk, all, dir)
    modifies sparse, sparse.Repr`next, sparse.Repr`prev
    ensures sparse.Valid()
    ensures var a := Request(disk, all, dir, rawtime);
      && (indx != null <==> a.hit) && Holding(sparse.nodes, a.dir)
      && (indx != null ==> Distance(indx.rawtime, rawtime) <= SEARCH_TIME_WINDOW)
  {
    assert sparse.Times() == TimesOf(dir) && Offsets(sparse) == OffsetsOf(dir);
    ghost var was := sparse.nodes;
    var start;
    ghost var k, news, rounds;
    indx, start, k, news, rounds := FindDiskIndex(sparse, all.lo, all.hi, rawtime, Probe(disk));
    if dir != [] {
      NearestIsUnique(TimesOf(dir), rawtime, k, NearestOf(TimesOf(dir), rawtime));
    }
    assert start == FirstRange(disk, all, dir, rawtime);
    HoldingPlaced(was, dir, news, Searched(start, rawtime, Probe(disk)).files);
  }
}
