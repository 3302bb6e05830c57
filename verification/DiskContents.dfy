/** What the search finds on a disk with files on it: when it hits, and when it can miss. */
module DiskContents {
  import opened DiskSearch

  /** The files of a disk in the order of their offsets, none shorter than `least` and none over another. */
  ghost predicate Laid(disk: seq<Image>, least: nat) {
    && (forall i :: 0 <= i < |disk| ==> disk[i].fSize >= least > 0)
    && forall i, j :: 0 <= i < j < |disk| ==> disk[i].fOffset + disk[i].fSize <= disk[j].fOffset
  }

  /** Later files lie behind earlier ones. */
  ghost predicate Chronological(disk: seq<Image>) {
    forall i, j :: 0 <= i < j < |disk| ==> disk[i].rawtime <= disk[j].rawtime
  }

  predicate BeginsIn(f: Image, w: Range) {
    w.lo <= f.fOffset < w.hi
  }

  /** The first file that begins in a window. */
  function FirstIn(disk: seq<Image>, w: Range): (k: nat)
    ensures k <= |disk| && (k < |disk| ==> BeginsIn(disk[k], w))
    ensures forall i :: 0 <= i < k ==> !BeginsIn(disk[i], w)
  {
    if disk == [] || BeginsIn(disk[0], w) then 0 else 1 + FirstIn(disk[1..], w)
  }

  /** find_in_window on this disk. */
  function Probe(disk: seq<Image>): Range -> Option<Image> {
    w => var k := FirstIn(disk, w); if k < |disk| then Some(disk[k]) else None
  }

  /** All files that begin in the range begin before the window. */
  ghost predicate AllBefore(disk: seq<Image>, w: Range, r: Range) {
    forall i :: 0 <= i < |disk| && disk[i].fOffset < r.hi ==> disk[i].fOffset < w.lo
  }

  /** The range is filled from its start, perhaps not to its end: in every window the search could look at some
      file begins, unless there are none in it and behind it. */
  ghost predicate Gapless(disk: seq<Image>, r: Range) {
    forall w :: Probed(w, r) ==> FirstIn(disk, w) < |disk| || AllBefore(disk, w, r)
  }

  /** The files from i on to j begin in the range and are in time. */
  ghost predicate Wanted(disk: seq<Image>, r: Range, rawtime: int, i: nat, j: nat) {
    && i <= j < |disk| && r.lo <= disk[i].fOffset && disk[j].fOffset < r.hi
    && InTime(disk[i], rawtime) && InTime(disk[j], rawtime)
  }

  /** The shortest distance between the first and the last file in time that the search cannot miss. */
  function SureSpan(least: nat): int {
    2 * SEARCH_SIZE_WINDOW + PAGE - 2 - least
  }

  /** A disk whose files, some of them wanted, the search can rely on. */
  ghost predicate Surveyed(disk: seq<Image>, least: nat, r: Range, rawtime: int, i: nat, j: nat) {
    Reachable(r) && Laid(disk, least) && Chronological(disk) && Gapless(disk, r) && Wanted(disk, r, rawtime, i, j)
  }

  /** A recording in time that spans a little less than two windows is always hit. */
  lemma FindsLongRecording(disk: seq<Image>, least: nat, r: Range, rawtime: int, i: nat, j: nat)
    requires Surveyed(disk, least, r, rawtime, i, j) && 0 < least <= SEARCH_SIZE_WINDOW
    requires disk[j].fOffset - disk[i].fOffset >= SureSpan(least)
    ensures Searched(r, rawtime, Probe(disk)).hit
  {
    StillThere(disk, least, r, r, rawtime, i, j);
  }

  lemma {:induction false} StillThere(disk: seq<Image>, least: nat, all: Range, r: Range, rawtime: int, i: nat, j: nat)
    requires Reachable(r) && Surveyed(disk, least, all, rawtime, i, j) && 0 < least <= SEARCH_SIZE_WINDOW
    requires disk[j].fOffset - disk[i].fOffset >= SureSpan(least)
    requires all.lo <= r.lo && r.hi <= all.hi
    requires r.lo + least < disk[i].fOffset + SEARCH_SIZE_WINDOW + PAGE && disk[j].fOffset < r.hi
    ensures Searched(r, rawtime, Probe(disk)).hit
    decreases Potential(r)
  {
    hide SearchWindow, Potential, InTime, FirstIn;
    WindowIs(r);
    WindowSplits(r);
    var w := SearchWindow(r).value;
    assert Probed(w, all);
    var k := FirstIn(disk, w);
    if k == |disk| {
      NarrowedHalves(r, None, rawtime);
      assert disk[j].fOffset < w.lo;
      hide Surveyed;
      StillThere(disk, least, all, Narrowed(r, w, None, rawtime), rawtime, i, j);
    } else if !InTime(disk[k], rawtime) {
      NarrowedHalves(r, Some(disk[k]), rawtime);
      StillBetween(disk, least, w, rawtime, i, j, k);
      hide Surveyed;
      StillThere(disk, least, all, Narrowed(r, w, Some(disk[k]), rawtime), rawtime, i, j);
    }
  }

  /** A file found too early lies before the first one wanted, by its own length at least; if it is too late, no
      file wanted begins in the window or behind it. */
  lemma StillBetween(disk: seq<Image>, least: nat, w: Range, rawtime: int, i: nat, j: nat, k: nat)
    requires Laid(disk, least) && Chronological(disk) && i <= j < |disk| && k == FirstIn(disk, w) < |disk|
    requires InTime(disk[i], rawtime) && InTime(disk[j], rawtime) && !InTime(disk[k], rawtime)
    ensures if disk[k].rawtime <= rawtime then w.lo + least <= disk[i].fOffset else disk[j].fOffset < w.lo
  {
    if disk[k].rawtime <= rawtime {
      assert k < i;
    } else {
      assert j < k && !BeginsIn(disk[j], w);
    }
  }

  function ImageAt(rawtime: int, size: nat, offset: nat): Image {
    Image(rawtime, 0, 0, size, offset)
  }

  /** A disk on which the search misses a recording one byte short of that span: the first file of the only window
      is too early, and what is left behind the window is one byte too short to be searched. */
  function MissedDisk(least: nat): seq<Image> {
    var w := SEARCH_SIZE_WINDOW;
    [ImageAt(0, least, w), ImageAt(100, least, w + least), ImageAt(100, least, 2 * w),
     ImageAt(100, least, 2 * w + w / 2), ImageAt(100, least, 3 * w + PAGE - 3)]
  }

  const MISSED_RANGE := Range(PAGE, 3 * SEARCH_SIZE_WINDOW + PAGE - 2)

  lemma MissedDiskIsGapless(least: nat)
    ensures Gapless(MissedDisk(least), MISSED_RANGE)
  {
    forall w | Probed(w, MISSED_RANGE)
      ensures FirstIn(MissedDisk(least), w) < 5
    {
      var k := if w.lo <= SEARCH_SIZE_WINDOW then 0 else if w.lo <= 2 * SEARCH_SIZE_WINDOW then 2 else 3;
      assert BeginsIn(MissedDisk(least)[k], w);
    }
  }

  lemma MissedDiskIsMissed(least: nat)
    ensures !Searched(MISSED_RANGE, 100, Probe(MissedDisk(least))).hit
  {
    var disk, w := MissedDisk(least), Range(SEARCH_SIZE_WINDOW, 2 * SEARCH_SIZE_WINDOW + PAGE - 1);
    WindowIs(MISSED_RANGE);
    assert SearchWindow(MISSED_RANGE) == Some(w);
    assert FirstIn(disk, w) == 0;
    WindowIs(Range(w.hi, MISSED_RANGE.hi));
  }

  lemma MissedDiskIsSurveyed(least: nat)
    requires 0 < least <= SEARCH_SIZE_WINDOW / 2
    ensures var disk := MissedDisk(least);
      Surveyed(disk, least, MISSED_RANGE, 100, 1, 4) && disk[4].fOffset - disk[1].fOffset == SureSpan(least) - 1
  {
    MissedDiskIsGapless(least);
  }

  /** The span is exact, whatever the length of the shortest file: with d or more between the first and the last
      file in time the search always hits, if and only if d is at least that span. */
  lemma SureSpanIsExact(least: nat, d: int)
    requires 0 < least <= SEARCH_SIZE_WINDOW / 2
    ensures (forall disk: seq<Image>, r, rawtime, i: nat, j: nat ::
               Surveyed(disk, least, r, rawtime, i, j) && disk[j].fOffset - disk[i].fOffset >= d
               ==> Searched(r, rawtime, Probe(disk)).hit)
       <==> d >= SureSpan(least)
  {
    if d >= SureSpan(least) {
      forall disk: seq<Image>, r, rawtime, i: nat, j: nat |
        Surveyed(disk, least, r, rawtime, i, j) && disk[j].fOffset - disk[i].fOffset >= d
        ensures Searched(r, rawtime, Probe(disk)).hit
      {
        FindsLongRecording(disk, least, r, rawtime, i, j);
      }
    } else {
      MissedDiskIsMissed(least);
      MissedDiskIsSurveyed(least);
    }
  }

  /** Where no file begins before the end of the range, the search finds nothing. */
  lemma {:induction false} NothingBefore(disk: seq<Image>, r: Range, rawtime: int)
    requires Reachable(r) && forall i :: 0 <= i < |disk| ==> r.hi <= disk[i].fOffset
    ensures !Searched(r, rawtime, Probe(disk)).hit
    decreases Potential(r)
  {
    hide SearchWindow, Potential;
    if SearchWindow(r).Some? {
      WindowSplits(r);
      NarrowedHalves(r, None, rawtime);
      assert FirstIn(disk, SearchWindow(r).value) == |disk|;
      NothingBefore(disk, Narrowed(r, SearchWindow(r).value, None, rawtime), rawtime);
    }
  }

  /** A window without a file makes the search go on towards the start of the range: files that all begin behind
      the first window are never found. */
  lemma LostBehindGap(disk: seq<Image>, r: Range, rawtime: int)
    requires Reachable(r) && SearchWindow(r).Some?
    requires forall i :: 0 <= i < |disk| ==> SearchWindow(r).value.hi <= disk[i].fOffset
    ensures !Searched(r, rawtime, Probe(disk)).hit
  {
    hide SearchWindow;
    WindowSplits(r);
    NarrowedHalves(r, None, rawtime);
    assert FirstIn(disk, SearchWindow(r).value) == |disk|;
    NothingBefore(disk, Narrowed(r, SearchWindow(r).value, None, rawtime), rawtime);
  }

  /** A disk that is empty up to the middle of the range and behind it holds one recording. */
  function GapDisk(span: nat): seq<Image> {
    var first := span + SEARCH_SIZE_WINDOW + SEARCH_SIZE_WINDOW / 2;
    [ImageAt(0, 1048576, first), ImageAt(0, 1048576, first + span)]
  }

  function GapRange(span: nat): Range {
    Range(0, 2 * span + 2 * SEARCH_SIZE_WINDOW)
  }

  /** With a gap no length is sure: behind one a recording of any span, up to nearly half the disk, is missed
      although all files are in time. */
  lemma NoSpanIsSure(span: nat)
    requires 1048576 <= span < 0x3fff_ffff_0000_0000
    ensures var disk, r := GapDisk(span), GapRange(span);
      && Reachable(r) && Laid(disk, 1048576) && Chronological(disk) && Wanted(disk, r, 0, 0, 1)
      && |disk| == 2 && disk[1].fOffset - disk[0].fOffset == span && !Searched(r, 0, Probe(disk)).hit
  {
    WindowIs(GapRange(span));
    LostBehindGap(GapDisk(span), GapRange(span), 0);
  }

  /** Files of a newer lap around the ring hide the older ones behind them: if all files that begin before the end
      of the first window are too late, the search finds nothing. */
  lemma HiddenByNewLap(disk: seq<Image>, r: Range, rawtime: int)
    requires Reachable(r) && SearchWindow(r).Some?
    requires forall i :: 0 <= i < |disk| && disk[i].fOffset < SearchWindow(r).value.hi ==>
      disk[i].rawtime > rawtime && !InTime(disk[i], rawtime)
    ensures !Searched(r, rawtime, Probe(disk)).hit
  {
    hide SearchWindow, InTime;
    WindowSplits(r);
    var w := SearchWindow(r).value;
    var found := Probe(disk)(w);
    NarrowedHalves(r, found, rawtime);
    var n := Narrowed(r, w, found, rawtime);
    assert n.hi == w.lo;
    hide Narrowed, FirstIn, Probe;
    var s := Searched(n, rawtime, Probe(disk));
    LastHit(n, rawtime, Probe(disk));
    if s.hit {
      FilesAreProbed(n, rawtime, Probe(disk), s.files[|s.files| - 1]);
      assert false by { ProbedEarlier(disk, n, s.files[|s.files| - 1]); }
    }
  }

  lemma ProbedEarlier(disk: seq<Image>, r: Range, f: Image)
    requires exists w :: Probe(disk)(w) == Some(f) && Probed(w, r)
    ensures f in disk && f.fOffset < r.hi
  {
  }

  /** Sixty-four files of 1 MiB without a gap, of which the first `newer` are a newer lap around the ring. */
  function RegularDisk(newer: nat): (d: seq<Image>)
    ensures |d| == 64 && forall i :: 0 <= i < 64 ==> d[i] == ImageAt(if i < newer then 1000 else 0, 1048576, i * 1048576)
  {
    seq(64, i requires 0 <= i < 64 => ImageAt(if i < newer then 1000 else 0, 1048576, i * 1048576))
  }

  const REGULAR_RANGE := Range(0, 64 * 1048576)

  lemma FirstOfRegular(newer: nat, w: Range, k: nat)
    requires k < 64 && (k - 1) * 1048576 < w.lo <= k * 1048576 < w.hi
    ensures FirstIn(RegularDisk(newer), w) == k
  {
    assert BeginsIn(RegularDisk(newer)[k], w);
  }

  lemma RegularIsGapless(newer: nat)
    ensures Laid(RegularDisk(newer), 1048576) && Gapless(RegularDisk(newer), REGULAR_RANGE)
  {
    forall w | Probed(w, REGULAR_RANGE)
      ensures FirstIn(RegularDisk(newer), w) < 64
    {
      assert BeginsIn(RegularDisk(newer)[(w.lo + 1048575) / 1048576], w);
    }
  }

  /** A partition that was gone around once is not in time order: forty files of the new lap lie before twenty-four
      of the old one, and a recording of 23 MiB among these is missed. */
  lemma OldLapIsMissed()
    ensures var disk, r := RegularDisk(40), REGULAR_RANGE;
      && Reachable(r) && Laid(disk, 1048576) && Gapless(disk, r) && Wanted(disk, r, 0, 40, 63)
      && disk[63].fOffset - disk[40].fOffset >= SureSpan(1048576) && !Searched(r, 0, Probe(disk)).hit
  {
    RegularIsGapless(40);
    WindowIs(REGULAR_RANGE);
    HiddenByNewLap(RegularDisk(40), REGULAR_RANGE, 0);
  }

  /** On a disk with gaps the search may miss the only file, which is in time: a window without a file makes it go
      on towards the start of the range. */
  lemma SearchCanMiss()
    ensures var disk, r := [ImageAt(0, 1048576, 10 * 1048576)], Range(0, 16 * 1048576);
      && Reachable(r) && Laid(disk, 1048576) && Chronological(disk) && Wanted(disk, r, 0, 0, 0)
      && !Searched(r, 0, Probe(disk)).hit
  {
    var disk, r := [ImageAt(0, 1048576, 10 * 1048576)], Range(0, 16 * 1048576);
    var r1, r2 := Range(0, 6 * 1048576), Range(0, 1048576);
    WindowIs(r);
    assert SearchWindow(r) == Some(Range(6 * 1048576, 10 * 1048576));
    WindowIs(r1);
    assert SearchWindow(r1) == Some(Range(1 * 1048576, 5 * 1048576));
    WindowIs(r2);
    assert !Searched(r2, 0, Probe(disk)).hit;
    assert !Searched(r1, 0, Probe(disk)).hit;
  }
}
