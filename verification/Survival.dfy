/** How much of a recording is certainly still on the device, however often the ring was gone around. */
module Survival {
  import opened FrameAlignment
  import opened Handshake
  import opened RingPointer
  import opened SessionLog

  // ---------- On extents ----------

  function Length(x: Extent): int {
    x.past - x.first
  }

  function Total(e: seq<Extent>): int {
    if e == [] then 0 else Length(e[0]) + Total(e[1..])
  }

  predicate Disjoint(x: Extent, y: Extent) {
    x.past <= y.first || y.past <= x.first
  }

  /** No write overwrites another. */
  predicate AllDisjoint(e: seq<Extent>) {
    forall i, j :: 0 <= i < j < |e| ==> Disjoint(e[i], e[j])
  }

  predicate NoneLonger(e: seq<Extent>, most: nat) {
    forall i :: 0 <= i < |e| ==> Length(e[i]) <= most
  }

  /** Where the writes from the first one to the last one can lie: in one piece, or around the end of the ring. */
  predicate OnceAround(c: Config, e: seq<Extent>, most: nat)
    requires e != []
  {
    var last := e[|e| - 1];
    e[0].first + Total(e) == last.past || e[0].first + Total(e) > Sectors(c) - most + last.past
  }

  lemma {:induction false} RingPlaces(c: Config, e: seq<Extent>, most: nat)
    requires e != [] && InLaps(c, e) && NoneLonger(e, most) && Total(e) <= Sectors(c) - most + 1
    ensures OnceAround(c, e, most)
    decreases |e|
  {
    if |e| > 1 {
      var rest := e[1..];
      assert Follows(c, e[0], e[1]) && Length(e[0]) > 0;
      assert forall i :: 0 < i < |rest| ==> rest[i - 1] == e[i] && rest[i] == e[i + 1] && Follows(c, e[i], e[i + 1]);
      RingPlaces(c, rest, most);
      assert rest[0] == e[1] && Length(e[1]) <= most;
    } else {
      assert Total(e[1..]) == 0;
    }
  }

  lemma {:induction false} TotalPositive(c: Config, e: seq<Extent>)
    requires InLaps(c, e)
    ensures Total(e) >= 0 && (e != [] ==> Total(e) >= Length(e[0]))
    decreases |e|
  {
    if e != [] {
      assert forall i :: 0 < i < |e[1..]| ==> e[1..][i - 1] == e[i] && e[1..][i] == e[i + 1] && Follows(c, e[i], e[i + 1]);
      TotalPositive(c, e[1..]);
    }
  }

  lemma {:induction false} TotalSplits(a: seq<Extent>, b: seq<Extent>)
    ensures Total(a + b) == Total(a) + Total(b)
    decreases |a|
  {
    if a == [] {
      assert a + b == b;
    } else {
      assert (a + b)[1..] == a[1..] + b;
      TotalSplits(a[1..], b);
    }
  }

  lemma InLapsPart(c: Config, e: seq<Extent>, i: nat, j: nat)
    requires InLaps(c, e) && i <= j <= |e|
    ensures InLaps(c, e[i..j])
  {
    var p := e[i..j];
    assert forall k :: 0 <= k < |p| ==> p[k] == e[i + k];
    forall k | 0 < k < |p|
      ensures Follows(c, p[k - 1], p[k])
    {
      assert Follows(c, e[i + k - 1], e[i + k]);
    }
  }

  lemma SuffixTotal(c: Config, e: seq<Extent>, i: nat)
    requires InLaps(c, e) && i <= |e|
    ensures Total(e[i..]) <= Total(e)
  {
    hide InLaps, Total;
    InLapsPart(c, e, 0, i);
    TotalPositive(c, e[..i]);
    TotalSplits(e[..i], e[i..]);
    assert e[..i] + e[i..] == e;
  }

  lemma PrefixTotal(c: Config, e: seq<Extent>, j: nat)
    requires InLaps(c, e) && j <= |e|
    ensures Total(e[..j]) <= Total(e)
  {
    hide InLaps, Total;
    InLapsPart(c, e, j, |e|);
    TotalPositive(c, e[j..]);
    TotalSplits(e[..j], e[j..]);
    assert e[..j] + e[j..] == e;
  }

  lemma PartTotal(c: Config, e: seq<Extent>, i: nat, j: nat)
    requires InLaps(c, e) && i <= j <= |e|
    ensures Total(e[i..j]) <= Total(e)
  {
    hide InLaps, Total;
    PrefixTotal(c, e, j);
    InLapsPart(c, e, 0, j);
    SuffixTotal(c, e[..j], i);
    assert e[..j][i..] == e[i..j];
  }

  /** Of the longest write no more than half the partition counts. */
  function Cap(c: Config, most: nat): nat {
    if most <= (Sectors(c) + 1) / 2 then most else (Sectors(c) + 1) / 2
  }

  /** Several writes of together little more than half the partition are each no longer than half of it. */
  lemma NoneLongerThanHalf(c: Config, e: seq<Extent>)
    requires InLaps(c, e) && |e| > 1 && Total(e) <= Sectors(c) - (Sectors(c) + 1) / 2 + 1
    ensures NoneLonger(e, (Sectors(c) + 1) / 2)
  {
    forall i | 0 <= i < |e|
      ensures Length(e[i]) <= (Sectors(c) + 1) / 2
    {
      hide InLaps, Total;
      OneOfSeveral(c, e, i);
    }
  }

  lemma OneOfSeveral(c: Config, e: seq<Extent>, i: nat)
    requires InLaps(c, e) && |e| > 1 && i < |e|
    ensures Length(e[i]) < Total(e)
  {
    if i + 1 < |e| {
      SuffixTotal(c, e, i);
      InLapsPart(c, e, i, |e|);
      ApartInPart(c, e[i..]);
    } else {
      ApartInPart(c, e);
    }
  }

  /** Writes that are together short enough do not overwrite each other. */
  lemma CapEnough(c: Config, e: seq<Extent>, most: nat)
    requires InLaps(c, e) && NoneLonger(e, most) && Total(e) <= Sectors(c) - Cap(c, most) + 1
    ensures AllDisjoint(e)
  {
    if |e| > 1 {
      if most > (Sectors(c) + 1) / 2 {
        NoneLongerThanHalf(c, e);
      }
      ShortEnough(c, e, Cap(c, most));
    }
  }

  lemma ShortEnough(c: Config, e: seq<Extent>, most: nat)
    requires InLaps(c, e) && NoneLonger(e, most) && Total(e) <= Sectors(c) - most + 1
    ensures AllDisjoint(e)
  {
    forall i, j | 0 <= i < j < |e|
      ensures Disjoint(e[i], e[j])
    {
      hide InLaps, Total, NoneLonger;
      EndsDisjoint(c, e, most, i, j);
    }
  }

  lemma EndsDisjoint(c: Config, e: seq<Extent>, most: nat, i: nat, j: nat)
    requires InLaps(c, e) && NoneLonger(e, most) && i < j < |e| && Total(e) <= Sectors(c) - most + 1
    ensures Disjoint(e[i], e[j])
  {
    hide InLaps, Total, NoneLonger, Disjoint;
    PartTotal(c, e, i, j + 1);
    InLapsPart(c, e, i, j + 1);
    NoneLongerPart(e, most, i, j + 1);
    FirstAndLast(c, e[i..j + 1], most);
  }

  lemma NoneLongerPart(e: seq<Extent>, most: nat, i: nat, j: nat)
    requires NoneLonger(e, most) && i <= j <= |e|
    ensures NoneLonger(e[i..j], most)
  {
  }

  lemma FirstAndLast(c: Config, p: seq<Extent>, most: nat)
    requires |p| > 1 && InLaps(c, p) && NoneLonger(p, most) && Total(p) <= Sectors(c) - most + 1
    ensures Disjoint(p[0], p[|p| - 1])
  {
    hide InLaps, Total;
    RingPlaces(c, p, most);
    ApartInPart(c, p);
  }

  lemma ApartInPart(c: Config, p: seq<Extent>)
    requires |p| > 1 && InLaps(c, p)
    ensures Total(p) >= Length(p[0]) + Length(p[|p| - 1])
  {
    assert p == p[..|p| - 1] + [p[|p| - 1]];
    TotalSplits(p[..|p| - 1], [p[|p| - 1]]);
    InLapsPart(c, p, 0, |p| - 1);
    TotalPositive(c, p[..|p| - 1]);
    assert Total([p[|p| - 1]]) == Length(p[|p| - 1]);
  }

  /** Sectors up to the place where a write of `most` does not fit any more, then that write. */
  function Overrun(sectors: nat, most: nat): seq<Extent>
    requires 0 < most && 2 * most <= sectors + 1
  {
    seq(sectors - 2 * most + 2, i requires 0 <= i => Extent(most - 1 + i, most + i)) + [Extent(0, most)]
  }

  lemma {:induction false} UnitsTotal(e: seq<Extent>)
    requires forall i :: 0 <= i < |e| ==> Length(e[i]) == 1
    ensures Total(e) == |e|
    decreases |e|
  {
    if e != [] {
      UnitsTotal(e[1..]);
    }
  }

  lemma OverrunFails(c: Config, most: nat)
    requires 0 < most && 2 * most <= Sectors(c) + 1
    ensures var e := Overrun(Sectors(c), most);
      InLaps(c, e) && NoneLonger(e, most) && Total(e) == Sectors(c) - most + 2 && !AllDisjoint(e)
  {
    var e := Overrun(Sectors(c), most);
    var n := |e| - 1;
    UnitsTotal(e[..n]);
    TotalSplits(e[..n], [Extent(0, most)]);
    assert e == e[..n] + [Extent(0, most)];
    assert Total([Extent(0, most)]) == most;
    assert !Disjoint(e[0], e[n]);
  }

  /** The bound is exact: with no write longer than `most`, writes of together at most d sectors never overwrite
      each other, if and only if d is at most the partition plus one sector, less the longest write or half the
      partition, whichever is shorter. */
  lemma SurvivalBoundIsExact(c: Config, most: nat, d: int)
    requires 0 < most && 0 < Sectors(c)
    ensures (forall e :: InLaps(c, e) && NoneLonger(e, most) && Total(e) <= d ==> AllDisjoint(e))
       <==> d <= Sectors(c) - Cap(c, most) + 1
  {
    if d <= Sectors(c) - Cap(c, most) + 1 {
      forall e | InLaps(c, e) && NoneLonger(e, most) && Total(e) <= d
        ensures AllDisjoint(e)
      {
        CapEnough(c, e, most);
      }
    } else {
      OverrunFails(c, Cap(c, most));
      assert NoneLonger(Overrun(Sectors(c), Cap(c, most)), most);
    }
  }

  // ---------- On the writes of a run ----------

  /** The sectors a write takes. */
  function ExtentOf(p: Piece): Extent {
    Extent(p.at / PHY_BLOCK_SIZE, (p.at + |p.data|) / PHY_BLOCK_SIZE)
  }

  function ExtentsOf(pieces: seq<Piece>): (e: seq<Extent>)
    ensures |e| == |pieces| && forall i :: 0 <= i < |e| ==> e[i] == ExtentOf(pieces[i])
  {
    seq(|pieces|, i requires 0 <= i < |pieces| => ExtentOf(pieces[i]))
  }

  /** Whole sectors. */
  predicate Sectored(p: Piece) {
    p.at % PHY_BLOCK_SIZE == 0 && |p.data| % PHY_BLOCK_SIZE == 0
  }

  predicate AllSectored(pieces: seq<Piece>) {
    forall i :: 0 <= i < |pieces| ==> Sectored(pieces[i])
  }

  lemma DisjointIsApart(p: Piece, q: Piece)
    requires Sectored(p) && Sectored(q) && Disjoint(ExtentOf(p), ExtentOf(q))
    ensures Apart(p, q)
  {
    SectoredSum(p.at, |p.data|);
    SectoredSum(q.at, |q.data|);
  }

  lemma SectoredSum(a: nat, b: nat)
    requires a % PHY_BLOCK_SIZE == 0 && b % PHY_BLOCK_SIZE == 0
    ensures a == PHY_BLOCK_SIZE * (a / PHY_BLOCK_SIZE) && a + b == PHY_BLOCK_SIZE * ((a + b) / PHY_BLOCK_SIZE)
  {
    assert a + b == PHY_BLOCK_SIZE * (a / PHY_BLOCK_SIZE + b / PHY_BLOCK_SIZE);
  }

  /** A step records the extents of what it writes. */
  lemma StepExtents(c: Config, s: State, a: Action)
    requires |c.beyond| == 3 && Coupled(c, s) && Safe(s) && Enabled(s, a) && Good(c, s, a)
    ensures Apply(c, s, a).extents == s.extents + ExtentsOf(Written(s, a)) && AllSectored(Written(s, a))
  {
    hide Coupled, Emitted, LastBlock;
    if a.WriterWrite? {
      WriteExtent(c, s, a.n);
    } else if a.MainFlush? {
      FlushExtent(c, s, a.n);
    } else {
      assert s.extents + [] == s.extents;
    }
  }

  lemma WriteExtent(c: Config, s: State, n: int)
    requires Coupled(c, s) && Safe(s) && Enabled(s, WriterWrite(n)) && n == |Emitted(s.slots)|
    ensures var p := Piece(s.off, Emitted(s.slots));
      DoWrite(s, s.writer.quit, n).extents == s.extents + [ExtentOf(p)] && Sectored(p)
  {
    PendingFits(c, s);
    ServeGood(s);
  }

  lemma FlushExtent(c: Config, s: State, n: int)
    requires |c.beyond| == 3 && Coupled(c, s) && Safe(s) && Enabled(s, MainFlush(n)) && Good(c, s, MainFlush(n))
    ensures DoFlush(c, s, n).extents == s.extents + ExtentsOf(Written(s, MainFlush(n)))
    ensures AllSectored(Written(s, MainFlush(n)))
  {
    if s.slots.rem == [] {
      assert s.extents + [] == s.extents;
    } else {
      LastBlockFits(c, s);
      LastBlockWritten(c, s);
      assert s.off == PHY_BLOCK_SIZE * (s.lba - c.start);
      assert (s.off + PHY_BLOCK_SIZE) / PHY_BLOCK_SIZE == s.off / PHY_BLOCK_SIZE + 1;
    }
  }

  lemma {:induction false} LogExtents(c: Config, s: State, run: seq<Action>)
    requires |c.beyond| == 3 && Coupled(c, s) && Safe(s) && GoodRun(c, s, run) && Possible(c, s, run)
    ensures Run(c, s, run).extents == s.extents + ExtentsOf(Log(c, s, run)) && AllSectored(Log(c, s, run))
    decreases |run|
  {
    hide Coupled, Safe, Good, Enabled, Apply, Written;
    if run == [] {
      assert s.extents + [] == s.extents;
    } else {
      StepExtents(c, s, run[0]);
      StepSafe(c, s, run[0]);
      StepCoupled(c, s, run[0]);
      var w, t := Written(s, run[0]), Apply(c, s, run[0]);
      LogExtents(c, t, run[1..]);
      var rest := Log(c, t, run[1..]);
      assert ExtentsOf(w + rest) == ExtentsOf(w) + ExtentsOf(rest);
      assert s.extents + (ExtentsOf(w) + ExtentsOf(rest)) == s.extents + ExtentsOf(w) + ExtentsOf(rest);
    }
  }

  lemma LogInLaps(c: Config, s: State, run: seq<Action>)
    requires |c.beyond| == 3 && Initial(c, s) && GoodRun(c, s, run) && Possible(c, s, run)
    ensures InLaps(c, ExtentsOf(Log(c, s, run))) && AllSectored(Log(c, s, run))
  {
    hide GoodRun, Possible, Run, Log, Safe, ExtentsOf, AllSectored, InLaps;
    InitialSafe(c, s);
    InitialCoupled(c, s);
    LogExtents(c, s, run);
    RunCoupled(c, s, run);
    assert [] + ExtentsOf(Log(c, s, run)) == ExtentsOf(Log(c, s, run));
  }

  /** The writes of a run from number k on, if they take together at most the sectors of the partition plus one,
      less those of the longest of them or half the partition, whichever is fewer, are all on the device, whatever was recorded before them. */
  lemma RecentWritesAreKept(c: Config, s: State, run: seq<Action>, k: nat, most: nat)
    requires |c.beyond| == 3 && Initial(c, s) && GoodRun(c, s, run) && Possible(c, s, run) && k <= |Log(c, s, run)|
    requires var recent := ExtentsOf(Log(c, s, run)[k..]);
      NoneLonger(recent, most) && Total(recent) <= Sectors(c) - Cap(c, most) + 1
    ensures forall i :: k <= i < |Log(c, s, run)| ==> OnDevice(Run(c, s, run).dev, Log(c, s, run)[i])
  {
    hide GoodRun, Possible, Run, Log, Safe, OnDevice, Apart, Total, NoneLonger, Sectored;
    hide Initial, Coupled, InLaps, AllSectored, ExtentsOf;
    InitialSafe(c, s);
    InitialCoupled(c, s);
    LogInLaps(c, s, run);
    var all := Log(c, s, run);
    RecentApart(c, all, k, most);
    forall i | k <= i < |all|
      ensures OnDevice(Run(c, s, run).dev, all[i])
    {
      WritesAreKept(c, s, run, i);
    }
  }

  lemma RecentApart(c: Config, all: seq<Piece>, k: nat, most: nat)
    requires InLaps(c, ExtentsOf(all)) && AllSectored(all) && k <= |all|
    requires NoneLonger(ExtentsOf(all[k..]), most) && Total(ExtentsOf(all[k..])) <= Sectors(c) - Cap(c, most) + 1
    ensures forall i, j :: k <= i < j < |all| ==> Apart(all[i], all[j])
  {
    var recent := ExtentsOf(all[k..]);
    assert recent == ExtentsOf(all)[k..];
    InLapsPart(c, ExtentsOf(all), k, |all|);
    hide InLaps, Total, NoneLonger, Sectored;
    CapEnough(c, recent, most);
    forall i, j | k <= i < j < |all|
      ensures Apart(all[i], all[j])
    {
      assert Disjoint(recent[i - k], recent[j - k]);
      DisjointIsApart(all[i], all[j]);
    }
  }
}
