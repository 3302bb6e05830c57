/**
  The ring pointer, the device offset and the bytes on the device stay coupled over every run in which
  each frame fills a sector, fits the partition, and is written completely.
 */
module RingPointer {
  import opened FrameAlignment
  import opened AlignmentTheorems
  import opened Handshake
  import opened HandshakeTheorems

  function Sectors(c: Config): nat {
    if c.end >= c.start then c.end - c.start else 0
  }

  /** What the environment has to grant a step: no frame shorter than a sector or larger than the partition,
      complete writes, and room and a remainder of at most a sector at the stop. */
  predicate Good(c: Config, s: State, a: Action)
    requires |c.beyond| == 3 && Enabled(s, a)
  {
    match a
    case MainAlign =>
      && !Delayed(|s.slots.rem|, FrameOf(s.main.job.p))
      && |Emitted(AlignFrame(s.slots, s.main.job.p, c.beyond))| <= PHY_BLOCK_SIZE * Sectors(c)
    case WriterWrite(n) => n == |Emitted(s.slots)|
    case MainFlush(n) => |s.slots.rem| <= PHY_BLOCK_SIZE && (s.slots.rem != [] ==> s.lba < c.end && n == PHY_BLOCK_SIZE)
    case _ => true
  }

  predicate GoodRun(c: Config, s: State, run: seq<Action>)
    requires |c.beyond| == 3
    decreases |run|
  {
    run == [] || (Enabled(s, run[0]) && Good(c, s, run[0]) && GoodRun(c, Apply(c, s, run[0]), run[1..]))
  }

  /** Slots are filled: a transaction is prepared, counted or handed over. */
  predicate Filled(s: State) {
    s.main.MAligned? || s.main.MAdvanced? || s.dataReady
  }

  /** Bytes the ring pointer already counts and the device has not got yet. */
  function Counted(s: State): nat {
    if s.main.MAdvanced? || s.dataReady then |Emitted(s.slots)| else 0
  }

  /** b begins where a ended, or at the start of the partition because it did not fit behind a. */
  predicate Follows(c: Config, a: Extent, b: Extent) {
    b.first == a.past || (b.first == 0 && a.past + (b.past - b.first) > Sectors(c))
  }

  /** Non-empty extents inside the partition, each following the one before. */
  predicate InLaps(c: Config, e: seq<Extent>) {
    && (forall i :: 0 <= i < |e| ==> e[i].first < e[i].past <= Sectors(c))
    && (forall i :: 0 < i < |e| ==> Follows(c, e[i - 1], e[i]))
  }

  function TotalLen(e: seq<Extent>): int {
    if e == [] then 0 else TotalLen(e[..|e| - 1]) + PHY_BLOCK_SIZE * (e[|e| - 1].past - e[|e| - 1].first)
  }

  /** The slots of a prepared transaction: aligned, not empty, at most the partition. */
  predicate Prepared(c: Config, s: State) {
    ChunksOk(s.slots) && 0 < |Emitted(s.slots)| <= PHY_BLOCK_SIZE * Sectors(c)
  }

  /** The extent the next write will take. */
  function NextExtent(s: State): Extent {
    Extent(s.off / PHY_BLOCK_SIZE, s.off / PHY_BLOCK_SIZE + |Emitted(s.slots)| / PHY_BLOCK_SIZE)
  }

  predicate Coupled(c: Config, s: State) {
    && !s.failed && c.start <= s.lba <= c.end && |s.dev| == PHY_BLOCK_SIZE * Sectors(c)
    && |s.slots.rem| <= PHY_BLOCK_SIZE + 1
    && (if Filled(s) then Prepared(c, s) else FrameAlignment.Idle(s.slots))
    && (Filled(s) || MainInSlots(s.main) ==> s.open)
    && (!s.open ==> s.slots == EMPTY)
    && (s.open ==> s.off + Counted(s) == PHY_BLOCK_SIZE * (s.lba - c.start))
    && InLaps(c, s.extents) && s.totalRec == TotalLen(s.extents)
    && (s.extents != [] ==>
          var last := s.extents[|s.extents| - 1];
          if Counted(s) > 0 then Follows(c, last, NextExtent(s)) else last.past == s.lba - c.start)
    && WorksWhenOpen(s)
  }

  /** Main has a job other than the exit only while a recording is open. */
  predicate WorksWhenOpen(s: State) {
    s.main.MLock? || s.main.MTest? || s.main.MWait? || s.main.MWoken? || s.main.MBody? ==> s.main.job.Exit? || s.open
  }

  lemma InitialCoupled(c: Config, s: State)
    requires Initial(c, s)
    ensures Coupled(c, s)
  {
  }

  lemma OpenCoupled(c: Config, s: State)
    requires Coupled(c, s) && Safe(s) && Enabled(s, Open)
    ensures Coupled(c, DoOpen(c, s))
  {
  }

  lemma AlignCoupled(c: Config, s: State)
    requires |c.beyond| == 3 && Coupled(c, s) && Safe(s) && Enabled(s, MainAlign) && Good(c, s, MainAlign)
    ensures Coupled(c, Apply(c, s, MainAlign))
  {
    AlignFrameLengths(s.slots, s.main.job.p, c.beyond);
    ResidueBounded(|s.slots.rem|, FrameOf(s.main.job.p));
  }

  /** update_lba keeps the pointer in the partition exactly when the transaction is not larger than it. */
  lemma UpdateLbaStaysInside(start: nat, current: nat, end: nat, blocks: nat)
    requires start <= current <= end
    ensures start <= UpdateLba(start, current, end, blocks).0 <= end <==> blocks <= end - start
  {
  }

  lemma AdvanceCoupled(c: Config, s: State)
    requires Coupled(c, s) && Safe(s) && Enabled(s, MainAdvance)
    ensures Coupled(c, DoAdvance(c, s))
  {
    var n := |Emitted(s.slots)|;
    var blocks := n / PHY_BLOCK_SIZE;
    assert n == PHY_BLOCK_SIZE * blocks;
    hide Emitted, ChunksOk, InLaps, TotalLen;
    UpdateLbaStaysInside(c.start, s.lba, c.end, blocks);
    var t := DoAdvance(c, s);
    assert t.off + n == PHY_BLOCK_SIZE * (t.lba - c.start);
    assert NextExtent(t).past - NextExtent(t).first == blocks;
  }

  lemma {:induction false} TotalLenAppend(e: seq<Extent>, x: Extent)
    ensures TotalLen(e + [x]) == TotalLen(e) + PHY_BLOCK_SIZE * (x.past - x.first)
  {
  }

  lemma InLapsAppend(c: Config, e: seq<Extent>, x: Extent)
    requires InLaps(c, e) && x.first < x.past <= Sectors(c)
    requires e != [] ==> Follows(c, e[|e| - 1], x)
    ensures InLaps(c, e + [x])
  {
  }

  /** A pending transaction always has room on the device, in whole sectors behind the current offset. */
  lemma PendingFits(c: Config, s: State)
    requires Coupled(c, s) && Counted(s) > 0
    ensures s.off + |Emitted(s.slots)| <= |s.dev| && s.off % PHY_BLOCK_SIZE == 0
    ensures NextExtent(s).first < NextExtent(s).past == s.lba - c.start <= Sectors(c)
    ensures (s.off + |Emitted(s.slots)|) / PHY_BLOCK_SIZE == NextExtent(s).past
  {
    var n, k := |Emitted(s.slots)|, s.lba - c.start;
    assert n == PHY_BLOCK_SIZE * (n / PHY_BLOCK_SIZE);
    assert s.off == PHY_BLOCK_SIZE * (k - n / PHY_BLOCK_SIZE);
  }

  lemma ServeGood(s: State)
    requires Emitted(s.slots) != [] && s.off + |Emitted(s.slots)| <= |s.dev|
    ensures var n := |Emitted(s.slots)|; var t := Serve(s, n);
      && t.slots == EMPTY.(rem := s.slots.rem) && !t.failed && t.totalRec == s.totalRec + n
      && t.extents == s.extents + [Extent(s.off / PHY_BLOCK_SIZE, (s.off + n) / PHY_BLOCK_SIZE)]
      && t.off == s.off + n && |t.dev| == |s.dev| && t.lba == s.lba && t.open == s.open
      && t.dev == s.dev[..s.off] + Emitted(s.slots) + s.dev[s.off + n..]
      && t.stream == s.stream && t.lapOff == s.lapOff && t.lapBase == s.lapBase && t.fed == s.fed
  {
    ServeOutcome(s, |Emitted(s.slots)|);
    assert Emitted(s.slots)[..|Emitted(s.slots)|] == Emitted(s.slots);
  }

  /** The transaction is on the device: offset and pointer meet, and its extent ends at the pointer. */
  lemma Served(c: Config, s: State)
    requires Coupled(c, s) && s.dataReady
    ensures Enabled(s.(writer := WWrite(false)), WriterWrite(|Emitted(s.slots)|))
    ensures var u := Serve(s, |Emitted(s.slots)|);
      && !u.failed && u.lba == s.lba && |u.dev| == |s.dev| && u.slots == EMPTY.(rem := s.slots.rem) && u.open == s.open
      && u.off == PHY_BLOCK_SIZE * (u.lba - c.start)
      && InLaps(c, u.extents) && u.totalRec == TotalLen(u.extents)
      && u.extents != [] && u.extents[|u.extents| - 1].past == u.lba - c.start
  {
    PendingFits(c, s);
    ServeGood(s);
    InLapsAppend(c, s.extents, NextExtent(s));
    TotalLenAppend(s.extents, NextExtent(s));
  }

  lemma WriteCoupled(c: Config, s: State, n: int)
    requires Coupled(c, s) && Safe(s) && Enabled(s, WriterWrite(n)) && n == |Emitted(s.slots)|
    ensures Coupled(c, DoWrite(s, s.writer.quit, n))
  {
    Served(c, s);
    ServeFrame(s, n);
    Released(c, Serve(s, n), DoWrite(s, s.writer.quit, n));
  }

  /** Nothing is pending any more, only the control state of the threads differs. */
  lemma Released(c: Config, u: State, t: State)
    requires t == u.(main := t.main, writer := t.writer, owner := t.owner)
    requires !u.failed && c.start <= u.lba <= c.end && |u.dev| == PHY_BLOCK_SIZE * Sectors(c)
    requires |u.slots.rem| <= PHY_BLOCK_SIZE + 1 && FrameAlignment.Idle(u.slots) && u.open
    requires !Filled(t) && u.off == PHY_BLOCK_SIZE * (u.lba - c.start)
    requires InLaps(c, u.extents) && u.totalRec == TotalLen(u.extents)
    requires u.extents != [] ==> u.extents[|u.extents| - 1].past == u.lba - c.start
    ensures Coupled(c, t)
  {
  }

  /** The last block stays in the partition exactly when the pointer has not reached its end: the flush
      itself does not look. */
  lemma LastBlockFits(c: Config, s: State)
    requires Coupled(c, s) && Safe(s) && s.main.MBody? && s.main.job.Stop?
    ensures s.off + PHY_BLOCK_SIZE <= |s.dev| <==> s.lba < c.end
  {
  }

  lemma FlushCoupled(c: Config, s: State, n: int)
    requires |c.beyond| == 3 && Coupled(c, s) && Safe(s) && Enabled(s, MainFlush(n)) && Good(c, s, MainFlush(n))
    ensures Coupled(c, DoFlush(c, s, n))
  {
    if s.slots.rem != [] {
      LastBlockFits(c, s);
      LastExtent(c, s);
      LastBlockWritten(c, s);
      Stopped(c, DoFlush(c, s, n));
    }
  }

  lemma LastBlockWritten(c: Config, s: State)
    requires 0 < |s.slots.rem| <= PHY_BLOCK_SIZE && FrameAlignment.Idle(s.slots) && s.off + PHY_BLOCK_SIZE <= |s.dev|
    ensures |LastBlock(s)| == PHY_BLOCK_SIZE
    ensures var t := DoFlush(c, s, PHY_BLOCK_SIZE);
      && t.failed == s.failed && t.lba == s.lba + 1 && |t.dev| == |s.dev| && t.slots == EMPTY && !t.open
      && t.main == MRelease && t.dataReady == s.dataReady && t.totalRec == s.totalRec + PHY_BLOCK_SIZE
      && t.extents == s.extents + [Extent(s.off / PHY_BLOCK_SIZE, s.off / PHY_BLOCK_SIZE + 1)]
  {
  }

  /** After the stop nothing is in the slots and the last extent ends at the pointer. */
  lemma Stopped(c: Config, t: State)
    requires !t.failed && c.start <= t.lba <= c.end && |t.dev| == PHY_BLOCK_SIZE * Sectors(c)
    requires t.slots == EMPTY && !t.open && t.main == MRelease && !t.dataReady
    requires InLaps(c, t.extents) && t.totalRec == TotalLen(t.extents)
    requires t.extents != [] ==> t.extents[|t.extents| - 1].past == t.lba - c.start
    ensures Coupled(c, t)
  {
  }

  lemma LastExtent(c: Config, s: State)
    requires Coupled(c, s) && s.open && !Filled(s) && s.lba < c.end
    ensures var e := s.extents + [Extent(s.off / PHY_BLOCK_SIZE, s.off / PHY_BLOCK_SIZE + 1)];
      && InLaps(c, e) && TotalLen(e) == s.totalRec + PHY_BLOCK_SIZE && e[|e| - 1].past == s.lba + 1 - c.start
  {
    var x := Extent(s.off / PHY_BLOCK_SIZE, s.off / PHY_BLOCK_SIZE + 1);
    assert s.off == PHY_BLOCK_SIZE * (s.lba - c.start);
    InLapsAppend(c, s.extents, x);
    TotalLenAppend(s.extents, x);
  }

  lemma StepCoupled(c: Config, s: State, a: Action)
    requires |c.beyond| == 3 && Coupled(c, s) && Safe(s) && Enabled(s, a) && Good(c, s, a)
    ensures Coupled(c, Apply(c, s, a))
  {
    if ControlAction(a) {
      ControlStep(c, s, a);
      ControlCoupled(c, s, Apply(c, s, a));
    } else if a.MainAlign? {
      AlignCoupled(c, s);
    } else {
      OtherStepCoupled(c, s, a);
    }
  }

  lemma OtherStepCoupled(c: Config, s: State, a: Action)
    requires |c.beyond| == 3 && Coupled(c, s) && Safe(s) && Enabled(s, a) && Good(c, s, a)
    requires !ControlAction(a) && !a.MainAlign?
    ensures Coupled(c, Apply(c, s, a))
  {
    match a {
      case Open => OpenCoupled(c, s);
      case MainAdvance => AdvanceCoupled(c, s);
      case MainFlush(n) => FlushCoupled(c, s, n);
      case WriterWrite(n) => WriteCoupled(c, s, n);
    }
  }

  /** Steps of the handshake itself touch neither slots nor device. */
  predicate ControlAction(a: Action) {
    !a.Open? && !a.MainAlign? && !a.MainAdvance? && !a.MainFlush? && !a.WriterWrite?
  }

  /** t differs from s in the control state of the threads at most. */
  predicate SameData(s: State, t: State) {
    && t == s.(main := t.main, writer := t.writer, owner := t.owner, dataReady := t.dataReady,
               exitThread := t.exitThread, handed := t.handed)
    && Filled(t) == Filled(s) && Counted(t) == Counted(s) && t.main.MAligned? == s.main.MAligned?
    && (MainInSlots(t.main) ==> s.open)
    && (t.main.MLock? || t.main.MTest? || t.main.MWait? || t.main.MWoken? || t.main.MBody? ==> t.main.job.Exit? || s.open)
  }

  lemma ControlStep(c: Config, s: State, a: Action)
    requires |c.beyond| == 3 && WorksWhenOpen(s) && Safe(s) && Enabled(s, a) && ControlAction(a)
    requires (MainInSlots(s.main) ==> s.open) && !s.failed
    ensures SameData(s, Apply(c, s, a))
  {
  }

  lemma ControlCoupled(c: Config, s: State, t: State)
    requires Coupled(c, s) && SameData(s, t)
    ensures Coupled(c, t)
  {
  }

  /** In every reachable state of a good run the pointer stays inside the partition, the device offset plus the
      counted bytes is the pointer, written extents are adjacent sectors or start a new lap, and total_rec_len
      is the sum of their sizes. */
  lemma {:induction false} RunCoupled(c: Config, s: State, run: seq<Action>)
    requires |c.beyond| == 3 && Coupled(c, s) && Safe(s) && GoodRun(c, s, run)
    ensures Possible(c, s, run)
    ensures Coupled(c, Run(c, s, run)) && Safe(Run(c, s, run))
    decreases |run|
  {
    if run != [] {
      StepSafe(c, s, run[0]);
      StepCoupled(c, s, run[0]);
      RunCoupled(c, Apply(c, s, run[0]), run[1..]);
    }
  }
}
