/** Consequences of the handshake invariant: exclusive slots, no deadlock, every job ends, failures are final. */
module HandshakeTheorems {
  import opened Bytes
  import opened FrameAlignment
  import opened AlignmentTheorems
  import opened Handshake

  /** Main works on the slots only while data_ready is false and everything handed over was written; the
      writer only while it is true and exactly the pending transaction is unserved. */
  lemma SlotsExclusive(c: Config, s: State, a: Action)
    requires |c.beyond| == 3 && Safe(s) && Enabled(s, a)
    ensures a.MainAlign? || a.MainAdvance? || a.MainFlush? ==>
              s.owner.MainThread? && !s.dataReady && s.handed == s.served
    ensures a.WriterWrite? ==>
              s.owner.WriterThread? && s.dataReady && s.handed == s.served + [Emitted(s.slots)]
    ensures Apply(c, s, a).slots != s.slots ==> a.MainAlign? || a.MainFlush? || a.WriterWrite?
  {
    if !s.dataReady {
      assert s.served + [] == s.served;
    }
  }

  /** The two threads are never both in a condition wait, and a thread that has finished left nothing pending. */
  lemma NeverBothWaiting(s: State)
    requires Safe(s)
    ensures !(s.main.MWait? && s.writer.WWait?)
    ensures s.writer.WDone? ==> s.handed == s.served
  {
    if s.writer.WDone? {
      assert s.served + [] == s.served;
    }
  }

  /** Steps the threads take by themselves, without a new job and without a spurious wake-up. */
  predicate Internal(a: Action) {
    !a.Open? && !a.Submit? && !a.MainSpurious? && !a.WriterSpurious?
  }

  predicate AtRest(s: State) {
    s.main.MIdle? || s.main.MFinished? || s.main.MFault?
  }

  /** A step that can be taken now. */
  function NextAction(s: State): Action {
    match s.main
    case MTest(_) => MainTest
    case MBody(job) => if job.Store? then MainAlign else if job.Exit? then MainExit else MainFlush(FlushResult(s))
    case MAligned => MainAdvance
    case MAdvanced => MainPublish
    case MRelease => MainRelease
    case _ =>
      if s.writer.WTop? then WriterTest
      else if s.writer.WWrite? then WriterWrite(if Emitted(s.slots) == [] then 0 else -1)
      else if s.main.MLock? || s.main.MWoken? then MainAcquire
      else if s.main.MJoining? && s.writer.WDone? then MainJoin
      else WriterAcquire
  }

  function FlushResult(s: State): int {
    if |s.slots.rem| > PHY_BLOCK_SIZE || LastBlock(s) == [] then 0 else -1
  }

  /** No deadlock: while the main thread has work, unless prep_last_block faulted, or a transaction is pending,
      some thread can step. */
  lemma Progress(s: State)
    requires Safe(s) && (!AtRest(s) || s.dataReady)
    ensures Enabled(s, NextAction(s)) && Internal(NextAction(s))
  {
  }

  /** No thread can step by itself. */
  ghost predicate Quiet(s: State) {
    forall a :: Internal(a) ==> !Enabled(s, a)
  }

  /** When no thread can step by itself, everything handed over was served, and main is between jobs. */
  lemma QuietIsServed(c: Config, s: State, run: seq<Action>)
    requires |c.beyond| == 3 && Safe(s) && Possible(c, s, run) && Quiet(Run(c, s, run))
    ensures var t := Run(c, s, run); AtRest(t) && !t.dataReady && t.handed == t.served
  {
    RunSafe(c, s, run);
    var t := Run(c, s, run);
    hide Enabled, Internal, NextAction, Run;
    if !AtRest(t) || t.dataReady {
      Progress(t);
    }
    assert t.served + [] == t.served;
  }

  function MainWeight(s: State): nat {
    match s.main
    case MIdle => 0
    case MFinished => 0
    case MFault => 0
    case MJoining => 1
    case MRelease => 2
    case MAdvanced => 3
    case MAligned => 4
    case MBody(_) => 5
    case MTest(job) => if s.dataReady && !job.Exit? then 9 else 6
    case MWait(_) => 8
    case MWoken(_) => if s.dataReady then 10 else 7
    case MLock(_) => if s.dataReady then 10 else 7
  }

  function WriterWeight(s: State): nat {
    match s.writer
    case WDone => 0
    case WWait => 0
    case WTop => if s.dataReady then 4 else 1
    case WWrite(_) => 3
    case _ => if s.dataReady then 5 else 2
  }

  function Rank(s: State): nat {
    10 * MainWeight(s) + WriterWeight(s)
  }

  lemma WriteDecreases(s: State, n: int)
    requires Safe(s) && Enabled(s, WriterWrite(n))
    ensures Rank(DoWrite(s, s.writer.quit, n)) < Rank(s)
  {
    ServeFrame(s, n);
  }

  lemma StepDecreases(c: Config, s: State, a: Action)
    requires |c.beyond| == 3 && Safe(s) && Enabled(s, a) && Internal(a)
    ensures Rank(Apply(c, s, a)) < Rank(s)
  {
    match a {
      case WriterWrite(n) => WriteDecreases(s, n);
      case MainFlush(n) => BodyDecreases(c, s, a);
      case MainAlign => BodyDecreases(c, s, a);
      case MainAdvance => BodyDecreases(c, s, a);
      case MainPublish => BodyDecreases(c, s, a);
      case _ =>
    }
  }

  lemma BodyDecreases(c: Config, s: State, a: Action)
    requires |c.beyond| == 3 && Safe(s) && Enabled(s, a)
    requires a.MainFlush? || a.MainAlign? || a.MainAdvance? || a.MainPublish?
    ensures Rank(Apply(c, s, a)) < Rank(s)
  {
    var t := Apply(c, s, a);
    assert t.main.MRelease? || t.main.MFault? || t.main.MAligned? || t.main.MAdvanced?;
    assert a.MainPublish? || (t.writer == s.writer && t.dataReady == s.dataReady);
    assert WriterWeight(t) <= 5;
  }

  /** Every job ends: from any reachable state the threads take at most Rank steps before the main thread is
      at rest or something new arrives. */
  lemma {:induction false} InternalRunsEnd(c: Config, s: State, run: seq<Action>)
    requires |c.beyond| == 3 && Safe(s) && Possible(c, s, run) && forall a :: a in run ==> Internal(a)
    ensures |run| + Rank(Run(c, s, run)) <= Rank(s)
    decreases |run|
  {
    if run != [] {
      StepDecreases(c, s, run[0]);
      StepSafe(c, s, run[0]);
      InternalRunsEnd(c, Apply(c, s, run[0]), run[1..]);
    }
  }

  /** After a failed write nothing is handed over any more, whatever the threads do. */
  lemma {:induction false} FailureIsFinal(c: Config, s: State, run: seq<Action>)
    requires |c.beyond| == 3 && Possible(c, s, run) && Safe(s) && s.failed && !s.dataReady
    ensures var t := Run(c, s, run); t.failed && !t.dataReady && t.handed == s.handed && t.served == s.served
    decreases |run|
  {
    if run != [] {
      StepSafe(c, s, run[0]);
      StillFailed(c, s, run[0]);
      FailureIsFinal(c, Apply(c, s, run[0]), run[1..]);
    }
  }

  lemma StillFailed(c: Config, s: State, a: Action)
    requires |c.beyond| == 3 && Safe(s) && Enabled(s, a) && s.failed && !s.dataReady
    ensures var t := Apply(c, s, a); t.failed && !t.dataReady && t.handed == s.handed && t.served == s.served
  {
  }

  /** Once an empty transaction is handed over nothing else ever is, whatever the threads do: it stays pending
      until the writer takes it, and that is an error. */
  lemma {:induction false} EmptyTransactionIsFinal(c: Config, s: State, run: seq<Action>)
    requires |c.beyond| == 3 && Safe(s) && Possible(c, s, run) && s.dataReady && Emitted(s.slots) == []
    ensures var t := Run(c, s, run);
      && Safe(t) && t.handed == s.handed
      && (if t.dataReady then Emitted(t.slots) == [] else t.failed && t.served == t.handed)
    decreases |run|
  {
    if run != [] {
      StepSafe(c, s, run[0]);
      StillEmpty(c, s, run[0]);
      var t := Apply(c, s, run[0]);
      if t.dataReady {
        EmptyTransactionIsFinal(c, t, run[1..]);
      } else {
        NeverBothWaiting(t);
        RunSafe(c, t, run[1..]);
        FailureIsFinal(c, t, run[1..]);
      }
    } else {
      assert s.handed == s.served + [Emitted(s.slots)];
    }
  }

  lemma StillEmpty(c: Config, s: State, a: Action)
    requires |c.beyond| == 3 && Safe(s) && Enabled(s, a) && s.dataReady && Emitted(s.slots) == []
    ensures var t := Apply(c, s, a);
      t.handed == s.handed && if t.dataReady then t.slots == s.slots else t.failed && t.served == t.handed && t.slots == EMPTY
  {
    if a.WriterWrite? {
      ServeOutcome(s, a.n);
      ServeFrame(s, a.n);
    } else {
      assert !a.MainAlign? && !a.MainAdvance? && !a.MainFlush? && !a.MainPublish?;
    }
  }

  /** A write counts as done exactly when the transaction is not empty and all of it was written; otherwise the
      remainder is dropped along with it. */
  lemma WriteOutcome(s: State, n: int)
    requires s.writer.WWrite? && Enabled(s, WriterWrite(n))
    ensures var t := DoWrite(s, s.writer.quit, n);
      && (!t.failed <==> Emitted(s.slots) != [] && n == |Emitted(s.slots)|)
      && (t.failed ==> t.slots == EMPTY) && (!t.failed ==> t.slots == EMPTY.(rem := s.slots.rem))
      && t.totalRec == (if t.failed then s.totalRec else s.totalRec + |Emitted(s.slots)|)
      && Wrote(s, t, Emitted(s.slots), n)
      && (t.writer.WDone? <==> s.writer.quit) && (s.writer.quit ==> t.owner.Nobody?)
  {
    ServeOutcome(s, n);
    ServeWrites(s, n);
    hide Emitted, Mapped, ResetChunks, Landed, WriteDev, Wrote;
    DeviceWrote(s, Emitted(s.slots), n, DoWrite(s, s.writer.quit, n));
  }

  lemma ServeWrites(s: State, n: int)
    requires s.writer.WWrite? && WriteReturns(s, Emitted(s.slots), n)
    ensures var t := DoWrite(s, s.writer.quit, n); var d := WriteDev(s, Emitted(s.slots), n);
      t.dev == d.dev && t.off == d.off && t.totalRec == if t.failed then s.totalRec else s.totalRec + |Emitted(s.slots)|
  {
    hide Emitted, Mapped, ResetChunks, Landed;
  }

  lemma DeviceWrote(s: State, data: seq<Byte>, n: int, t: State)
    requires n <= |data| && (n > 0 ==> s.off + n <= |s.dev|)
    requires t.dev == WriteDev(s, data, n).dev && t.off == WriteDev(s, data, n).off
    ensures Wrote(s, t, data, n)
  {
    LandedThere(s.dev, s.off, data, n);
  }

  /** From s to t the device has taken the first n bytes of the data at its offset, and nothing else. */
  predicate Wrote(s: State, t: State, data: seq<Byte>, n: int) {
    && n <= |data| && |t.dev| == |s.dev| && t.off == (if n < 0 then s.off else s.off + n)
    && forall i :: 0 <= i < |s.dev| ==> t.dev[i] == if s.off <= i < s.off + n then data[i - s.off] else s.dev[i]
  }

  lemma LandedThere(dev: seq<Byte>, off: nat, data: seq<Byte>, n: int)
    requires n <= |data| && (n > 0 ==> off + n <= |dev|)
    ensures |Landed(dev, off, data, n)| == |dev|
    ensures forall i :: 0 <= i < |dev| ==>
              Landed(dev, off, data, n)[i] == if off <= i < off + n then data[i - off] else dev[i]
  {
  }

  /** The flush writes the remainder and zeros up to a sector; unless all of it was written, it has failed.  Either
      way the remainder is gone and the recording closed. */
  lemma FlushOutcome(c: Config, s: State, n: int)
    requires Enabled(s, MainFlush(n)) && 0 < |s.slots.rem| <= PHY_BLOCK_SIZE && FrameAlignment.Idle(s.slots)
    ensures var t := DoFlush(c, s, n);
      && t.slots == EMPTY && !t.open && (t.failed <==> s.failed || n < 512)
      && t.lba == (if n < 512 then s.lba else s.lba + 1)
      && t.totalRec == (if n < 512 then s.totalRec else s.totalRec + 512)
      && Wrote(s, t, s.slots.rem + seq(512 - |s.slots.rem|, _ => 0), n)
  {
    var block := s.slots.rem + seq(512 - |s.slots.rem|, _ => 0);
    BlockIs(s);
    FlushWrites(c, s, n);
    hide DoFlush, Wrote, Landed, WriteDev;
    DeviceWrote(s, block, n, DoFlush(c, s, n));
  }

  lemma BlockIs(s: State)
    requires 0 < |s.slots.rem| <= PHY_BLOCK_SIZE && FrameAlignment.Idle(s.slots)
    ensures LastBlock(s) == s.slots.rem + seq(512 - |s.slots.rem|, _ => 0) && |LastBlock(s)| == 512
  {
    assert Zeros(512 - |s.slots.rem|) == seq(512 - |s.slots.rem|, _ => 0);
  }

  lemma FlushWrites(c: Config, s: State, n: int)
    requires 0 < |s.slots.rem| <= PHY_BLOCK_SIZE && WriteReturns(s, LastBlock(s), n)
    ensures var t := DoFlush(c, s, n); var d := WriteDev(s, LastBlock(s), n);
      && t.dev == d.dev && t.off == d.off && t.slots == EMPTY && !t.open && (t.failed <==> s.failed || n < 512)
      && t.lba == (if n < 512 then s.lba else s.lba + 1) && t.totalRec == (if n < 512 then s.totalRec else s.totalRec + 512)
  {
    hide LastBlock, Landed;
  }

  lemma ServeOutcome(s: State, n: int)
    requires WriteReturns(s, Emitted(s.slots), n)
    ensures var t := Serve(s, n);
      && (!t.failed <==> Emitted(s.slots) != [] && n == |Emitted(s.slots)|)
      && t.slots == ResetChunks(s.slots, t.failed)
  {
    MappedKeepsBytes(s.slots);
  }

  lemma MappedKeepsBytes(s: Slots)
    ensures Concat(Mapped(DataSlots(s))) == Emitted(s)
    ensures |Mapped(DataSlots(s))| == 0 <==> Emitted(s) == []
  {
    ConcatSlots(s);
    NoneMapped(DataSlots(s));
  }

  lemma ConcatSlots(s: Slots)
    ensures Concat(DataSlots(s)) == Emitted(s)
  {
    var d := DataSlots(s);
    assert d == [s.leader, s.exif] + ([s.header, s.common] + ([s.data0, s.data1] + [s.trailer, s.align]));
    ConcatPair(s.trailer, s.align);
    ConcatPair(s.data0, s.data1);
    ConcatPair(s.header, s.common);
    ConcatPair(s.leader, s.exif);
    ConcatAppend([s.data0, s.data1], [s.trailer, s.align]);
    ConcatAppend([s.header, s.common], [s.data0, s.data1] + [s.trailer, s.align]);
    ConcatAppend([s.leader, s.exif], [s.header, s.common] + ([s.data0, s.data1] + [s.trailer, s.align]));
    RegroupSlots(s);
  }

  lemma ConcatPair(a: seq<Byte>, b: seq<Byte>)
    ensures Concat([a, b]) == a + b
  {
    assert [a, b][1..] == [b];
    ConcatOne(b);
  }

  lemma RegroupSlots(s: Slots)
    ensures s.leader + s.exif + (s.header + s.common + (s.data0 + s.data1 + (s.trailer + s.align))) == Emitted(s)
  {
  }

  lemma {:induction false} NoneMapped(slots: seq<seq<Byte>>)
    ensures |Mapped(slots)| == 0 <==> Concat(slots) == []
  {
    if slots != [] {
      NoneMapped(slots[1..]);
    }
  }

  lemma {:induction false} MappedAppend(a: seq<seq<Byte>>, b: seq<seq<Byte>>)
    ensures |Mapped(a + b)| == |Mapped(a)| + |Mapped(b)|
  {
    if a == [] {
      assert a + b == b;
    } else {
      assert (a + b)[1..] == a[1..] + b;
      MappedAppend(a[1..], b);
    }
  }

  lemma {:induction false} EmptiesNotMapped(slots: seq<seq<Byte>>)
    requires forall i :: 0 <= i < |slots| ==> slots[i] == []
    ensures Mapped(slots) == []
  {
    if slots != [] {
      EmptiesNotMapped(slots[1..]);
    }
  }

  lemma AtMostFour(d: Slots)
    requires d.leader == d.exif == d.header == d.trailer == []
    ensures |Mapped(DataSlots(d))| <= 4
  {
    hide Mapped;
    var head, data, trailer, align := [d.leader, d.exif, d.header], [d.common, d.data0, d.data1], [d.trailer], [d.align];
    EmptiesNotMapped(head);
    EmptiesNotMapped(trailer);
    MappedAppend(head, data);
    MappedAppend(head + data, trailer);
    MappedAppend(head + data + trailer, align);
    assert DataSlots(d) == head + data + trailer + align;
  }

  /** A frame that is not held back goes to disk in one to four buffers; one that is, in none. */
  lemma BuffersOfFrame(s: Slots, p: Packet, beyond: seq<Byte>)
    requires FrameAlignment.Idle(s) && PacketOk(p) && |beyond| == 3
    ensures var m := |Mapped(DataSlots(AlignFrame(s, p, beyond)))|;
      if Delayed(|s.rem|, FrameOf(p)) then m == 0 else 1 <= m <= 4
  {
    AlignFrameLengths(s, p, beyond);
    hide AlignFrame, Mapped, Delayed, Emitted, DataSlots, ChunksOk, Stuffed, Residue, FrameOf;
    MappedKeepsBytes(AlignFrame(s, p, beyond));
    AtMostFour(AlignFrame(s, p, beyond));
  }
}
