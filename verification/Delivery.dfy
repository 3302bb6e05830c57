/**
  End to end: what lies on the device is what was captured, over every interleaving of the two threads and
  every position of the ring.
 */
module Delivery {
  import opened Bytes
  import opened FrameAlignment
  import opened AlignmentTheorems
  import opened Handshake
  import opened RingPointer

  /** The session's byte stream by its frames alone, and how many of its bytes stay behind after the last one. */
  function Feed(frames: seq<Frame>, beyond: seq<Byte>): (seq<Byte>, nat)
    requires |beyond| == 3
  {
    if frames == [] then ([], 0)
    else
      var (bytes, rem) := Feed(frames[..|frames| - 1], beyond);
      var f := frames[|frames| - 1];
      (bytes + Stuffed(rem, f, beyond), Residue(rem, f))
  }

  lemma {:induction false} FeedAppend(frames: seq<Frame>, f: Frame, beyond: seq<Byte>)
    requires |beyond| == 3
    ensures var (bytes, rem) := Feed(frames, beyond);
      Feed(frames + [f], beyond) == (bytes + Stuffed(rem, f, beyond), Residue(rem, f))
  {
  }

  /** Filled up with zeros to whole sectors. */
  function Padded(v: seq<Byte>): seq<Byte> {
    v + Zeros(AlignBytesNum(|v|, PHY_BLOCK_SIZE))
  }

  /** Good, and no frame fills its last sector from the middle of a vector. */
  predicate Faithful(c: Config, s: State, a: Action)
    requires |c.beyond| == 3 && Enabled(s, a)
  {
    Good(c, s, a) && (a.MainAlign? ==> !PartialTake(|s.slots.rem|, FrameOf(s.main.job.p)))
  }

  predicate FaithfulRun(c: Config, s: State, run: seq<Action>)
    requires |c.beyond| == 3
    decreases |run|
  {
    run == [] || (Enabled(s, run[0]) && Faithful(c, s, run[0]) && FaithfulRun(c, Apply(c, s, run[0]), run[1..]))
  }

  /** Prepared and not yet written. */
  function Unwritten(s: State): seq<Byte> {
    if Filled(s) then Emitted(s.slots) else []
  }

  /** The current lap on the device, the pending transaction and REM are the rest of the session's stream. */
  predicate OnDisk(s: State) {
    && s.lapOff <= s.off <= |s.dev| && s.lapBase <= |s.stream|
    && s.dev[s.lapOff..s.off] + (Unwritten(s) + s.slots.rem) == s.stream[s.lapBase..]
  }

  predicate Delivered(c: Config, s: State)
    requires |c.beyond| == 3
  {
    && OnDisk(s)
    && (if s.open then
          && s.stream == Feed(s.fed, c.beyond).0 && |s.slots.rem| == Feed(s.fed, c.beyond).1
          && |s.slots.rem| <= |s.stream| && (|s.stream| - |s.slots.rem|) % PHY_BLOCK_SIZE == 0
          && |s.slots.rem| != PHY_BLOCK_SIZE
        else s.stream == Padded(Feed(s.fed, c.beyond).0))
  }

  lemma InitialDelivered(c: Config, s: State)
    requires |c.beyond| == 3 && Initial(c, s)
    ensures Delivered(c, s)
  {
  }

  lemma OpenDelivered(c: Config, s: State)
    requires |c.beyond| == 3 && Delivered(c, s) && Coupled(c, s) && Safe(s) && Enabled(s, Open)
    ensures Delivered(c, DoOpen(c, s))
  {
    var t := DoOpen(c, s);
    assert Feed([], c.beyond) == ([], 0);
    assert s.slots == EMPTY && t.off <= |t.dev|;
    hide Coupled, Safe, Feed, Padded, Emitted;
    assert t.dev[t.off..t.off] == [];
  }

  lemma JoinRight(a: seq<Byte>, b: seq<Byte>, c: seq<Byte>, d: seq<Byte>, lap: nat, s: seq<Byte>, x: seq<Byte>)
    requires lap <= |s| && a + ([] + b) == s[lap..] && c + d == b + x
    ensures a + (c + d) == (s + x)[lap..]
  {
  }

  lemma AlignOnDisk(s: State, p: Packet, beyond: seq<Byte>, t: State)
    requires |beyond| == 3 && PacketOk(p) && FrameAlignment.Idle(s.slots) && !PartialTake(|s.slots.rem|, FrameOf(p))
    requires OnDisk(s) && !Filled(s) && Filled(t) && t.slots == AlignFrame(s.slots, p, beyond)
    requires t.dev == s.dev && t.off == s.off && t.lapOff == s.lapOff && t.lapBase == s.lapBase
    requires t.stream == s.stream + Stuffed(|s.slots.rem|, FrameOf(p), beyond)
    ensures OnDisk(t)
  {
    AlignFrameKeepsStream(s.slots, p, beyond);
    JoinRight(s.dev[s.lapOff..s.off], s.slots.rem, Emitted(t.slots), t.slots.rem, s.lapBase, s.stream,
              Stuffed(|s.slots.rem|, FrameOf(p), beyond));
  }

  /** The part of AlignFrameLengths the stream needs. */
  lemma EmittedLengths(s: Slots, p: Packet, beyond: seq<Byte>)
    requires |beyond| == 3 && PacketOk(p) && FrameAlignment.Idle(s)
    ensures var d := AlignFrame(s, p, beyond);
      && |Emitted(d)| + |d.rem| == |s.rem| + |Stuffed(|s.rem|, FrameOf(p), beyond)|
      && |Emitted(d)| % PHY_BLOCK_SIZE == 0 && |d.rem| == Residue(|s.rem|, FrameOf(p))
  {
    AlignFrameLengths(s, p, beyond);
  }

  lemma FedSizes(total: nat, rem: nat, added: nat, emitted: nat, kept: nat)
    requires rem <= total && (total - rem) % PHY_BLOCK_SIZE == 0 && emitted % PHY_BLOCK_SIZE == 0
    requires emitted + kept == rem + added
    ensures kept <= total + added && (total + added - kept) % PHY_BLOCK_SIZE == 0
  {
  }

  lemma AlignDelivered(c: Config, s: State)
    requires |c.beyond| == 3 && Delivered(c, s) && Coupled(c, s) && Safe(s)
    requires Enabled(s, MainAlign) && Faithful(c, s, MainAlign)
    ensures Delivered(c, Apply(c, s, MainAlign))
  {
    var p := s.main.job.p;
    var t := DoAlign(c, s, p);
    assert FrameAlignment.Idle(s.slots) && s.open && t.open;
    AlignOnDisk(s, p, c.beyond, t);
    FeedAppend(s.fed, FrameOf(p), c.beyond);
    AlignSizes(s, p, c.beyond);
  }

  lemma AlignSizes(s: State, p: Packet, beyond: seq<Byte>)
    requires |beyond| == 3 && PacketOk(p) && FrameAlignment.Idle(s.slots)
    requires |s.slots.rem| <= |s.stream| && (|s.stream| - |s.slots.rem|) % PHY_BLOCK_SIZE == 0
    ensures var d := AlignFrame(s.slots, p, beyond);
            var total := |s.stream| + |Stuffed(|s.slots.rem|, FrameOf(p), beyond)|;
      && |d.rem| == Residue(|s.slots.rem|, FrameOf(p)) && |d.rem| != PHY_BLOCK_SIZE
      && |d.rem| <= total && (total - |d.rem|) % PHY_BLOCK_SIZE == 0
  {
    var d := AlignFrame(s.slots, p, beyond);
    EmittedLengths(s.slots, p, beyond);
    ResidueBounded(|s.slots.rem|, FrameOf(p));
    FedSizes(|s.stream|, |s.slots.rem|, |Stuffed(|s.slots.rem|, FrameOf(p), beyond)|, |Emitted(d)|, |d.rem|);
  }

  lemma AdvanceDelivered(c: Config, s: State)
    requires |c.beyond| == 3 && Delivered(c, s) && Enabled(s, MainAdvance)
    ensures Delivered(c, DoAdvance(c, s))
  {
    var t := DoAdvance(c, s);
    if UpdateLba(c.start, s.lba, c.end, |Emitted(s.slots)| / PHY_BLOCK_SIZE).1 {
      NewLapOnDisk(s, t);
    }
    Moved(c, s, t);
  }

  lemma Moved(c: Config, s: State, t: State)
    requires |c.beyond| == 3 && Delivered(c, s) && Filled(s) && Filled(t)
    requires t == s.(main := t.main, lba := t.lba, off := t.off, lapOff := t.lapOff, lapBase := t.lapBase)
    requires OnDisk(t) || t == s.(main := t.main, lba := t.lba)
    ensures Delivered(c, t)
  {
    hide Feed, Padded, Emitted;
    if t == s.(main := t.main, lba := t.lba) {
      SameOnDisk(s, t);
    }
    hide OnDisk;
  }

  lemma SameOnDisk(s: State, t: State)
    requires OnDisk(s) && Filled(s) && Filled(t) && t == s.(main := t.main, lba := t.lba)
    ensures OnDisk(t)
  {
  }

  /** A rewind starts a lap that holds the pending transaction and REM. */
  lemma NewLapOnDisk(s: State, t: State)
    requires OnDisk(s) && Filled(s) && Filled(t) && t.slots == s.slots && t.stream == s.stream && t.dev == s.dev
    requires var rest := |Emitted(s.slots)| + |s.slots.rem|;
      t.off == t.lapOff == 0 && t.lapBase == if rest <= |s.stream| then |s.stream| - rest else 0
    ensures OnDisk(t)
  {
  }

  lemma WrittenBehind(dev: seq<Byte>, off: nat, data: seq<Byte>, lap: nat)
    requires lap <= off && off + |data| <= |dev|
    ensures var d := dev[..off] + data + dev[off + |data|..];
      |d| == |dev| && d[lap..off + |data|] == dev[lap..off] + data
  {
  }

  lemma WriteOnDisk(c: Config, s: State)
    requires OnDisk(s) && Coupled(c, s) && s.dataReady
    ensures var t := Serve(s, |Emitted(s.slots)|);
      && t.lapOff <= t.off <= |t.dev| && t.lapBase <= |t.stream|
      && t.dev[t.lapOff..t.off] + ([] + t.slots.rem) == t.stream[t.lapBase..]
  {
    PendingFits(c, s);
    ServeGood(s);
    WrittenBehind(s.dev, s.off, Emitted(s.slots), s.lapOff);
    Settle(s.dev[s.lapOff..s.off], Emitted(s.slots), s.slots.rem);
  }

  lemma WriteDelivered(c: Config, s: State, n: int)
    requires |c.beyond| == 3 && Delivered(c, s) && Coupled(c, s) && Safe(s)
    requires Enabled(s, WriterWrite(n)) && n == |Emitted(s.slots)|
    ensures Delivered(c, DoWrite(s, s.writer.quit, n))
  {
    WriteOnDisk(c, s);
    ServeOnly(c, s);
    ServeFrame(s, n);
    Settled(c, s, Serve(s, n), DoWrite(s, s.writer.quit, n));
  }

  /** Nothing is pending any more: the transaction moved to the device. */
  lemma Settled(c: Config, s: State, u: State, t: State)
    requires |c.beyond| == 3 && Delivered(c, s) && s.open
    requires t == u.(main := t.main, writer := t.writer, owner := t.owner) && !Filled(t)
    requires u.lapOff <= u.off <= |u.dev| && u.lapBase <= |u.stream|
    requires u.dev[u.lapOff..u.off] + ([] + u.slots.rem) == u.stream[u.lapBase..]
    requires u.slots.rem == s.slots.rem && u.open == s.open && u.stream == s.stream && u.fed == s.fed
    ensures Delivered(c, t)
  {
  }

  lemma ServeOnly(c: Config, s: State)
    requires Coupled(c, s) && s.dataReady
    ensures var t := Serve(s, |Emitted(s.slots)|);
      t.slots.rem == s.slots.rem && t.open == s.open && t.stream == s.stream && t.fed == s.fed
  {
    PendingFits(c, s);
    ServeGood(s);
  }

  lemma Settle(a: seq<Byte>, b: seq<Byte>, c: seq<Byte>)
    ensures a + (b + c) == a + b + ([] + c)
  {
  }

  lemma FlushDelivered(c: Config, s: State, n: int)
    requires |c.beyond| == 3 && Delivered(c, s) && Coupled(c, s) && Safe(s)
    requires Enabled(s, MainFlush(n)) && Good(c, s, MainFlush(n))
    ensures Delivered(c, DoFlush(c, s, n))
  {
    PaddingLength(|s.stream|, |s.slots.rem|);
    if s.slots.rem == [] {
      assert s.stream + Zeros(0) == s.stream;
    } else {
      LastBlockFits(c, s);
      FlushedDelivered(c, s);
    }
  }

  lemma FlushedDelivered(c: Config, s: State)
    requires |c.beyond| == 3 && OnDisk(s) && !Filled(s) && !s.dataReady && s.stream == Feed(s.fed, c.beyond).0
    requires FrameAlignment.Idle(s.slots) && 0 < |s.slots.rem| <= PHY_BLOCK_SIZE && s.off + PHY_BLOCK_SIZE <= |s.dev|
    requires AlignBytesNum(|s.stream|, PHY_BLOCK_SIZE) == PHY_BLOCK_SIZE - |s.slots.rem|
    ensures WriteReturns(s, LastBlock(s), PHY_BLOCK_SIZE) && Delivered(c, DoFlush(c, s, PHY_BLOCK_SIZE))
  {
    LastBlockIs(s);
    LastBlockLands(c, s);
    hide LastBlock, DoFlush, OnDisk, Feed;
    FlushOnDisk(s, DoFlush(c, s, PHY_BLOCK_SIZE), s.slots.rem, Zeros(PHY_BLOCK_SIZE - |s.slots.rem|));
  }

  lemma LastBlockLands(c: Config, s: State)
    requires FrameAlignment.Idle(s.slots) && 0 < |s.slots.rem| <= PHY_BLOCK_SIZE && s.off + PHY_BLOCK_SIZE <= |s.dev|
    requires WriteReturns(s, LastBlock(s), PHY_BLOCK_SIZE)
    ensures var t := DoFlush(c, s, PHY_BLOCK_SIZE); var zeros := Zeros(PHY_BLOCK_SIZE - |s.slots.rem|);
      && t.dev == s.dev[..s.off] + (s.slots.rem + zeros) + s.dev[s.off + PHY_BLOCK_SIZE..]
      && t.off == s.off + PHY_BLOCK_SIZE && t.lapOff == s.lapOff && t.lapBase == s.lapBase && t.slots == EMPTY
      && t.main == MRelease && t.dataReady == s.dataReady && !t.open && t.fed == s.fed && t.stream == s.stream + zeros
  {
    LastBlockIs(s);
  }

  lemma LastBlockIs(s: State)
    requires FrameAlignment.Idle(s.slots) && 0 < |s.slots.rem| <= PHY_BLOCK_SIZE
    ensures var block := s.slots.rem + Zeros(PHY_BLOCK_SIZE - |s.slots.rem|);
      LastBlock(s) == block && |block| == PHY_BLOCK_SIZE && block[..PHY_BLOCK_SIZE] == block
  {
  }

  lemma FlushOnDisk(s: State, t: State, rem: seq<Byte>, zeros: seq<Byte>)
    requires OnDisk(s) && !Filled(s) && s.slots.rem == rem && s.off + |rem + zeros| <= |s.dev|
    requires t.dev == s.dev[..s.off] + (rem + zeros) + s.dev[s.off + |rem + zeros|..] && t.off == s.off + |rem + zeros|
    requires t.lapOff == s.lapOff && t.lapBase == s.lapBase && t.slots == EMPTY && !Filled(t)
    requires t.stream == s.stream + zeros
    ensures OnDisk(t)
  {
  }

  lemma PaddingLength(total: nat, rem: nat)
    requires rem <= total && (total - rem) % PHY_BLOCK_SIZE == 0 && rem < PHY_BLOCK_SIZE
    ensures AlignBytesNum(total, PHY_BLOCK_SIZE) == if rem == 0 then 0 else PHY_BLOCK_SIZE - rem
  {
  }

  lemma StepDelivered(c: Config, s: State, a: Action)
    requires |c.beyond| == 3 && Delivered(c, s) && Coupled(c, s) && Safe(s) && Enabled(s, a) && Faithful(c, s, a)
    ensures Delivered(c, Apply(c, s, a))
  {
    if ControlAction(a) {
      ControlStep(c, s, a);
    } else if a.MainAlign? {
      AlignDelivered(c, s);
    } else {
      OtherStepDelivered(c, s, a);
    }
  }

  lemma OtherStepDelivered(c: Config, s: State, a: Action)
    requires |c.beyond| == 3 && Delivered(c, s) && Coupled(c, s) && Safe(s) && Enabled(s, a) && Faithful(c, s, a)
    requires !ControlAction(a) && !a.MainAlign?
    ensures Delivered(c, Apply(c, s, a))
  {
    match a {
      case Open => OpenDelivered(c, s);
      case MainAdvance => AdvanceDelivered(c, s);
      case MainFlush(n) => FlushDelivered(c, s, n);
      case WriterWrite(n) => WriteDelivered(c, s, n);
    }
  }

  lemma {:induction false} RunDelivered(c: Config, s: State, run: seq<Action>)
    requires |c.beyond| == 3 && Delivered(c, s) && Coupled(c, s) && Safe(s) && FaithfulRun(c, s, run)
    ensures Possible(c, s, run)
    ensures var t := Run(c, s, run); Delivered(c, t) && Coupled(c, t) && Safe(t)
    decreases |run|
  {
    if run != [] {
      StepSafe(c, s, run[0]);
      StepCoupled(c, s, run[0]);
      StepDelivered(c, s, run[0]);
      RunDelivered(c, Apply(c, s, run[0]), run[1..]);
    }
  }

  // ---------- The frames the main loop offered ----------

  predicate LayoutOk(packets: seq<Packet>) {
    forall i :: 0 <= i < |packets| ==> PacketOk(packets[i])
  }

  function FramesOf(packets: seq<Packet>): (f: seq<Frame>)
    requires LayoutOk(packets)
    ensures |f| == |packets|
  {
    seq(|packets|, i requires 0 <= i < |packets| => FrameOf(packets[i]))
  }

  /** The packets submitted since the last start of a recording, when `before` are those so far. */
  function Offered(run: seq<Action>, before: seq<Packet>): seq<Packet> {
    if run == [] then before
    else
      Offered(run[1..], match run[0]
                        case Open => []
                        case Submit(Store(p)) => before + [p]
                        case _ => before)
  }

  /** The frame the main thread has been given and not yet aligned. */
  function Carried(m: Main): seq<Frame>
    requires JobOk(m)
  {
    if (m.MLock? || m.MTest? || m.MWait? || m.MWoken? || m.MBody?) && m.job.Store? then [FrameOf(m.job.p)] else []
  }

  /** What was offered is what was aligned and what main still carries, in order. */
  predicate AllTaken(s: State, packets: seq<Packet>) {
    JobOk(s.main) && LayoutOk(packets) && FramesOf(packets) == s.fed + Carried(s.main)
  }

  lemma OneMoreOffered(packets: seq<Packet>, p: Packet)
    requires LayoutOk(packets) && PacketOk(p)
    ensures LayoutOk(packets + [p]) && FramesOf(packets + [p]) == FramesOf(packets) + [FrameOf(p)]
  {
  }

  lemma WriteMain(s: State, n: int)
    requires s.writer.WWrite? && WriteReturns(s, Emitted(s.slots), n)
    ensures var t := DoWrite(s, s.writer.quit, n);
      t.fed == s.fed && t.open == s.open && t.main == if s.main.MWait? then MWoken(s.main.job) else s.main
  {
    ServeFrame(s, n);
  }

  lemma FlushMain(c: Config, s: State, n: int)
    requires Enabled(s, MainFlush(n))
    ensures var t := DoFlush(c, s, n);
      t.fed == s.fed && t.main == if |s.slots.rem| > PHY_BLOCK_SIZE then MFault else MRelease
  {
  }

  lemma StepFeeds(c: Config, s: State, a: Action)
    requires |c.beyond| == 3 && Safe(s) && Enabled(s, a)
    ensures Apply(c, s, a).fed == if a.Open? then [] else if a.MainAlign? then s.fed + [FrameOf(s.main.job.p)] else s.fed
  {
    hide FrameOf, Emitted, AlignFrame, PacketOk, LastBlock, DoWrite, DoFlush;
    if a.WriterWrite? {
      WriteMain(s, a.n);
    } else if a.MainFlush? {
      FlushMain(c, s, a.n);
    }
  }

  lemma StepCarries(c: Config, s: State, a: Action)
    requires |c.beyond| == 3 && Safe(s) && Enabled(s, a) && JobOk(Apply(c, s, a).main)
    ensures Carried(Apply(c, s, a).main)
         == if a.MainAlign? then [] else if a.Submit? && a.job.Store? then [FrameOf(a.job.p)] else Carried(s.main)
    ensures a.Open? || a.Submit? ==> Carried(s.main) == []
    ensures a.MainAlign? ==> Carried(s.main) == [FrameOf(s.main.job.p)]
  {
    hide FrameOf, Emitted, AlignFrame, PacketOk, LastBlock, DoWrite, DoFlush;
    if a.WriterWrite? {
      WriteMain(s, a.n);
    } else if a.MainFlush? {
      FlushMain(c, s, a.n);
    }
  }

  lemma StepTakes(c: Config, s: State, a: Action, packets: seq<Packet>)
    requires |c.beyond| == 3 && Safe(s) && Enabled(s, a) && AllTaken(s, packets)
    ensures AllTaken(Apply(c, s, a), Offered([a], packets))
  {
    StepSafe(c, s, a);
    assert JobOk(Apply(c, s, a).main);
    StepFeeds(c, s, a);
    StepCarries(c, s, a);
    OfferedOne(a, packets);
    hide Safe, Apply, FrameOf, PacketOk, Offered, Carried, JobOk, FramesOf;
    if a.Submit? && a.job.Store? {
      OneMoreOffered(packets, a.job.p);
    }
  }

  lemma OfferedOne(a: Action, packets: seq<Packet>)
    ensures Offered([a], packets)
         == if a.Open? then [] else if a.Submit? && a.job.Store? then packets + [a.job.p] else packets
  {
    assert [a][1..] == [];
  }

  lemma {:induction false} RunTakes(c: Config, s: State, run: seq<Action>, before: seq<Packet>)
    requires |c.beyond| == 3 && Safe(s) && Possible(c, s, run) && AllTaken(s, before)
    ensures AllTaken(Run(c, s, run), Offered(run, before))
    decreases |run|
  {
    hide Safe, Enabled, Apply, AllTaken;
    if run != [] {
      StepSafe(c, s, run[0]);
      StepTakes(c, s, run[0], before);
      OfferedNext(run, before);
      RunTakes(c, Apply(c, s, run[0]), run[1..], Offered([run[0]], before));
    }
  }

  lemma OfferedNext(run: seq<Action>, before: seq<Packet>)
    requires run != []
    ensures Offered(run, before) == Offered(run[1..], Offered([run[0]], before))
  {
    assert [run[0]][1..] == [];
  }

  lemma StepWorks(c: Config, s: State, a: Action)
    requires |c.beyond| == 3 && Safe(s) && Enabled(s, a) && WorksWhenOpen(s)
    ensures WorksWhenOpen(Apply(c, s, a))
  {
    hide FrameOf, Emitted, AlignFrame, PacketOk, LastBlock, DoWrite, DoFlush;
    if a.WriterWrite? {
      WriteMain(s, a.n);
    } else if a.MainFlush? {
      FlushMain(c, s, a.n);
    }
  }

  lemma {:induction false} RunWorks(c: Config, s: State, run: seq<Action>)
    requires |c.beyond| == 3 && Safe(s) && Possible(c, s, run) && WorksWhenOpen(s)
    ensures WorksWhenOpen(Run(c, s, run))
    decreases |run|
  {
    hide Safe, Enabled, Apply, WorksWhenOpen;
    if run != [] {
      StepSafe(c, s, run[0]);
      StepWorks(c, s, run[0]);
      RunWorks(c, Apply(c, s, run[0]), run[1..]);
    }
  }

  /** Whatever failed on the way: when the recording is closed, every frame submitted since it was started is in the
      session's list, in order. */
  lemma StoppedTookAll(c: Config, s: State, run: seq<Action>)
    requires |c.beyond| == 3 && Initial(c, s) && Possible(c, s, run) && !Run(c, s, run).open
    ensures LayoutOk(Offered(run, [])) && FramesOf(Offered(run, [])) == Run(c, s, run).fed
  {
    InitialSafe(c, s);
    assert AllTaken(s, []);
    RunTakes(c, s, run, []);
    RunWorks(c, s, run);
    var t := Run(c, s, run);
    assert Carried(t.main) == [];
    assert t.fed + [] == t.fed;
  }

  /** Whatever the interleaving: once the recording is stopped, the device holds, from where the session (or
      its last lap around the ring) began, the frames that were submitted in order, each with its stuffing segment,
      filled up with zeros to a whole sector. */
  lemma StoppedSessionIsOnDisk(c: Config, s: State, run: seq<Action>)
    requires |c.beyond| == 3 && Initial(c, s) && FaithfulRun(c, s, run)
    ensures Possible(c, s, run)
    ensures var t, packets := Run(c, s, run), Offered(run, []);
      !t.open ==>
        && LayoutOk(packets)
        && var stream := Padded(Feed(FramesOf(packets), c.beyond).0);
        && t.lapOff <= t.off <= |t.dev| && t.lapBase <= |stream|
        && t.dev[t.lapOff..t.off] == stream[t.lapBase..]
        && (t.lapBase == 0 ==> t.dev[t.lapOff..t.off] == stream)
  {
    InitialSafe(c, s);
    InitialCoupled(c, s);
    InitialDelivered(c, s);
    RunDelivered(c, s, run);
    var t := Run(c, s, run);
    if !t.open {
      StoppedTookAll(c, s, run);
      hide Run, FaithfulRun, Offered, FramesOf, Initial, Possible;
      assert t.dev[t.lapOff..t.off] + ([] + []) == t.dev[t.lapOff..t.off];
    }
  }
}
