/** States that runs reach: every list of frames the pipeline promises something about is recorded by some run. */
module Reachability {
  import opened Bytes
  import opened FrameAlignment
  import opened AlignmentTheorems
  import opened Handshake
  import opened RingPointer
  import opened Delivery

  /** The recorder on an empty partition of this size. */
  function Start(c: Config): State {
    State(MIdle, WStart, Nobody, false, false, false, EMPTY, c.start, false, 0, Zeros(PHY_BLOCK_SIZE * Sectors(c)), 0,
          [], [], [], [], [], 0, 0)
  }

  lemma StartIsInitial(c: Config)
    requires c.start <= c.end
    ensures Initial(c, Start(c))
  {
  }

  /** Some faithful run leads from s to t. */
  ghost predicate Reaches(c: Config, s: State, t: State)
    requires |c.beyond| == 3
  {
    exists run :: FaithfulRun(c, s, run) && Possible(c, s, run) && Run(c, s, run) == t
  }

  lemma {:induction false} RunNext(c: Config, s: State, run: seq<Action>, a: Action)
    requires |c.beyond| == 3 && FaithfulRun(c, s, run) && Possible(c, s, run)
    requires var t := Run(c, s, run); Enabled(t, a) && Faithful(c, t, a)
    ensures FaithfulRun(c, s, run + [a]) && Possible(c, s, run + [a])
    ensures Run(c, s, run + [a]) == Apply(c, Run(c, s, run), a)
    decreases |run|
  {
    hide Enabled, Faithful, Apply;
    if run == [] {
      assert run + [a] == [a] && [a][1..] == [];
    } else {
      assert (run + [a])[1..] == run[1..] + [a];
      RunNext(c, Apply(c, s, run[0]), run[1..], a);
    }
  }

  lemma ReachesSelf(c: Config, s: State)
    requires |c.beyond| == 3
    ensures Reaches(c, s, s)
  {
    assert FaithfulRun(c, s, []) && Run(c, s, []) == s;
  }

  /** One step further. */
  lemma Next(c: Config, s: State, t: State, a: Action) returns (u: State)
    requires |c.beyond| == 3 && Reaches(c, s, t) && Enabled(t, a) && Faithful(c, t, a)
    ensures u == Apply(c, t, a) && Reaches(c, s, u)
  {
    hide Enabled, Faithful, Apply, FaithfulRun, Possible, Run;
    var run :| FaithfulRun(c, s, run) && Possible(c, s, run) && Run(c, s, run) == t;
    RunNext(c, s, run, a);
    u := Apply(c, t, a);
  }

  /** What reachable states keep. */
  lemma Reached(c: Config, s: State, t: State)
    requires |c.beyond| == 3 && Initial(c, s) && Reaches(c, s, t)
    ensures Safe(t) && Coupled(c, t) && Delivered(c, t)
  {
    hide Initial, Safe, Coupled, Delivered, FaithfulRun, Possible, Run;
    InitialSafe(c, s);
    InitialCoupled(c, s);
    InitialDelivered(c, s);
    var run :| FaithfulRun(c, s, run) && Possible(c, s, run) && Run(c, s, run) == t;
    RunDelivered(c, s, run);
  }

  /** A recorder that is open, and at rest but for the writer, which may be waiting or not have begun. */
  predicate AtRest(s: State) {
    && s.main == MIdle && s.owner == Nobody && (s.writer == WStart || s.writer == WWait)
    && !s.dataReady && !s.exitThread && !s.failed && s.open && Idle(s.slots)
  }

  lemma Opened(c: Config, s: State) returns (t: State)
    requires |c.beyond| == 3 && Initial(c, s)
    ensures Reaches(c, s, t) && AtRest(t) && t.slots == EMPTY && t.fed == [] && t.lba == s.lba && t.extents == s.extents
  {
    ReachesSelf(c, s);
    t := Next(c, s, s, Open);
  }

  /** The main thread takes a job and the mutex. */
  lemma Taken(c: Config, s: State, t: State, job: Job) returns (u: State)
    requires |c.beyond| == 3 && Reaches(c, s, t) && AtRest(t) && !job.Exit? && (job.Store? ==> PacketOk(job.p))
    ensures Reaches(c, s, u) && u == t.(main := MBody(job), owner := MainThread)
  {
    hide Reaches, AlignFrame, Emitted;
    u := Next(c, s, t, Submit(job));
    u := Next(c, s, u, MainAcquire);
    u := Next(c, s, u, MainTest);
  }

  /** The frame fills a sector, fits the partition and is kept. */
  predicate Storable(c: Config, rem: nat, f: Frame)
    requires |c.beyond| == 3
  {
    && !Delayed(rem, f) && !PartialTake(rem, f)
    && rem + |Stuffed(rem, f, c.beyond)| - Residue(rem, f) <= PHY_BLOCK_SIZE * Sectors(c)
  }

  lemma Advanced(c: Config, s: State, t: State) returns (u: State)
    requires |c.beyond| == 3 && Reaches(c, s, t) && t.main == MAligned
    ensures Reaches(c, s, u) && u.main == MAdvanced && u.owner == t.owner && u.writer == t.writer
    ensures u.open == t.open && u.failed == t.failed && u.exitThread == t.exitThread && u.dataReady == t.dataReady
    ensures u.fed == t.fed && u.slots == t.slots && u.extents == t.extents
    ensures u.lba == UpdateLba(c.start, t.lba, c.end, |Emitted(u.slots)| / PHY_BLOCK_SIZE).0
  {
    hide Reaches, Emitted, UpdateLba;
    u := Next(c, s, t, MainAdvance);
  }

  /** The main thread aligns a frame and advances the pointer. */
  lemma Aligned(c: Config, s: State, t: State, p: Packet) returns (u: State)
    requires |c.beyond| == 3 && Reaches(c, s, t) && AtRest(t) && PacketOk(p) && Storable(c, |t.slots.rem|, FrameOf(p))
    ensures Reaches(c, s, u) && u.main == MAdvanced && u.owner == MainThread && u.writer == t.writer
    ensures u.open && !u.failed && !u.exitThread && !u.dataReady
    ensures u.fed == t.fed + [FrameOf(p)] && u.slots == AlignFrame(t.slots, p, c.beyond) && u.extents == t.extents
    ensures u.lba == UpdateLba(c.start, t.lba, c.end, |Emitted(u.slots)| / PHY_BLOCK_SIZE).0
  {
    AlignFrameLengths(t.slots, p, c.beyond);
    hide Reaches, AlignFrame, Emitted, Delayed, PartialTake, Stuffed, Residue, UpdateLba;
    u := Taken(c, s, t, Store(p));
    u := Next(c, s, u, MainAlign);
    u := Advanced(c, s, u);
  }

  /** The main thread hands the transaction over. */
  lemma HandedOver(c: Config, s: State, t: State) returns (u: State)
    requires |c.beyond| == 3 && Reaches(c, s, t) && t.main == MAdvanced && t.owner == MainThread
    requires !t.failed && !t.exitThread && (t.writer == WStart || t.writer == WWait)
    ensures Reaches(c, s, u) && u.main == MIdle && u.owner == Nobody && u.open == t.open && !u.exitThread
    ensures u.dataReady && (u.writer == WStart || u.writer == WWoken)
    ensures u.fed == t.fed && u.slots == t.slots && u.lba == t.lba && u.extents == t.extents
  {
    hide Reaches, Emitted;
    u := Next(c, s, t, MainPublish);
    u := Next(c, s, u, MainRelease);
  }

  /** From t to u these sectors in front of the pointer were written. */
  predicate Grew(c: Config, t: State, u: State, sectors: nat) {
    && c.start + sectors <= u.lba
    && u.extents == t.extents + [Extent(u.lba - c.start - sectors, u.lba - c.start)]
  }

  /** The writer has the mutex and writes everything. */
  lemma Wrote(c: Config, s: State, t: State) returns (u: State)
    requires |c.beyond| == 3 && Initial(c, s) && Reaches(c, s, t) && t.main == MIdle && t.dataReady
    requires t.writer == WWrite(false)
    ensures Reaches(c, s, u) && u.main == MIdle && u.writer == WTop && !u.dataReady && !u.failed
    ensures u.exitThread == t.exitThread && u.open == t.open && u.owner == t.owner
    ensures u.fed == t.fed && u.lba == t.lba && u.slots == EMPTY.(rem := t.slots.rem)
    ensures Grew(c, t, u, |Emitted(t.slots)| / PHY_BLOCK_SIZE)
  {
    hide Reaches, Emitted, Initial, Coupled, Safe, Delivered;
    Reached(c, s, t);
    HasRoom(c, t);
    u := Next(c, s, t, WriterWrite(|Emitted(t.slots)|));
  }

  /** The writer writes it, and waits again. */
  lemma WrittenOut(c: Config, s: State, t: State) returns (u: State)
    requires |c.beyond| == 3 && Initial(c, s) && Reaches(c, s, t) && t.main == MIdle && t.owner == Nobody && t.open
    requires t.dataReady && (t.writer == WStart || t.writer == WWoken) && !t.exitThread
    ensures Reaches(c, s, u) && AtRest(u) && u.fed == t.fed && u.lba == t.lba && u.slots == EMPTY.(rem := t.slots.rem)
    ensures Grew(c, t, u, |Emitted(t.slots)| / PHY_BLOCK_SIZE)
  {
    hide Reaches, Emitted, Initial;
    u := Next(c, s, t, WriterAcquire);
    u := Next(c, s, u, WriterTest);
    u := Wrote(c, s, u);
    u := Next(c, s, u, WriterTest);
  }

  lemma HasRoom(c: Config, s: State)
    requires Coupled(c, s) && s.dataReady
    ensures Emitted(s.slots) != [] && s.off + |Emitted(s.slots)| <= |s.dev|
    ensures WriteReturns(s, Emitted(s.slots), |Emitted(s.slots)|)
    ensures var t := Serve(s, |Emitted(s.slots)|);
      && t == s.(dev := t.dev, off := t.off, slots := EMPTY.(rem := s.slots.rem), failed := false, served := t.served,
                 dataReady := false, totalRec := t.totalRec, extents := t.extents)
      && Grew(c, s, t, |Emitted(s.slots)| / PHY_BLOCK_SIZE)
  {
    PendingFits(c, s);
    ServeGood(s);
  }

  /** One more frame is recorded. */
  lemma Stored(c: Config, s: State, t: State, p: Packet) returns (u: State)
    requires |c.beyond| == 3 && Initial(c, s) && Reaches(c, s, t) && AtRest(t) && PacketOk(p)
    requires Storable(c, |t.slots.rem|, FrameOf(p))
    ensures Reaches(c, s, u) && AtRest(u) && u.fed == t.fed + [FrameOf(p)]
    ensures var d := AlignFrame(t.slots, p, c.beyond);
      && u.slots == EMPTY.(rem := d.rem) && |d.rem| == Residue(|t.slots.rem|, FrameOf(p))
      && u.lba == UpdateLba(c.start, t.lba, c.end, |Emitted(d)| / PHY_BLOCK_SIZE).0
      && Grew(c, t, u, |Emitted(d)| / PHY_BLOCK_SIZE)
  {
    hide Reaches, AlignFrame, Emitted, Initial, Storable, UpdateLba;
    EmittedLengths(t.slots, p, c.beyond);
    u := Aligned(c, s, t, p);
    u := HandedOver(c, s, u);
    u := WrittenOut(c, s, u);
  }

  /** Each frame can be stored behind the ones before it. */
  predicate AllStorable(c: Config, frames: seq<Frame>)
    requires |c.beyond| == 3
  {
    forall i :: 0 <= i < |frames| ==> Storable(c, Feed(frames[..i], c.beyond).1, frames[i])
  }

  /** Nothing the pipeline promises is promised in vain: whatever the frames, if each can be stored, some run
      records them all. */
  lemma {:induction false} CanRecord(c: Config, s: State, packets: seq<Packet>) returns (t: State)
    requires |c.beyond| == 3 && Initial(c, s) && LayoutOk(packets)
    requires AllStorable(c, FramesOf(packets))
    ensures Reaches(c, s, t) && AtRest(t) && t.fed == FramesOf(packets)
    decreases |packets|
  {
    hide Reaches, Initial, Storable, Feed, FrameOf;
    if packets == [] {
      t := Opened(c, s);
    } else {
      var front, p := packets[..|packets| - 1], packets[|packets| - 1];
      var frames := FramesOf(packets);
      assert FramesOf(front) == frames[..|front|];
      assert forall i :: 0 <= i < |front| ==> frames[..|front|][..i] == frames[..i];
      t := CanRecord(c, s, front);
      RemainderIs(c, s, t);
      assert frames == FramesOf(front) + [FrameOf(p)];
      t := Stored(c, s, t, p);
    }
  }

  lemma RemainderIs(c: Config, s: State, t: State)
    requires |c.beyond| == 3 && Initial(c, s) && Reaches(c, s, t) && t.open
    ensures |t.slots.rem| == Feed(t.fed, c.beyond).1
  {
    hide Reaches, Initial, Feed, OnDisk, Coupled, Safe;
    Reached(c, s, t);
  }
}
