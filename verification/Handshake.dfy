/**
  The main thread and the disk writer as a step system.  One step is what a thread does between two points
  where it could lose the processor while holding, taking or releasing the mutex; a run is any interleaving.
 */
module Handshake {
  import opened Bytes
  import opened FrameAlignment

  datatype Config = Config(start: nat, end: nat, beyond: seq<Byte>)

  /** What the main loop asks of the recorder. */
  datatype Job = Store(p: Packet) | Stop | Exit

  datatype Main =
    | MIdle                 // between jobs
    | MLock(job: Job)       // in pthread_mutex_lock
    | MTest(job: Job)       // owns the mutex, about to look at data_ready
    | MWait(job: Job)       // in pthread_cond_wait(main_cond)
    | MWoken(job: Job)      // signalled, needs the mutex again
    | MBody(job: Job)       // owns the mutex and the slots
    | MAligned              // align_frame done
    | MAdvanced             // update_lba and the rewind done
    | MRelease              // about to unlock
    | MJoining | MFinished  // pthread_join
    | MFault                // memset of a wrapped length in prep_last_block

  datatype Writer =
    | WStart                // in the first pthread_mutex_lock
    | WTop                  // owns the mutex, about to look at data_ready and exit_thread
    | WWait                 // in pthread_cond_wait(writer_cond)
    | WWoken                // signalled, needs the mutex again
    | WWrite(quit: bool)    // owns the mutex and the slots
    | WDone

  datatype Owner = Nobody | MainThread | WriterThread

  /** Sectors [first, past) of the partition. */
  datatype Extent = Extent(first: nat, past: nat)

  datatype State = State(
    main: Main, writer: Writer, owner: Owner,
    dataReady: bool, exitThread: bool, failed: bool,       // failed: last_ret_val is not 0
    slots: Slots, lba: nat, open: bool, off: nat, dev: seq<Byte>, totalRec: nat,
    // history: transactions handed over and served, extents written, and the session's frames and stream
    handed: seq<seq<Byte>>, served: seq<seq<Byte>>, extents: seq<Extent>,
    fed: seq<Frame>, stream: seq<Byte>, lapOff: nat, lapBase: nat)

  datatype Action =
    | Open | Submit(job: Job)
    | MainAcquire | MainTest | MainAlign | MainAdvance | MainPublish | MainFlush(n: int) | MainExit
    | MainRelease | MainJoin | MainSpurious
    | WriterAcquire | WriterTest | WriterWrite(n: int) | WriterSpurious

  /** The device after the first n bytes of `data` were written at `off`; n is what writev returned. */
  function Landed(dev: seq<Byte>, off: nat, data: seq<Byte>, n: int): seq<Byte>
    requires n <= |data| && (n > 0 ==> off + n <= |dev|)
  {
    if n <= 0 then dev else dev[..off] + data[..n] + dev[off + n..]
  }

  function WriteDev(s: State, data: seq<Byte>, n: int): State
    requires n <= |data| && (n > 0 ==> s.off + n <= |s.dev|)
  {
    s.(dev := Landed(s.dev, s.off, data, n), off := if n <= 0 then s.off else s.off + n)
  }

  /** What the flush writes: the last block, in the common buffer. */
  function LastBlock(s: State): seq<Byte>
    requires |s.slots.rem| <= PHY_BLOCK_SIZE
  {
    if s.slots.rem == [] then [] else PrepLastBlock(s.slots).0.common
  }

  predicate WriteReturns(s: State, data: seq<Byte>, n: int) {
    if data == [] then n == 0 else -1 <= n <= |data| && (n > 0 ==> s.off + n <= |s.dev|)
  }

  predicate Enabled(s: State, a: Action) {
    match a
    case Open => s.main.MIdle? && !s.open && !s.dataReady
    case Submit(job) => s.main.MIdle? && (job.Exit? || s.open) && (job.Store? ==> PacketOk(job.p))
    case MainAcquire => (s.main.MLock? || s.main.MWoken?) && s.owner.Nobody?
    case MainTest => s.main.MTest?
    case MainAlign => s.main.MBody? && s.main.job.Store? && PacketOk(s.main.job.p)
    case MainAdvance => s.main.MAligned?
    case MainPublish => s.main.MAdvanced?
    case MainFlush(n) => s.main.MBody? && s.main.job.Stop? &&
        (if |s.slots.rem| <= PHY_BLOCK_SIZE then WriteReturns(s, LastBlock(s), n) else n == 0)
    case MainExit => s.main.MBody? && s.main.job.Exit?
    case MainRelease => s.main.MRelease?
    case MainJoin => s.main.MJoining? && s.writer.WDone?
    case MainSpurious => s.main.MWait?
    case WriterAcquire => (s.writer.WStart? || s.writer.WWoken?) && s.owner.Nobody?
    case WriterTest => s.writer.WTop?
    case WriterWrite(n) => s.writer.WWrite? && WriteReturns(s, Emitted(s.slots), n)
    case WriterSpurious => s.writer.WWait?
  }

  function SignalWriter(s: State): State {
    if s.writer.WWait? then s.(writer := WWoken) else s
  }

  function SignalMain(s: State): State {
    if s.main.MWait? then s.(main := MWoken(s.main.job)) else s
  }

  /** camogm_start_jpeg: the offset follows the ring pointer. */
  function DoOpen(c: Config, s: State): State {
    var off := if s.lba >= c.start then PHY_BLOCK_SIZE * (s.lba - c.start) else 0;
    s.(open := true, off := off, fed := [], stream := [], lapOff := off, lapBase := 0)
  }

  function DoAlign(c: Config, s: State, p: Packet): State
    requires PacketOk(p) && |c.beyond| == 3
  {
    s.(main := MAligned, slots := AlignFrame(s.slots, p, c.beyond), fed := s.fed + [FrameOf(p)],
       stream := s.stream + Stuffed(|s.slots.rem|, FrameOf(p), c.beyond))
  }

  /** update_lba, and lseek to 0 when it says so: a new lap starts with the pending transaction. */
  function DoAdvance(c: Config, s: State): State {
    var (lba, wrapped) := UpdateLba(c.start, s.lba, c.end, |Emitted(s.slots)| / PHY_BLOCK_SIZE);
    var t := s.(main := MAdvanced, lba := lba);
    if wrapped then
      var pending := |Emitted(s.slots)| + |s.slots.rem|;
      t.(off := 0, lapOff := 0, lapBase := if pending <= |s.stream| then |s.stream| - pending else 0)
    else t
  }

  /** Hands the slots over, unless the previous write failed. */
  function DoPublish(s: State): State {
    var t := s.(main := MRelease);
    if s.failed then t
    else SignalWriter(t.(dataReady := true, handed := s.handed + [Emitted(s.slots)]))
  }

  /** camogm_end_jpeg, once no frame is pending. */
  function DoFlush(c: Config, s: State, n: int): State
    requires if |s.slots.rem| <= PHY_BLOCK_SIZE then WriteReturns(s, LastBlock(s), n) else n == 0
  {
    if |s.slots.rem| > PHY_BLOCK_SIZE then s.(main := MFault)
    else if s.slots.rem == [] then s.(main := MRelease, open := false)
    else
      var t := WriteDev(s, LastBlock(s), n).(main := MRelease, open := false, slots := EMPTY,
                                             stream := s.stream + Zeros(PHY_BLOCK_SIZE - |s.slots.rem|));
      if n < PHY_BLOCK_SIZE then t.(failed := true)
      else t.(lba := s.lba + 1, totalRec := s.totalRec + PHY_BLOCK_SIZE,
              extents := s.extents + [Extent(s.off / PHY_BLOCK_SIZE, s.off / PHY_BLOCK_SIZE + 1)])
  }

  predicate WriteSucceeds(s: State, n: int) {
    |Mapped(DataSlots(s.slots))| > 0 && n >= |Emitted(s.slots)|
  }

  /** The device and the slots after writev returned n. */
  function Serve(s: State, n: int): State
    requires WriteReturns(s, Emitted(s.slots), n)
  {
    var data := Emitted(s.slots);
    var t := WriteDev(s, data, n);
    var u := t.(slots := ResetChunks(s.slots, !WriteSucceeds(s, n)), failed := !WriteSucceeds(s, n),
                served := s.served + [data], dataReady := false);
    if WriteSucceeds(s, n) then
      u.(totalRec := s.totalRec + |data|,
         extents := s.extents + [Extent(s.off / PHY_BLOCK_SIZE, (s.off + |data|) / PHY_BLOCK_SIZE)])
    else u
  }

  /** One round of jpeg_writer with data_ready set. */
  function DoWrite(s: State, quit: bool, n: int): State
    requires WriteReturns(s, Emitted(s.slots), n)
  {
    var t := Serve(s, n);
    SignalMain(t.(writer := if quit then WDone else WTop, owner := if quit then Nobody else s.owner))
  }

  function Apply(c: Config, s: State, a: Action): State
    requires Enabled(s, a) && |c.beyond| == 3
  {
    match a
    case Open => DoOpen(c, s)
    case Submit(job) => s.(main := MLock(job))
    case MainAcquire => s.(main := MTest(s.main.job), owner := MainThread)
    case MainTest =>
      if s.dataReady && !s.main.job.Exit? then s.(main := MWait(s.main.job), owner := Nobody)
      else s.(main := MBody(s.main.job))
    case MainAlign => DoAlign(c, s, s.main.job.p)
    case MainAdvance => DoAdvance(c, s)
    case MainPublish => DoPublish(s)
    case MainFlush(n) => DoFlush(c, s, n)
    case MainExit => SignalWriter(s.(main := MRelease, exitThread := true))
    case MainRelease => s.(main := if s.exitThread then MJoining else MIdle, owner := Nobody)
    case MainJoin => s.(main := MFinished)
    case MainSpurious => s.(main := MWoken(s.main.job))
    case WriterAcquire => s.(writer := WTop, owner := WriterThread)
    case WriterTest =>
      if s.dataReady then s.(writer := WWrite(s.exitThread))
      else if s.exitThread then s.(writer := WDone, owner := Nobody)
      else s.(writer := WWait, owner := Nobody)
    case WriterWrite(n) => DoWrite(s, s.writer.quit, n)
    case WriterSpurious => s.(writer := WWoken)
  }

  /** The recorder as camogm_init_jpeg leaves it, at any ring position. */
  predicate Initial(c: Config, s: State) {
    && s.main == MIdle && s.writer == WStart && s.owner == Nobody
    && !s.dataReady && !s.exitThread && !s.failed && s.slots == EMPTY && !s.open && s.off == 0 && s.totalRec == 0
    && c.start <= s.lba <= c.end && |s.dev| == PHY_BLOCK_SIZE * (c.end - c.start)
    && s.handed == [] && s.served == [] && s.extents == [] && s.fed == [] && s.stream == []
    && s.lapOff == 0 && s.lapBase == 0
  }

  /** A run: each action is possible where it is taken. */
  predicate Possible(c: Config, s: State, run: seq<Action>)
    requires |c.beyond| == 3
    decreases |run|
  {
    run == [] || (Enabled(s, run[0]) && Possible(c, Apply(c, s, run[0]), run[1..]))
  }

  function Run(c: Config, s: State, run: seq<Action>): State
    requires |c.beyond| == 3 && Possible(c, s, run)
    decreases |run|
  {
    if run == [] then s else Run(c, Apply(c, s, run[0]), run[1..])
  }

  // ---------- Safety, over every run ----------

  predicate MainHolds(m: Main) {
    m.MTest? || m.MBody? || m.MAligned? || m.MAdvanced? || m.MRelease? || m.MFault?
  }

  /** The main thread is working on the slots. */
  predicate MainInSlots(m: Main) {
    (m.MBody? && !m.job.Exit?) || m.MAligned? || m.MAdvanced?
  }

  /** The job the main thread is busy with, if it is a frame, has the packet builder's layout. */
  predicate JobOk(m: Main) {
    m.MLock? || m.MTest? || m.MWait? || m.MWoken? || m.MBody? ==> m.job.Store? ==> PacketOk(m.job.p)
  }

  predicate Safe(s: State) {
    && JobOk(s.main)
    && (s.owner.MainThread? <==> MainHolds(s.main))
    && (s.owner.WriterThread? <==> s.writer.WTop? || s.writer.WWrite?)
    && (MainInSlots(s.main) || s.main.MFault? ==> !s.dataReady)
    && (s.writer.WWrite? ==> s.dataReady && s.writer.quit == s.exitThread)
    && (s.writer.WWait? ==> !s.dataReady && !s.exitThread)
    && (s.main.MWait? ==> s.dataReady && !s.main.job.Exit?)
    && (s.writer.WDone? ==> !s.dataReady && s.exitThread)
    && (s.exitThread ==> s.main.MRelease? || s.main.MJoining? || s.main.MFinished?)
    && (s.main.MJoining? || s.main.MFinished? ==> s.exitThread)
    && (s.main.MFinished? ==> s.writer.WDone?)
    && s.handed == s.served + (if s.dataReady then [Emitted(s.slots)] else [])
  }

  /** What serving a transaction leaves alone. */
  lemma ServeFrame(s: State, n: int)
    requires WriteReturns(s, Emitted(s.slots), n)
    ensures var t := Serve(s, n);
      && t.main == s.main && t.writer == s.writer && t.owner == s.owner && t.exitThread == s.exitThread && !t.dataReady
      && t.handed == s.handed && t.served == s.served + [Emitted(s.slots)]
  {
  }

  lemma WriteSafe(s: State, n: int)
    requires Safe(s) && Enabled(s, WriterWrite(n))
    ensures Safe(DoWrite(s, s.writer.quit, n))
  {
    ServeFrame(s, n);
    var t := Serve(s, n);
    assert t.served + [] == t.served == t.handed;
  }

  lemma FlushSafe(c: Config, s: State, n: int)
    requires Safe(s) && Enabled(s, MainFlush(n))
    ensures Safe(DoFlush(c, s, n))
  {
    var t := DoFlush(c, s, n);
    assert t.handed == s.handed && t.served == s.served;
  }

  lemma PublishSafe(s: State)
    requires Safe(s) && Enabled(s, MainPublish)
    ensures Safe(DoPublish(s))
  {
  }

  lemma BodySafe(c: Config, s: State, a: Action)
    requires |c.beyond| == 3 && Safe(s) && Enabled(s, a) && (a.MainAlign? || a.MainAdvance?)
    ensures Safe(Apply(c, s, a))
  {
  }

  lemma MainStepSafe(c: Config, s: State, a: Action)
    requires |c.beyond| == 3 && Safe(s) && Enabled(s, a)
    requires a.Open? || a.Submit? || a.MainAcquire? || a.MainTest? || a.MainExit? || a.MainRelease? || a.MainJoin?
    ensures Safe(Apply(c, s, a))
  {
    assert Apply(c, s, a).slots == s.slots;
  }

  lemma StepSafe(c: Config, s: State, a: Action)
    requires |c.beyond| == 3 && Safe(s) && Enabled(s, a)
    ensures Safe(Apply(c, s, a))
  {
    match a {
      case WriterWrite(n) => WriteSafe(s, n);
      case MainPublish => PublishSafe(s);
      case MainFlush(n) => FlushSafe(c, s, n);
      case MainAlign => BodySafe(c, s, a);
      case MainAdvance => BodySafe(c, s, a);
      case MainSpurious => assert Apply(c, s, a).slots == s.slots;
      case WriterAcquire => assert Apply(c, s, a).slots == s.slots;
      case WriterTest => assert Apply(c, s, a).slots == s.slots;
      case WriterSpurious => assert Apply(c, s, a).slots == s.slots;
      case _ => MainStepSafe(c, s, a);
    }
  }

  /** Handshake safety, over every interleaving of any frames and any write results: at most one thread owns
      the slots, transactions are served once each and in order, the threads never wait for each other, and
      the writer never leaves with a frame pending. */
  lemma {:induction false} RunSafe(c: Config, s: State, run: seq<Action>)
    requires |c.beyond| == 3 && Safe(s) && Possible(c, s, run)
    ensures Safe(Run(c, s, run))
    decreases |run|
  {
    if run != [] {
      StepSafe(c, s, run[0]);
      RunSafe(c, Apply(c, s, run[0]), run[1..]);
    }
  }

  lemma InitialSafe(c: Config, s: State)
    requires Initial(c, s)
    ensures Safe(s)
  {
  }
}
