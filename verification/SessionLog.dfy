/**
  Every write of a run, with its place on the device: together the writes of a session are its byte stream, laps
  around the ring included, and a write stays on the device until a later one overlaps it.
 */
module SessionLog {
  import opened Bytes
  import opened FrameAlignment
  import opened AlignmentTheorems
  import opened Handshake
  import opened RingPointer
  import opened Delivery

  /** Bytes put on the device from offset `at` on. */
  datatype Piece = Piece(at: nat, data: seq<Byte>)

  /** What a step writes, when it is written completely. */
  function Written(s: State, a: Action): seq<Piece> {
    if a.WriterWrite? then [Piece(s.off, Emitted(s.slots))]
    else if a.MainFlush? && 0 < |s.slots.rem| <= PHY_BLOCK_SIZE then [Piece(s.off, LastBlock(s))]
    else []
  }

  function Log(c: Config, s: State, run: seq<Action>): seq<Piece>
    requires |c.beyond| == 3 && Possible(c, s, run)
    decreases |run|
  {
    if run == [] then [] else Written(s, run[0]) + Log(c, Apply(c, s, run[0]), run[1..])
  }

  /** The writes since the last start of a recording, when `before` are those so far. */
  function Session(c: Config, s: State, run: seq<Action>, before: seq<Piece>): seq<Piece>
    requires |c.beyond| == 3 && Possible(c, s, run)
    decreases |run|
  {
    if run == [] then before
    else Session(c, Apply(c, s, run[0]), run[1..], if run[0].Open? then [] else before + Written(s, run[0]))
  }

  function BytesOf(pieces: seq<Piece>): seq<Byte> {
    if pieces == [] then [] else BytesOf(pieces[..|pieces| - 1]) + pieces[|pieces| - 1].data
  }

  predicate Apart(p: Piece, q: Piece) {
    p.at + |p.data| <= q.at || q.at + |q.data| <= p.at
  }

  predicate OnDevice(dev: seq<Byte>, p: Piece) {
    p.at + |p.data| <= |dev| && dev[p.at..p.at + |p.data|] == p.data
  }

  // ---------- A write stays until it is overlapped ----------

  predicate Spliced(dev: seq<Byte>, out: seq<Byte>, p: Piece) {
    p.at + |p.data| <= |dev| && out == dev[..p.at] + p.data + dev[p.at + |p.data|..]
  }

  lemma WriterLands(c: Config, s: State, n: int)
    requires Coupled(c, s) && Safe(s) && Enabled(s, WriterWrite(n)) && n == |Emitted(s.slots)|
    ensures Spliced(s.dev, DoWrite(s, s.writer.quit, n).dev, Piece(s.off, Emitted(s.slots)))
  {
    PendingFits(c, s);
    ServeGood(s);
  }

  lemma FlushLands(c: Config, s: State, n: int)
    requires |c.beyond| == 3 && Coupled(c, s) && Safe(s) && Enabled(s, MainFlush(n)) && Good(c, s, MainFlush(n))
    ensures s.slots.rem == [] ==> DoFlush(c, s, n).dev == s.dev
    ensures s.slots.rem != [] ==> Spliced(s.dev, DoFlush(c, s, n).dev, Piece(s.off, LastBlock(s)))
  {
    if s.slots.rem != [] {
      LastBlockFits(c, s);
      LastBlockIs(s);
      LastBlockLands(c, s);
    }
  }

  /** What a step of a good run does to the device. */
  lemma StepLands(c: Config, s: State, a: Action)
    requires |c.beyond| == 3 && Coupled(c, s) && Safe(s) && Enabled(s, a) && Good(c, s, a)
    ensures var w, t := Written(s, a), Apply(c, s, a);
      if w == [] then t.dev == s.dev else |w| == 1 && Spliced(s.dev, t.dev, w[0])
  {
    hide Coupled, Spliced, Emitted, LastBlock;
    if a.WriterWrite? {
      WriterLands(c, s, a.n);
    } else if a.MainFlush? {
      FlushLands(c, s, a.n);
    }
  }

  /** What a step writes is there afterwards, and nothing else has changed. */
  lemma StepWrites(c: Config, s: State, a: Action, p: Piece)
    requires |c.beyond| == 3 && Coupled(c, s) && Safe(s) && Enabled(s, a) && Good(c, s, a)
    ensures var t := Apply(c, s, a);
      && (forall q :: q in Written(s, a) ==> OnDevice(t.dev, q))
      && ((forall q :: q in Written(s, a) ==> Apart(p, q)) && OnDevice(s.dev, p) ==> OnDevice(t.dev, p))
  {
    hide Coupled, Safe, Good, Apply, OnDevice, Apart, Written;
    StepLands(c, s, a);
    if Written(s, a) != [] {
      var w := Written(s, a)[0];
      Splices(s.dev, w.at, w.data, p);
      assert w in Written(s, a);
    }
  }

  lemma Splices(dev: seq<Byte>, off: nat, data: seq<Byte>, p: Piece)
    requires off + |data| <= |dev|
    ensures var d := dev[..off] + data + dev[off + |data|..];
      && OnDevice(d, Piece(off, data))
      && (Apart(p, Piece(off, data)) && OnDevice(dev, p) ==> OnDevice(d, p))
  {
  }

  lemma {:induction false} Untouched(c: Config, s: State, run: seq<Action>, p: Piece)
    requires |c.beyond| == 3 && Coupled(c, s) && Safe(s) && GoodRun(c, s, run) && Possible(c, s, run)
    requires OnDevice(s.dev, p) && forall q :: q in Log(c, s, run) ==> Apart(p, q)
    ensures OnDevice(Run(c, s, run).dev, p)
    decreases |run|
  {
    hide Coupled, Safe, Good, Enabled, Apply, OnDevice, Apart, Written;
    if run != [] {
      StepWrites(c, s, run[0], p);
      StepSafe(c, s, run[0]);
      StepCoupled(c, s, run[0]);
      Untouched(c, Apply(c, s, run[0]), run[1..], p);
    }
  }

  /** Every write of a good run is on the device at its end, unless a later write overlaps it. */
  lemma {:induction false} WritesAreKept(c: Config, s: State, run: seq<Action>, i: nat)
    requires |c.beyond| == 3 && Coupled(c, s) && Safe(s) && GoodRun(c, s, run) && Possible(c, s, run)
    requires i < |Log(c, s, run)| && forall j :: i < j < |Log(c, s, run)| ==> Apart(Log(c, s, run)[i], Log(c, s, run)[j])
    ensures OnDevice(Run(c, s, run).dev, Log(c, s, run)[i])
    decreases |run|
  {
    hide Coupled, Safe, Good, Enabled, Apply, OnDevice, Apart;
    if run != [] {
      var first, rest := Written(s, run[0]), Log(c, Apply(c, s, run[0]), run[1..]);
      var p := Log(c, s, run)[i];
      StepWrites(c, s, run[0], p);
      StepSafe(c, s, run[0]);
      StepCoupled(c, s, run[0]);
      ApartBehind(first, rest, i);
      if i < |first| {
        Untouched(c, Apply(c, s, run[0]), run[1..], p);
      } else {
        WritesAreKept(c, Apply(c, s, run[0]), run[1..], i - |first|);
      }
    }
  }

  lemma ApartBehind(first: seq<Piece>, rest: seq<Piece>, i: nat)
    requires i < |first + rest| && forall j :: i < j < |first + rest| ==> Apart((first + rest)[i], (first + rest)[j])
    ensures i < |first| ==> forall q :: q in rest ==> Apart(first[i], q)
    ensures i >= |first| ==> forall j :: i - |first| < j < |rest| ==> Apart(rest[i - |first|], rest[j])
  {
    forall j | 0 <= j < |rest| && i < |first| + j
      ensures Apart((first + rest)[i], rest[j])
    {
      assert (first + rest)[|first| + j] == rest[j];
    }
  }

  // ---------- The writes of a session are its stream ----------

  /** The writes so far, the pending transaction and REM are the session's stream. */
  predicate Spelled(s: State, pieces: seq<Piece>) {
    BytesOf(pieces) + (Unwritten(s) + s.slots.rem) == s.stream
  }

  lemma JoinedNext(pieces: seq<Piece>, p: Piece)
    ensures BytesOf(pieces + [p]) == BytesOf(pieces) + p.data
  {
    assert (pieces + [p])[..|pieces|] == pieces;
  }

  lemma OpenSpelled(c: Config, s: State)
    requires Coupled(c, s) && Safe(s) && Enabled(s, Open)
    ensures Spelled(DoOpen(c, s), [])
  {
  }

  lemma AlignSpelled(c: Config, s: State, pieces: seq<Piece>)
    requires |c.beyond| == 3 && Coupled(c, s) && Safe(s) && Enabled(s, MainAlign) && Faithful(c, s, MainAlign)
    requires Spelled(s, pieces)
    ensures Spelled(DoAlign(c, s, s.main.job.p), pieces)
  {
    var p := s.main.job.p;
    AlignFrameKeepsStream(s.slots, p, c.beyond);
    hide AlignFrame, Stuffed;
    JoinRight(BytesOf(pieces), s.slots.rem, Emitted(AlignFrame(s.slots, p, c.beyond)),
              AlignFrame(s.slots, p, c.beyond).rem, 0, s.stream, Stuffed(|s.slots.rem|, FrameOf(p), c.beyond));
  }

  lemma WriteSpelled(c: Config, s: State, n: int, pieces: seq<Piece>)
    requires Coupled(c, s) && Safe(s) && Enabled(s, WriterWrite(n)) && n == |Emitted(s.slots)| && Spelled(s, pieces)
    ensures Spelled(DoWrite(s, s.writer.quit, n), pieces + [Piece(s.off, Emitted(s.slots))])
  {
    PendingFits(c, s);
    ServeGood(s);
    ServeFrame(s, n);
    JoinedNext(pieces, Piece(s.off, Emitted(s.slots)));
    hide Emitted, BytesOf, Serve;
    Settle(BytesOf(pieces), Emitted(s.slots), s.slots.rem);
  }

  lemma FlushSpelled(c: Config, s: State, n: int, pieces: seq<Piece>)
    requires |c.beyond| == 3 && Coupled(c, s) && Safe(s) && Enabled(s, MainFlush(n)) && Good(c, s, MainFlush(n))
    requires Spelled(s, pieces)
    ensures Spelled(DoFlush(c, s, n), pieces + Written(s, MainFlush(n)))
  {
    if s.slots.rem == [] {
      assert pieces + [] == pieces;
    } else {
      FlushState(c, s, n);
      LastBlockIs(s);
      JoinedNext(pieces, Piece(s.off, LastBlock(s)));
      hide Coupled, Safe, Good, DoFlush, LastBlock, BytesOf;
      FlushedStream(BytesOf(pieces), s.slots.rem, Zeros(PHY_BLOCK_SIZE - |s.slots.rem|));
    }
  }

  /** What the flush leaves of the data, and that it completes. */
  lemma FlushState(c: Config, s: State, n: int)
    requires |c.beyond| == 3 && Coupled(c, s) && Safe(s) && Enabled(s, MainFlush(n)) && Good(c, s, MainFlush(n))
    requires s.slots.rem != []
    ensures |s.slots.rem| <= PHY_BLOCK_SIZE && Unwritten(s) == []
    ensures var t := DoFlush(c, s, n);
      && Unwritten(t) == [] && t.slots.rem == [] && t.stream == s.stream + Zeros(PHY_BLOCK_SIZE - |s.slots.rem|)
  {
    LastBlockFits(c, s);
    LastBlockIs(s);
    LastBlockLands(c, s);
  }

  lemma FlushedStream(a: seq<Byte>, rem: seq<Byte>, zeros: seq<Byte>)
    ensures a + (rem + zeros) + ([] + []) == a + ([] + rem) + zeros
  {
    assert [] + rem == rem;
  }

  lemma AdvanceSpelled(c: Config, s: State, pieces: seq<Piece>)
    requires Coupled(c, s) && Enabled(s, MainAdvance) && Spelled(s, pieces)
    ensures Spelled(DoAdvance(c, s), pieces)
  {
  }

  lemma ControlSpelled(c: Config, s: State, a: Action, pieces: seq<Piece>)
    requires |c.beyond| == 3 && Coupled(c, s) && Safe(s) && Enabled(s, a) && ControlAction(a) && Spelled(s, pieces)
    ensures Spelled(Apply(c, s, a), pieces)
  {
    ControlStep(c, s, a);
  }

  lemma StepSpelled(c: Config, s: State, a: Action, pieces: seq<Piece>)
    requires |c.beyond| == 3 && Coupled(c, s) && Safe(s) && Enabled(s, a) && Faithful(c, s, a) && Spelled(s, pieces)
    ensures Spelled(Apply(c, s, a), if a.Open? then [] else pieces + Written(s, a))
  {
    hide Coupled, Safe, Spelled, Emitted;
    assert pieces + [] == pieces;
    if ControlAction(a) {
      ControlSpelled(c, s, a, pieces);
    } else {
      match a {
        case Open => OpenSpelled(c, s);
        case MainAlign => AlignSpelled(c, s, pieces);
        case MainAdvance => AdvanceSpelled(c, s, pieces);
        case MainFlush(n) => FlushSpelled(c, s, n, pieces);
        case WriterWrite(n) => WriteSpelled(c, s, n, pieces);
      }
    }
  }

  lemma {:induction false} RunSpelled(c: Config, s: State, run: seq<Action>, pieces: seq<Piece>)
    requires |c.beyond| == 3 && Coupled(c, s) && Safe(s) && FaithfulRun(c, s, run) && Possible(c, s, run)
    requires Spelled(s, pieces)
    ensures Spelled(Run(c, s, run), Session(c, s, run, pieces)) && GoodRun(c, s, run)
    decreases |run|
  {
    hide Coupled, Safe, Good, Enabled, Apply, Spelled, Written;
    if run != [] {
      StepSpelled(c, s, run[0], pieces);
      StepSafe(c, s, run[0]);
      StepCoupled(c, s, run[0]);
      RunSpelled(c, Apply(c, s, run[0]), run[1..], if run[0].Open? then [] else pieces + Written(s, run[0]));
    }
  }

  /** The writes of the session are the last ones of the run. */
  lemma {:induction false} SessionEndsLog(c: Config, s: State, run: seq<Action>, before: seq<Piece>)
    requires |c.beyond| == 3 && Possible(c, s, run)
    ensures var own, all := Session(c, s, run, before), before + Log(c, s, run);
      |own| <= |all| && own == all[|all| - |own|..]
    decreases |run|
  {
    hide Apply, Written, Enabled;
    if run != [] {
      hide Log, Session;
      LogNext(c, s, run, before);
      var w, rest := Written(s, run[0]), Log(c, Apply(c, s, run[0]), run[1..]);
      var next := if run[0].Open? then [] else before + w;
      var own := Session(c, Apply(c, s, run[0]), run[1..], next);
      SessionEndsLog(c, Apply(c, s, run[0]), run[1..], next);
      if run[0].Open? {
        EndOfLonger(before + w, rest, own);
      }
      assert before + (w + rest) == (before + w) + rest;
    }
  }

  lemma LogNext(c: Config, s: State, run: seq<Action>, before: seq<Piece>)
    requires |c.beyond| == 3 && Possible(c, s, run) && run != []
    ensures var w, t := Written(s, run[0]), Apply(c, s, run[0]);
      && Log(c, s, run) == w + Log(c, t, run[1..])
      && Session(c, s, run, before) == Session(c, t, run[1..], if run[0].Open? then [] else before + w)
  {
  }

  lemma EndOfLonger(front: seq<Piece>, rest: seq<Piece>, own: seq<Piece>)
    requires |own| <= |[] + rest| && own == ([] + rest)[|[] + rest| - |own|..]
    ensures |own| <= |front + rest| && own == (front + rest)[|front + rest| - |own|..]
  {
    assert [] + rest == rest;
  }

  lemma StoppedSpells(c: Config, s: State, run: seq<Action>)
    requires |c.beyond| == 3 && Initial(c, s) && FaithfulRun(c, s, run)
    ensures Possible(c, s, run) && GoodRun(c, s, run)
    ensures !Run(c, s, run).open ==>
      && LayoutOk(Offered(run, []))
      && BytesOf(Session(c, s, run, [])) == Padded(Feed(FramesOf(Offered(run, [])), c.beyond).0)
  {
    hide Coupled, Safe, Delivered, Initial, Possible, FaithfulRun, GoodRun, Run, Log, Session;
    hide Feed, Padded, BytesOf, Spelled, Offered, FramesOf;
    InitialSafe(c, s);
    InitialCoupled(c, s);
    InitialDelivered(c, s);
    InitialSpelled(c, s);
    RunDelivered(c, s, run);
    RunSpelled(c, s, run, []);
    if !Run(c, s, run).open {
      StoppedTookAll(c, s, run);
      NothingLeft(c, Run(c, s, run), Session(c, s, run, []));
    }
  }

  /** Whatever the interleaving and however often the ring was gone around: once the recording is stopped, the
      writes of the session are, one after the other, the frames submitted in order, each with its stuffing
      segment, filled up with zeros to a whole sector; and each write of the run that no later one overlaps is on
      the device. */
  lemma StoppedSessionIsKept(c: Config, s: State, run: seq<Action>)
    requires |c.beyond| == 3 && Initial(c, s) && FaithfulRun(c, s, run)
    ensures Possible(c, s, run)
    ensures var t, all, own := Run(c, s, run), Log(c, s, run), Session(c, s, run, []);
      && |own| <= |all| && own == all[|all| - |own|..]
      && (!t.open ==> LayoutOk(Offered(run, [])) && BytesOf(own) == Padded(Feed(FramesOf(Offered(run, [])), c.beyond).0))
      && forall i :: 0 <= i < |all| && (forall j :: i < j < |all| ==> Apart(all[i], all[j])) ==> OnDevice(t.dev, all[i])
  {
    hide Coupled, Safe, Initial, Possible, FaithfulRun, GoodRun, Run, Log, Session, OnDevice, Apart;
    hide Feed, Padded, BytesOf, Offered, FramesOf, LayoutOk;
    StoppedSpells(c, s, run);
    SessionEndsLog(c, s, run, []);
    InitialSafe(c, s);
    InitialCoupled(c, s);
    var all := Log(c, s, run);
    assert [] + all == all;
    forall i | 0 <= i < |all| && (forall j :: i < j < |all| ==> Apart(all[i], all[j]))
      ensures OnDevice(Run(c, s, run).dev, all[i])
    {
      WritesAreKept(c, s, run, i);
    }
  }

  lemma InitialSpelled(c: Config, s: State)
    requires Initial(c, s)
    ensures Spelled(s, [])
  {
  }

  lemma NothingLeft(c: Config, t: State, own: seq<Piece>)
    requires |c.beyond| == 3 && Delivered(c, t) && Coupled(c, t) && !t.open && Spelled(t, own)
    ensures BytesOf(own) == Padded(Feed(t.fed, c.beyond).0)
  {
    hide BytesOf, Feed, Padded;
    assert BytesOf(own) + ([] + []) == BytesOf(own);
  }
}
