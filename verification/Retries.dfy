/**
  Frames offered after a failed write: nothing is handed over any more, so nobody resets the slots, and the common
  buffer grows from call to call.
 */
module Retries {
  import opened Bytes
  import opened FrameAlignment
  import opened AlignBuffers
  import opened Handshake
  import opened Delivery
  import opened Reachability

  /** The slots after these packets were aligned, one after the other, without a reset. */
  function Unreset(packets: seq<Packet>, beyond: seq<Byte>): Slots
    requires LayoutOk(packets) && |beyond| == 3
  {
    if packets == [] then EMPTY
    else AlignFrame(Unreset(packets[..|packets| - 1], beyond), packets[|packets| - 1], beyond)
  }

  /** What the heads of the frames come to: markers, Exif and headers. */
  function Heads(packets: seq<Packet>): nat
    requires LayoutOk(packets)
  {
    if packets == [] then 0
    else Heads(packets[..|packets| - 1]) + HeadLen(0, FrameOf(packets[|packets| - 1]))
  }

  lemma GatherLength(r: Slots, prev: seq<Byte>, beyond: seq<Byte>)
    requires |beyond| == 3
    ensures var c := Gather(r, prev, beyond);
            var n := |r.common| + |prev| + |r.leader| + |r.exif| + |r.header|;
      && c == r.(common := c.common, leader := [], exif := [], header := []) && |c.common| == n + StuffingLen(n)
  {
  }

  /** One call on slots nobody reset, on the main path. */
  lemma CommonGrows(s: Slots, p: Packet, beyond: seq<Byte>)
    requires PacketOk(p) && |beyond| == 3 && s.exif == [] && DataLen(FrameOf(p)) >= PHY_BLOCK_SIZE
    ensures var d := AlignFrame(s, p, beyond); var n := |s.common| + HeadLen(|s.rem|, FrameOf(p));
      d.exif == [] && |d.common| == n + StuffingLen(n)
  {
    GatherLength(Remap(s, p), s.rem, beyond);
    hide Gather, StuffingLen, Shrink, Tail;
  }

  /** Each call adds at least the head of its frame. */
  lemma {:induction false} RetriesGrow(packets: seq<Packet>, beyond: seq<Byte>)
    requires LayoutOk(packets) && |beyond| == 3
    requires forall i :: 0 <= i < |packets| ==> DataLen(FrameOf(packets[i])) >= PHY_BLOCK_SIZE
    ensures Unreset(packets, beyond).exif == [] && |Unreset(packets, beyond).common| >= Heads(packets)
    decreases |packets|
  {
    hide AlignFrame, FrameOf, DataLen;
    if packets != [] {
      var front, p := packets[..|packets| - 1], packets[|packets| - 1];
      RetriesGrow(front, beyond);
      CommonGrows(Unreset(front, beyond), p, beyond);
    }
  }

  // ---------- A frame that keeps coming ----------

  /** 480 bytes of marker and header and 576 of bitstream and end marker: 32 bytes over two sectors. */
  function Insistent(): (p: Packet)
    ensures PacketOk(p)
  {
    Packet(false, [[0], Zeros(480), Zeros(574), EOI], 1)
  }

  function Repeated(n: nat): (r: seq<Packet>)
    ensures |r| == n && LayoutOk(r)
  {
    seq(n, i => Insistent())
  }

  /** The slots after k + 1 of its calls. */
  predicate Regular(s: Slots, k: nat) {
    s.exif == s.data1 == s.align == [] && |s.common| == 480 + PHY_BLOCK_SIZE * k && |s.rem| == 32
  }

  lemma FirstCall(beyond: seq<Byte>)
    requires |beyond| == 3
    ensures Regular(AlignFrame(EMPTY, Insistent(), beyond), 0)
  {
    assert StuffingLen(480) == 0;
  }

  lemma NextCall(s: Slots, k: nat, beyond: seq<Byte>)
    requires |beyond| == 3 && Regular(s, k)
    ensures Regular(AlignFrame(s, Insistent(), beyond), k + 1)
  {
    var c := Gather(Remap(s, Insistent()), s.rem, beyond);
    NextGathered(s, k, beyond);
    hide Gather, Remap;
    NextCut(c, k + 1);
    hide CutFrame, ShortFrame, Delay;
    assert |s.rem| + |s.common| + 576 <= TotalSize(Remap(s, Insistent())) + |s.rem| by { NextRemapped(s); }
  }

  lemma NextRemapped(s: Slots)
    ensures TotalSize(Remap(s, Insistent())) >= |s.common| + 576
  {
  }

  lemma NextGathered(s: Slots, k: nat, beyond: seq<Byte>)
    requires |beyond| == 3 && Regular(s, k)
    ensures var c := Gather(Remap(s, Insistent()), s.rem, beyond);
      && c == EMPTY.(common := c.common, data0 := c.data0, trailer := EOI)
      && |c.common| == 480 + PHY_BLOCK_SIZE * (k + 1) && |c.data0| == 574
  {
    GatherLength(Remap(s, Insistent()), s.rem, beyond);
    hide Gather;
    assert StuffingLen(480 + PHY_BLOCK_SIZE * (k + 1)) == 0;
  }

  lemma NextCut(c: Slots, k: nat)
    requires c == EMPTY.(common := c.common, data0 := c.data0, trailer := EOI)
    requires |c.common| == 480 + PHY_BLOCK_SIZE * k && |c.data0| == 574
    ensures DataTotal(c) >= PHY_BLOCK_SIZE && Regular(CutFrame(c), k)
  {
    assert TotalSize(c) == 32 + PHY_BLOCK_SIZE * (k + 2);
    assert TotalSize(c) % PHY_BLOCK_SIZE == 32;
  }

  lemma {:induction false} RegularCalls(n: nat, beyond: seq<Byte>)
    requires |beyond| == 3 && n > 0
    ensures Regular(Unreset(Repeated(n), beyond), n - 1)
    decreases n
  {
    hide AlignFrame, Insistent, Regular;
    assert Repeated(n)[..n - 1] == Repeated(n - 1);
    if n == 1 {
      FirstCall(beyond);
    } else {
      RegularCalls(n - 1, beyond);
      NextCall(Unreset(Repeated(n - 1), beyond), n - 2, beyond);
    }
  }

  /** The call from which on the common buffer would have to hold more than was allocated for it, exactly. */
  lemma RetriesExceedExactly(maxExif: nat, n: nat, beyond: seq<Byte>)
    requires |beyond| == 3
    ensures |Unreset(Repeated(n), beyond).common| > CommonBuffSize(maxExif) <==> PHY_BLOCK_SIZE * n > maxExif + 1856
  {
    if n > 0 {
      RegularCalls(n, beyond);
    }
  }

  // ---------- A run that does it ----------

  /** Some run, faithful or not, leads from s to t. */
  ghost predicate Leads(c: Config, s: State, t: State)
    requires |c.beyond| == 3
  {
    exists run :: Possible(c, s, run) && Run(c, s, run) == t
  }

  lemma {:induction false} RunOn(c: Config, s: State, run: seq<Action>, a: Action)
    requires |c.beyond| == 3 && Possible(c, s, run) && Enabled(Run(c, s, run), a)
    ensures Possible(c, s, run + [a]) && Run(c, s, run + [a]) == Apply(c, Run(c, s, run), a)
    decreases |run|
  {
    hide Enabled, Apply;
    if run == [] {
      assert run + [a] == [a] && [a][1..] == [];
    } else {
      assert (run + [a])[1..] == run[1..] + [a];
      RunOn(c, Apply(c, s, run[0]), run[1..], a);
    }
  }

  lemma Further(c: Config, s: State, t: State, a: Action) returns (u: State)
    requires |c.beyond| == 3 && Leads(c, s, t) && Enabled(t, a)
    ensures u == Apply(c, t, a) && Leads(c, s, u)
  {
    hide Enabled, Apply, Possible, Run;
    var run :| Possible(c, s, run) && Run(c, s, run) == t;
    RunOn(c, s, run, a);
    u := Apply(c, t, a);
  }

  lemma ReachesLeads(c: Config, s: State, t: State)
    requires |c.beyond| == 3 && Reaches(c, s, t)
    ensures Leads(c, s, t)
  {
    hide FaithfulRun, Possible, Run;
  }

  /** The last write failed, and both threads are at rest. */
  predicate FailedAtRest(s: State) {
    s.main == MIdle && s.owner == Nobody && s.writer == WWait && s.failed && s.open && !s.dataReady && !s.exitThread
  }

  /** One more frame is offered, and goes nowhere. */
  lemma Retry(c: Config, s: State, t: State, p: Packet) returns (u: State)
    requires |c.beyond| == 3 && Leads(c, s, t) && FailedAtRest(t) && PacketOk(p)
    ensures Leads(c, s, u) && FailedAtRest(u) && u.slots == AlignFrame(t.slots, p, c.beyond)
    ensures u.dev == t.dev && u.handed == t.handed
  {
    hide Leads, AlignFrame, Emitted, UpdateLba;
    u := Further(c, s, t, Submit(Store(p)));
    u := Further(c, s, u, MainAcquire);
    u := Further(c, s, u, MainTest);
    u := Further(c, s, u, MainAlign);
    u := Further(c, s, u, MainAdvance);
    u := Further(c, s, u, MainPublish);
    u := Further(c, s, u, MainRelease);
  }

  lemma FirstHandedOver(c: Config) returns (t: State)
    requires |c.beyond| == 3 && c.start + 2 <= c.end
    ensures Leads(c, Start(c), t) && t.main == MIdle && t.owner == Nobody && t.open && !t.exitThread && t.dataReady
    ensures (t.writer == WStart || t.writer == WWoken) && Emitted(t.slots) != []
  {
    StartIsInitial(c);
    InsistentStorable(c);
    hide Initial, Reaches, AlignFrame, Insistent, Emitted, Storable, UpdateLba, Leads, FrameOf;
    t := Opened(c, Start(c));
    t := Aligned(c, Start(c), t, Insistent());
    t := HandedOver(c, Start(c), t);
    ReachesLeads(c, Start(c), t);
  }

  /** A first write that fails leaves empty slots. */
  lemma FirstWriteFails(c: Config) returns (t: State)
    requires |c.beyond| == 3 && c.start + 2 <= c.end
    ensures Leads(c, Start(c), t) && FailedAtRest(t) && t.slots == EMPTY
  {
    hide Emitted, Leads, Start;
    t := FirstHandedOver(c);
    t := Further(c, Start(c), t, WriterAcquire);
    t := Further(c, Start(c), t, WriterTest);
    t := WriteFails(c, Start(c), t);
    t := Further(c, Start(c), t, WriterTest);
  }

  lemma WriteFails(c: Config, s: State, t: State) returns (u: State)
    requires |c.beyond| == 3 && Leads(c, s, t) && t.writer == WWrite(false) && t.main == MIdle && Emitted(t.slots) != []
    ensures Leads(c, s, u) && u.slots == EMPTY && u.failed && !u.dataReady && u.writer == WTop
    ensures u.main == MIdle && u.owner == t.owner && u.open == t.open && u.exitThread == t.exitThread
  {
    hide Leads, Emitted;
    u := Further(c, s, t, WriterWrite(-1));
  }

  lemma InsistentStorable(c: Config)
    requires |c.beyond| == 3 && c.start + 2 <= c.end
    ensures Storable(c, 0, FrameOf(Insistent())) && Emitted(AlignFrame(EMPTY, Insistent(), c.beyond)) != []
  {
    assert StuffingLen(480) == 0;
  }

  /** However many frames follow a failed write, the run goes on, and the slots are as if no one had reset them. */
  lemma {:induction false} RetriesGoOn(c: Config, packets: seq<Packet>) returns (t: State)
    requires |c.beyond| == 3 && c.start + 2 <= c.end && LayoutOk(packets)
    ensures Leads(c, Start(c), t) && FailedAtRest(t) && t.slots == Unreset(packets, c.beyond)
    decreases |packets|
  {
    hide Leads, AlignFrame, FailedAtRest;
    if packets == [] {
      t := FirstWriteFails(c);
    } else {
      t := RetriesGoOn(c, packets[..|packets| - 1]);
      t := Retry(c, Start(c), t, packets[|packets| - 1]);
    }
  }
}
