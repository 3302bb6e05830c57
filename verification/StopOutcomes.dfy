/** How a stop can end: the last block written, the last block lost behind the end of the partition, or a fault. */
module StopOutcomes {
  import opened Bytes
  import opened FrameAlignment
  import opened AlignmentTheorems
  import opened Handshake
  import opened RingPointer
  import opened Delivery
  import opened Reachability

  /** Stopping fails exactly when the last frame's end marker would have been parted: the remainder is then one
      byte more than the last block holds. */
  lemma StopFaultsExactly(c: Config, s: State, n: int)
    requires |c.beyond| == 3 && Delivered(c, s) && Coupled(c, s) && Safe(s) && s.open && Enabled(s, MainFlush(n))
    ensures DoFlush(c, s, n).main.MFault? <==>
      && s.fed != []
      && var rem := Feed(s.fed[..|s.fed| - 1], c.beyond).1;
         var f := s.fed[|s.fed| - 1];
      && !Delayed(rem, f) && DataLen(f) >= PHY_BLOCK_SIZE && (CommonLen(rem, f) + DataLen(f)) % PHY_BLOCK_SIZE == 1
  {
    hide CommonLen, DataLen, Stuffed;
    assert DoFlush(c, s, n).main.MFault? <==> |s.slots.rem| > PHY_BLOCK_SIZE;
    if s.fed != [] {
      var rem := Feed(s.fed[..|s.fed| - 1], c.beyond).1;
      assert |s.slots.rem| == Residue(rem, s.fed[|s.fed| - 1]);
    }
  }

  /** The last block can be written exactly when there is none or the ring pointer has not reached the end. */
  lemma LastBlockWrittenExactly(c: Config, s: State)
    requires |c.beyond| == 3 && Coupled(c, s) && Safe(s) && s.main == MBody(Stop) && |s.slots.rem| <= PHY_BLOCK_SIZE
    ensures (exists n :: Enabled(s, MainFlush(n)) && !DoFlush(c, s, n).failed) <==> s.slots.rem == [] || s.lba < c.end
  {
    hide LastBlock;
    LastBlockFits(c, s);
    if s.slots.rem == [] {
      assert LastBlock(s) == [] by { NoLastBlock(s); }
      assert Enabled(s, MainFlush(0)) && !DoFlush(c, s, 0).failed;
    } else {
      LastBlockIs(s);
      if s.lba < c.end {
        assert Enabled(s, MainFlush(PHY_BLOCK_SIZE)) && !DoFlush(c, s, PHY_BLOCK_SIZE).failed;
      }
    }
  }

  lemma NoLastBlock(s: State)
    requires s.slots.rem == []
    ensures LastBlock(s) == []
  {
  }

  /** From s to t the recording was closed and failed, and the device keeps the stream without the remainder. */
  predicate CutShort(s: State, t: State) {
    && t.failed && !t.open && t.slots == EMPTY && t.dev == s.dev && t.off == s.off
    && s.lapOff <= s.off <= |t.dev| && s.lapBase + |s.slots.rem| <= |s.stream|
    && t.dev[s.lapOff..s.off] == s.stream[s.lapBase..|s.stream| - |s.slots.rem|]
  }

  /** With the pointer at the end of the partition the flush fails whatever the device does: the remainder, which
      is the end of the session's stream, is dropped, and the device keeps the stream without it. */
  lemma LastBlockLost(c: Config, s: State, n: int)
    requires |c.beyond| == 3 && Coupled(c, s) && Safe(s) && OnDisk(s) && s.main == MBody(Stop) && s.lba == c.end
    requires 0 < |s.slots.rem| <= PHY_BLOCK_SIZE && Enabled(s, MainFlush(n))
    ensures CutShort(s, DoFlush(c, s, n))
  {
    LastBlockFits(c, s);
    LastBlockIs(s);
    hide LastBlock;
    WithoutEnd(s.dev[s.lapOff..s.off], s.slots.rem, s.stream, s.lapBase);
  }

  lemma WithoutEnd(a: seq<Byte>, rem: seq<Byte>, s: seq<Byte>, base: nat)
    requires base <= |s| && a + ([] + rem) == s[base..]
    ensures base + |rem| <= |s| && a == s[base..|s| - |rem|]
  {
    assert |a| + |rem| == |s| - base;
    assert a == (a + ([] + rem))[..|a|];
  }

  // ---------- Runs that end so ----------

  /** A session of one frame, up to the stop. */
  lemma StopAfter(c: Config, p: Packet) returns (t: State)
    requires |c.beyond| == 3 && c.start <= c.end && PacketOk(p) && Storable(c, 0, FrameOf(p))
    ensures Reaches(c, Start(c), t) && t.main == MBody(Stop) && t.fed == [FrameOf(p)] && t.open
    ensures var d := AlignFrame(EMPTY, p, c.beyond);
      t.slots.rem == d.rem && t.lba == UpdateLba(c.start, c.start, c.end, |Emitted(d)| / PHY_BLOCK_SIZE).0
  {
    hide Reaches, Storable, Initial, AlignFrame, Emitted, FrameOf;
    StartIsInitial(c);
    t := Opened(c, Start(c));
    t := Stored(c, Start(c), t, p);
    t := Taken(c, Start(c), t, Stop);
  }

  /** 623 bytes of marker and header, a bitstream of n zeros, and the end marker. */
  function Sample(n: nat): (p: Packet)
    ensures PacketOk(p)
  {
    Packet(false, [[0], Zeros(623), Zeros(n), EOI], 1)
  }

  lemma SampleLengths(n: nat, beyond: seq<Byte>)
    requires n >= PHY_BLOCK_SIZE && |beyond| == 3
    ensures var f := FrameOf(Sample(n));
      && !Delayed(0, f) && !PartialTake(0, f) && |Stuffed(0, f, beyond)| == 642 + n
      && Stuffed(0, f, beyond)[640 + n..] == EOI
      && Residue(0, f) == if (642 + n) % PHY_BLOCK_SIZE == 1 then PHY_BLOCK_SIZE + 1 else (642 + n) % PHY_BLOCK_SIZE
  {
    assert StuffingLen(623) == 17;
  }

  /** A session of one frame that cannot be stopped: every flush ends in the fault. */
  lemma StopCanFault(c: Config) returns (t: State)
    requires |c.beyond| == 3 && c.start + 2 <= c.end
    ensures Reaches(c, Start(c), t) && t.main == MBody(Stop) && t.fed == [FrameOf(Sample(895))]
    ensures Enabled(t, MainFlush(0)) && forall n :: Enabled(t, MainFlush(n)) ==> DoFlush(c, t, n).main.MFault?
  {
    SampleLengths(895, c.beyond);
    EmittedLengths(EMPTY, Sample(895), c.beyond);
    hide Reaches, FrameOf, Sample, Delayed, PartialTake, Stuffed, Residue, AlignFrame, Emitted;
    t := StopAfter(c, Sample(895));
  }

  /** A frame whose sectors fill the partition: its end marker stays for the last block, which has no room. */
  lemma LastBlockCanMiss(beyond: seq<Byte>) returns (t: State)
    requires |beyond| == 3
    ensures var c := Config(0, 3, beyond);
      && Reaches(c, Start(c), t) && t.main == MBody(Stop) && t.slots.rem == EOI && t.lba == c.end
      && Enabled(t, MainFlush(-1)) && forall n :: Enabled(t, MainFlush(n)) ==> DoFlush(c, t, n).failed
  {
    var c := Config(0, 3, beyond);
    SampleLengths(896, beyond);
    SampleFills(beyond);
    hide Reaches, FrameOf, Sample, Delayed, PartialTake, Stuffed, Residue, AlignFrame, Emitted, Coupled, Safe, Delivered;
    t := StopAfter(c, Sample(896));
    StartIsInitial(c);
    Reached(c, Start(c), t);
    NoRoom(c, t);
  }

  lemma SampleFills(beyond: seq<Byte>)
    requires |beyond| == 3
    ensures var d := AlignFrame(EMPTY, Sample(896), beyond); |Emitted(d)| == 3 * PHY_BLOCK_SIZE && d.rem == EOI
  {
    var p := Sample(896);
    SampleLengths(896, beyond);
    EmittedLengths(EMPTY, p, beyond);
    AlignFrameKeepsStream(EMPTY, p, beyond);
    hide FrameOf, Sample, Delayed, PartialTake, Stuffed, Residue, AlignFrame, Emitted;
    SplitAt(Emitted(AlignFrame(EMPTY, p, beyond)), AlignFrame(EMPTY, p, beyond).rem, Stuffed(0, FrameOf(p), beyond));
  }

  lemma SplitAt(a: seq<Byte>, b: seq<Byte>, s: seq<Byte>)
    requires a + b == [] + s
    ensures b == s[|a|..]
  {
    assert b == (a + b)[|a|..];
  }

  lemma NoRoom(c: Config, t: State)
    requires |c.beyond| == 3 && Coupled(c, t) && Safe(t) && Delivered(c, t) && t.main == MBody(Stop) && t.lba == c.end
    requires 0 < |t.slots.rem| <= PHY_BLOCK_SIZE
    ensures Enabled(t, MainFlush(-1)) && forall n :: Enabled(t, MainFlush(n)) ==> DoFlush(c, t, n).failed
  {
    assert Enabled(t, MainFlush(-1)) by {
      LastBlockIs(t);
    }
    hide Coupled, Safe;
    forall n | Enabled(t, MainFlush(n))
      ensures DoFlush(c, t, n).failed
    {
      LastBlockLost(c, t, n);
    }
  }
}
