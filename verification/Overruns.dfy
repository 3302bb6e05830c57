/** A run whose writes are together one sector longer than what certainly survives, and overwrite each other. */
module Overruns {
  import opened Bytes
  import opened FrameAlignment
  import opened Handshake
  import opened RingPointer
  import opened Delivery
  import opened Reachability
  import opened Survival

  /** A frame that is written as n whole sectors and leaves nothing over. */
  function WholeFrame(n: nat): (p: Packet)
    requires n > 0
    ensures PacketOk(p)
  {
    Packet(false, [[0], Zeros(480), Zeros(PHY_BLOCK_SIZE * (n - 1) + 30), EOI], 1)
  }

  lemma WholeFrameLengths(n: nat, beyond: seq<Byte>)
    requires n > 0 && |beyond| == 3
    ensures var f := FrameOf(WholeFrame(n));
      && !Delayed(0, f) && !PartialTake(0, f) && |Stuffed(0, f, beyond)| == PHY_BLOCK_SIZE * n && Residue(0, f) == 0
  {
    assert StuffingLen(480) == 0;
    assert CommonLen(0, FrameOf(WholeFrame(n))) + DataLen(FrameOf(WholeFrame(n))) == PHY_BLOCK_SIZE * n;
    assert PHY_BLOCK_SIZE * n % PHY_BLOCK_SIZE == 0;
  }

  /** It takes the next n sectors, or the first n of the partition if they do not fit. */
  lemma OneWhole(c: Config, s: State, t: State, n: nat) returns (u: State)
    requires |c.beyond| == 3 && Initial(c, s) && Reaches(c, s, t) && AtRest(t) && t.slots == EMPTY
    requires 0 < n <= Sectors(c)
    ensures Reaches(c, s, u) && AtRest(u) && u.slots == EMPTY && Grew(c, t, u, n)
    ensures u.lba == if t.lba + n <= c.end then t.lba + n else c.start + n
  {
    var p := WholeFrame(n);
    WholeFrameLengths(n, c.beyond);
    EmittedLengths(EMPTY, p, c.beyond);
    assert |Emitted(AlignFrame(EMPTY, p, c.beyond))| / PHY_BLOCK_SIZE == n;
    hide Reaches, AlignFrame, Emitted, Initial, FrameOf, WholeFrame, Stuffed, Residue, Delayed, PartialTake;
    u := Stored(c, s, t, p);
  }

  /** Single sectors, one behind the other. */
  lemma {:induction false} Singles(c: Config, s: State, t: State, n: nat) returns (u: State)
    requires |c.beyond| == 3 && Initial(c, s) && Reaches(c, s, t) && AtRest(t) && t.slots == EMPTY
    requires c.start <= t.lba && t.lba + n <= c.end
    ensures Reaches(c, s, u) && AtRest(u) && u.slots == EMPTY && u.lba == t.lba + n
    ensures u.extents == t.extents + seq(n, i requires 0 <= i => Extent(t.lba - c.start + i, t.lba - c.start + i + 1))
    decreases n
  {
    hide Reaches, Initial;
    if n == 0 {
      u := t;
    } else {
      u := Singles(c, s, t, n - 1);
      var before := u;
      u := OneWhole(c, s, u, 1);
      assert u.extents == before.extents + [Extent(t.lba - c.start + n - 1, t.lba - c.start + n)];
    }
  }

  /** A recorder whose pointer is not at the start. */
  function StartAt(c: Config, sector: nat): State {
    Start(c).(lba := c.start + sector)
  }

  /** For every partition and every length of at most half of it there is a run that writes single sectors up to
      the place where a write of that length does not fit, and then that write: it overwrites the first of them. */
  lemma OverrunHappens(c: Config, most: nat) returns (t: State)
    requires |c.beyond| == 3 && 0 < most && 2 * most <= Sectors(c) + 1
    ensures Initial(c, StartAt(c, most - 1)) && Reaches(c, StartAt(c, most - 1), t)
    ensures t.extents == Overrun(Sectors(c), most) && Total(t.extents) == Sectors(c) - most + 2 && !AllDisjoint(t.extents)
  {
    var s, n := StartAt(c, most - 1), Sectors(c) - 2 * most + 2;
    OverrunFails(c, most);
    assert Initial(c, s);
    hide Reaches, Initial, Total;
    t := Opened(c, s);
    t := Singles(c, s, t, n);
    var before := t;
    t := OneWhole(c, s, t, most);
    assert before.extents == seq(n, i requires 0 <= i => Extent(most - 1 + i, most + i));
  }
}
