/** What one call of align_frame guarantees: bytes kept, everything aligned, a bounded remainder. */
module AlignmentTheorems {
  import opened Bytes
  import opened FrameAlignment

  /** check_chunks finds no error: every slot but REM is aligned, and together they are whole sectors. */
  predicate ChunksOk(s: Slots) {
    && |s.leader| % ALIGNMENT_SIZE == 0 && |s.exif| % ALIGNMENT_SIZE == 0 && |s.header| % ALIGNMENT_SIZE == 0
    && |s.common| % ALIGNMENT_SIZE == 0 && |s.data0| % ALIGNMENT_SIZE == 0 && |s.data1| % ALIGNMENT_SIZE == 0
    && |s.trailer| % ALIGNMENT_SIZE == 0 && |s.align| % ALIGNMENT_SIZE == 0
    && |Emitted(s)| % PHY_BLOCK_SIZE == 0
  }

  /** The frame after its head went to the common buffer, before the cut. */
  predicate Gathered(c: Slots, f: Frame) {
    && c == EMPTY.(common := c.common, data0 := f.data0, data1 := f.data1, trailer := f.trailer)
    && |c.common| % ALIGNMENT_SIZE == 0 && |c.common| > 0
    && f.trailer == EOI
    && (f.data1 != [] ==> |f.data0| % ALIGNMENT_SIZE == 0)
  }

  /** With the head slots empty a transaction is the common buffer followed by the data slots. */
  lemma EmittedParts(s: Slots)
    requires s.leader == s.exif == s.header == []
    ensures Emitted(s) == s.common + (s.data0 + s.data1 + s.trailer + s.align)
    ensures |Emitted(s)| == |s.common| + |s.data0| + |s.data1| + |s.trailer| + |s.align|
  {
  }

  lemma GatherCollectsHead(s: Slots, p: Packet, beyond: seq<Byte>) returns (c: Slots)
    requires Idle(s) && PacketOk(p) && |beyond| == 3
    requires !Delayed(|s.rem|, FrameOf(p))
    ensures c == Gather(Remap(s, p), s.rem, beyond)
    ensures Gathered(c, FrameOf(p)) && |c.common| == CommonLen(|s.rem|, FrameOf(p))
    ensures Emitted(c) == s.rem + Stuffed(|s.rem|, FrameOf(p), beyond)
  {
    c := Gather(Remap(s, p), s.rem, beyond);
    var f := FrameOf(p);
    var stuffing := App15(StuffingLen(HeadLen(|s.rem|, f)), beyond);
    assert [] + s.rem == s.rem;
    assert c.common == s.rem + f.leader + f.exif + stuffing + f.header;
    EmittedParts(c);
    var data := f.data0 + f.data1 + f.trailer;
    assert c.data0 + c.data1 + c.trailer + c.align == data;
    StreamRegroups(s.rem, f, stuffing);
  }

  lemma StreamRegroups(rem: seq<Byte>, f: Frame, stuffing: seq<Byte>)
    ensures rem + f.leader + f.exif + stuffing + f.header + (f.data0 + f.data1 + f.trailer)
         == rem + (f.leader + f.exif + stuffing + f.header + f.data0 + f.data1 + f.trailer)
  {
  }

  lemma TailShrink(v: seq<Byte>, n: nat)
    requires n <= |v|
    ensures Shrink(v, n) + Tail(v, n) == v && |Tail(v, n)| == n
  {
  }

  /** Only the common buffer and the data slots are filled. */
  predicate Loaded(c: Slots) {
    c.leader == c.exif == c.header == c.align == c.rem == []
  }

  /** d is c with its last k bytes moved to REM. */
  predicate CutOff(c: Slots, d: Slots, k: nat) {
    && Emitted(d) + d.rem == Emitted(c) && |d.rem| == k
    && d.leader == d.exif == d.header == d.trailer == d.align == [] && d.common == c.common
  }

  lemma CutData0Keeps(c: Slots, n: nat)
    requires Loaded(c) && n <= |c.data0|
    ensures CutOff(c, CutData0(c, n), n + |c.data1| + |c.trailer|)
  {
  }

  lemma CutData1Keeps(c: Slots, n: nat)
    requires Loaded(c) && n <= |c.data1|
    ensures CutOff(c, CutData1(c, n), n + |c.trailer|)
  {
  }

  lemma AlignTailKeeps(c: Slots)
    requires Loaded(c)
    ensures var d := AlignTail(c);
      && Emitted(d) == Emitted(c) && d.rem == [] && d.common == c.common
      && d.leader == d.exif == d.header == d.trailer == []
      && (if c.data1 == [] then d.data1 == [] else d.data0 == c.data0)
      && |if c.data1 == [] then d.data0 else d.data1| % ALIGNMENT_SIZE == 0
      && |d.align| < ALIGNMENT_SIZE + |c.trailer|
  {
    var d := AlignTail(c);
    EmittedParts(d);
    EmittedParts(c);
    var v := if c.data1 == [] then c.data0 else c.data1;
    var n := |v| % ALIGNMENT_SIZE;
    ShrunkAligned(v);
    TailShrink(v, n);
    if c.data1 == [] {
      TailMoves([], c.data0, n, c.trailer);
      assert [] + d.data0 + [] == d.data0 + d.data1 + d.trailer;
      assert [] + c.data0 == c.data0 + c.data1;
    } else {
      TailMoves(c.data0, c.data1, n, c.trailer);
    }
  }

  lemma TailMoves(u: seq<Byte>, v: seq<Byte>, n: nat, t: seq<Byte>)
    requires n <= |v|
    ensures u + Shrink(v, n) + [] + (Tail(v, n) + t) == u + v + t + []
  {
    TailShrink(v, n);
    assert u + Shrink(v, n) + [] == u + Shrink(v, n);
    Regroup(u, Shrink(v, n), Tail(v, n), t, []);
  }

  lemma ShrunkAligned(v: seq<Byte>)
    ensures |Shrink(v, |v| % ALIGNMENT_SIZE)| % ALIGNMENT_SIZE == 0
  {
    assert |v| - |v| % ALIGNMENT_SIZE == ALIGNMENT_SIZE * (|v| / ALIGNMENT_SIZE);
  }

  /** Which of the five cuts is made. */
  lemma CutFrameCuts(c: Slots)
    requires Loaded(c) && |c.trailer| == 2 && DataTotal(c) >= PHY_BLOCK_SIZE
    requires TotalSize(c) % PHY_BLOCK_SIZE == 1 ==> |c.data0| + |c.data1| != PHY_BLOCK_SIZE - 2
    requires TotalSize(c) % PHY_BLOCK_SIZE != 0
    ensures var over := TotalSize(c) % PHY_BLOCK_SIZE;
      CutOff(c, CutFrame(c), if over == 1 then PHY_BLOCK_SIZE + 1 else over)
    ensures CutFrame(c).data1 != [] ==> CutFrame(c).data0 == c.data0
  {
    var len := TotalSize(c) % PHY_BLOCK_SIZE;
    if len >= |c.data1| + |c.trailer| {
      CutData0Keeps(c, len - |c.data1| - |c.trailer|);
    } else if len >= |c.trailer| {
      CutData1Keeps(c, len - |c.trailer|);
    } else if PHY_BLOCK_SIZE - 1 >= |c.data1| {
      CutData0Keeps(c, PHY_BLOCK_SIZE - 1 - |c.data1|);
    } else {
      CutData1Keeps(c, PHY_BLOCK_SIZE - 1);
    }
  }

  /** The modular reason the split-trailer cut stays inside data 0: with a common buffer of whole 32-byte
      units, a bitstream of exactly 510 bytes would leave a residue of 0 modulo 32, not 1. */
  lemma SplitTrailerCutInRange(c: Slots, f: Frame)
    requires Gathered(c, f) && DataLen(f) >= PHY_BLOCK_SIZE && TotalSize(c) % PHY_BLOCK_SIZE == 1
    ensures |c.data0| + |c.data1| != PHY_BLOCK_SIZE - 2
    ensures PHY_BLOCK_SIZE - 1 - |c.data1| <= |c.data0|
  {
    if |c.data0| + |c.data1| == PHY_BLOCK_SIZE - 2 {
      assert false;
    }
  }

  /** d is c, cut after whole sectors, with the last k bytes in REM. */
  predicate CutWell(c: Slots, d: Slots, k: nat) {
    && Emitted(d) + d.rem == Emitted(c) && |d.rem| == k && ChunksOk(d) && |Emitted(d)| > 0
    && d.leader == d.exif == d.header == d.trailer == []
    && d.common == c.common && |d.align| <= ALIGNMENT_SIZE
  }

  lemma TailWell(c: Slots, f: Frame)
    requires Gathered(c, f) && DataLen(f) >= PHY_BLOCK_SIZE && TotalSize(c) % PHY_BLOCK_SIZE == 0
    ensures CutWell(c, AlignTail(c), 0)
  {
    AlignTailKeeps(c);
    hide AlignTail;
    var d := AlignTail(c);
    EmittedParts(c);
    EmittedParts(d);
    hide Emitted;
    TailUnits(|d.common|, |d.data0|, |d.data1|, |d.align|);
  }

  lemma CutOffWell(c: Slots, f: Frame, d: Slots, k: nat)
    requires Gathered(c, f) && DataLen(f) >= PHY_BLOCK_SIZE && TotalSize(c) % PHY_BLOCK_SIZE != 0
    requires k == (if TotalSize(c) % PHY_BLOCK_SIZE == 1 then PHY_BLOCK_SIZE + 1 else TotalSize(c) % PHY_BLOCK_SIZE)
    requires CutOff(c, d, k) && (d.data1 != [] ==> d.data0 == c.data0)
    ensures CutWell(c, d, k)
  {
    EmittedParts(c);
    EmittedParts(d);
    hide Emitted;
    WholeSectors(TotalSize(c));
    CutUnits(|d.common|, |d.data0|, |d.data1|);
  }

  /** The main path: the stream is cut after a whole number of sectors, at least one, and never inside EOI. */
  lemma CutFrameSplits(c: Slots, f: Frame)
    requires Gathered(c, f) && DataLen(f) >= PHY_BLOCK_SIZE
    ensures var over := TotalSize(c) % PHY_BLOCK_SIZE;
      CutWell(c, CutFrame(c), if over == 1 then PHY_BLOCK_SIZE + 1 else over)
  {
    var over := TotalSize(c) % PHY_BLOCK_SIZE;
    if over == 0 {
      TailWell(c, f);
    } else {
      if over == 1 {
        SplitTrailerCutInRange(c, f);
      }
      CutFrameCuts(c);
      hide CutFrame;
      CutOffWell(c, f, CutFrame(c), if over == 1 then PHY_BLOCK_SIZE + 1 else over);
    }
  }

  lemma WholeSectors(total: nat)
    requires total % PHY_BLOCK_SIZE != 0
    ensures var over := total % PHY_BLOCK_SIZE;
      (total - (if over == 1 then PHY_BLOCK_SIZE + 1 else over)) % PHY_BLOCK_SIZE == 0
  {
  }

  lemma CutUnits(common: nat, data0: nat, data1: nat)
    requires (common + data0 + data1) % PHY_BLOCK_SIZE == 0 && common % ALIGNMENT_SIZE == 0
    requires data1 > 0 ==> data0 % ALIGNMENT_SIZE == 0
    ensures data0 % ALIGNMENT_SIZE == 0 && data1 % ALIGNMENT_SIZE == 0
  {
  }

  lemma UnitsAdd(a: nat, b: nat)
    requires a % ALIGNMENT_SIZE == 0 && b % ALIGNMENT_SIZE == 0
    ensures (a + b) % ALIGNMENT_SIZE == 0
  {
    assert a + b == ALIGNMENT_SIZE * (a / ALIGNMENT_SIZE + b / ALIGNMENT_SIZE);
  }

  lemma SectorsAligned(a: nat, b: nat)
    requires (a + b) % PHY_BLOCK_SIZE == 0 && a % ALIGNMENT_SIZE == 0
    ensures b % ALIGNMENT_SIZE == 0
  {
    assert b == ALIGNMENT_SIZE * (16 * ((a + b) / PHY_BLOCK_SIZE) - a / ALIGNMENT_SIZE);
  }

  lemma TailUnits(common: nat, data0: nat, data1: nat, align: nat)
    requires (common + data0 + data1 + align) % PHY_BLOCK_SIZE == 0
    requires common % ALIGNMENT_SIZE == 0 && data0 % ALIGNMENT_SIZE == 0 && data1 % ALIGNMENT_SIZE == 0
    requires align < ALIGNMENT_SIZE + 2
    ensures align % ALIGNMENT_SIZE == 0 && align <= ALIGNMENT_SIZE
  {
    UnitsAdd(common, data0);
    UnitsAdd(common + data0, data1);
    SectorsAligned(common + data0 + data1, align);
  }

  lemma Regroup(a: seq<Byte>, b: seq<Byte>, c: seq<Byte>, d: seq<Byte>, e: seq<Byte>)
    ensures a + b + (c + d + e) == a + (b + c + d + e)
    ensures a + (b + c) + (d + e) == a + (b + (c + d) + e)
    ensures b + c + d + e == (b + c) + d + e == b + (c + d) + e
  {
  }

  // ---------- Short frames ----------

  lemma ShortFrameLengths(c: Slots, f: Frame)
    requires Gathered(c, f) && DataLen(f) < PHY_BLOCK_SIZE
    requires |Emitted(c)| >= PHY_BLOCK_SIZE
    ensures var d := ShortFrame(c);
      && d == EMPTY.(common := d.common, rem := d.rem)
      && |Emitted(d)| == |d.common| && |d.common| + |d.rem| == |Emitted(c)|
      && |d.rem| == TotalSize(c) % PHY_BLOCK_SIZE
      && ChunksOk(d) && |d.common| > 0
      && |d.common| < |c.common| + PHY_BLOCK_SIZE - ALIGNMENT_SIZE + 1
  {
    var d := ShortFrame(c);
    EmittedParts(c);
    EmittedParts(d);
    SectorPadding(|c.common|);
    hide Emitted;
    var num := AlignBytesNum(|c.common|, PHY_BLOCK_SIZE);
    if DataTotal(c) >= num {
      TakeLengths(c, f, num);
      SectorResidue(|d.common|, |d.rem|);
    } else {
      TailShrink(c.common, |c.common| % PHY_BLOCK_SIZE);
      SectorResidue(|d.common|, |d.rem|);
    }
  }

  lemma SectorResidue(a: nat, b: nat)
    requires a % PHY_BLOCK_SIZE == 0 && b < PHY_BLOCK_SIZE
    ensures (a + b) % PHY_BLOCK_SIZE == b && a % ALIGNMENT_SIZE == 0
  {
  }

  lemma SectorPadding(n: nat)
    requires n % ALIGNMENT_SIZE == 0
    ensures AlignBytesNum(n, PHY_BLOCK_SIZE) <= PHY_BLOCK_SIZE - ALIGNMENT_SIZE
    ensures (n + AlignBytesNum(n, PHY_BLOCK_SIZE)) % PHY_BLOCK_SIZE == 0
  {
    var k, r := n / PHY_BLOCK_SIZE, n % PHY_BLOCK_SIZE;
    assert n == PHY_BLOCK_SIZE * k + r;
    assert r == ALIGNMENT_SIZE * (n / ALIGNMENT_SIZE - 16 * k);
    if r != 0 {
      assert n + AlignBytesNum(n, PHY_BLOCK_SIZE) == PHY_BLOCK_SIZE * (k + 1);
    }
  }

  lemma TakeLengths(c: Slots, f: Frame, num: nat)
    requires Gathered(c, f) && num <= DataLen(f)
    ensures var (t0, k0, n0) := Take(c.data0, num);
            var (t1, k1, n1) := Take(c.data1, n0);
            var (t2, k2, _) := Take(c.trailer, n1);
      && |t0 + t1 + t2| == num && |k0 + k1 + k2| == DataLen(f) - num
  {
  }

  lemma TakeKeeps(c: Slots, f: Frame, num: nat)
    requires Gathered(c, f) && num <= DataLen(f) && !TakesPart(num, f)
    ensures var (t0, k0, n0) := Take(c.data0, num);
            var (t1, k1, n1) := Take(c.data1, n0);
            var (t2, k2, _) := Take(c.trailer, n1);
      t0 + t1 + t2 + (k0 + k1 + k2) == c.data0 + c.data1 + c.trailer
  {
    var n0 := if num >= |c.data0| then num - |c.data0| else 0;
    var n1 := if n0 >= |c.data1| then n0 - |c.data1| else 0;
    TakeWhole(c.data0, num);
    TakeWhole(c.data1, n0);
    TakeWhole(c.trailer, n1);
    hide Take;
  }

  lemma TakeWhole(v: seq<Byte>, num: nat)
    requires num == 0 || num >= |v|
    ensures Take(v, num) == if num == 0 then ([], v, 0) else (v, [], num - |v|)
  {
    assert num == 0 ==> v[..0] == [] && Shrink(v, 0) == v;
  }

  lemma ShortFrameKeeps(c: Slots, f: Frame)
    requires Gathered(c, f) && DataLen(f) < PHY_BLOCK_SIZE
    requires var num := AlignBytesNum(|c.common|, PHY_BLOCK_SIZE); num <= DataLen(f) ==> !TakesPart(num, f)
    ensures var d := ShortFrame(c); Emitted(d) + d.rem == Emitted(c)
  {
    var d := ShortFrame(c);
    var num := AlignBytesNum(|c.common|, PHY_BLOCK_SIZE);
    EmittedParts(c);
    EmittedParts(d);
    var data := c.data0 + c.data1 + c.trailer;
    assert d.data0 + d.data1 + d.trailer + d.align == [];
    assert data + c.align == data;
    if DataTotal(c) >= num {
      TakeKeeps(c, f, num);
      var (t0, k0, n0) := Take(c.data0, num);
      var (t1, k1, n1) := Take(c.data1, n0);
      var (t2, k2, _) := Take(c.trailer, n1);
      Glue(c.common, t0, t1, t2, k0, k1, k2);
    } else {
      var over := |c.common| % PHY_BLOCK_SIZE;
      TailShrink(c.common, over);
      Glue(Shrink(c.common, over), [], [], Tail(c.common, over), c.data0, c.data1, c.trailer);
    }
  }

  lemma Glue(a: seq<Byte>, t0: seq<Byte>, t1: seq<Byte>, t2: seq<Byte>, k0: seq<Byte>, k1: seq<Byte>, k2: seq<Byte>)
    ensures a + t0 + t1 + t2 + [] + ([] + k0 + k1 + k2) == a + (t0 + t1 + t2 + (k0 + k1 + k2))
    ensures a + [] + ([] + t2 + k0 + k1 + k2) == (a + t2) + (k0 + k1 + k2)
  {
  }

  // ---------- One call of align_frame ----------

  /** For every frame: what is written is whole sectors of aligned slots, and the bytes are all accounted
      for; the remainder has the length the reference gives it. */
  lemma AlignFrameLengths(s: Slots, p: Packet, beyond: seq<Byte>)
    requires Idle(s) && PacketOk(p) && |beyond| == 3
    ensures var f := FrameOf(p); var d := AlignFrame(s, p, beyond);
      && ChunksOk(d)
      && |Emitted(d)| + |d.rem| == |s.rem| + |Stuffed(|s.rem|, f, beyond)|
      && |d.rem| == Residue(|s.rem|, f)
      && (|Emitted(d)| == 0 <==> Delayed(|s.rem|, f))
      && d.leader == d.exif == d.header == d.trailer == []
      && |d.common| + |d.align| <= CommonLen(|s.rem|, f) + PHY_BLOCK_SIZE - ALIGNMENT_SIZE
  {
    var f := FrameOf(p);
    if Delayed(|s.rem|, f) {
      DelayKeeps(s, p, beyond);
    } else {
      var c := GatherCollectsHead(s, p, beyond);
      EmittedParts(c);
      CutLengths(c, f, |s.rem|);
    }
  }

  lemma CutLengths(c: Slots, f: Frame, rem: nat)
    requires Gathered(c, f) && !Delayed(rem, f) && |c.common| == CommonLen(rem, f)
    requires |Emitted(c)| == |c.common| + DataLen(f)
    ensures var d := if DataTotal(c) < PHY_BLOCK_SIZE then ShortFrame(c) else CutFrame(c);
      && ChunksOk(d)
      && |Emitted(d)| + |d.rem| == |Emitted(c)|
      && |d.rem| == Residue(rem, f)
      && |Emitted(d)| > 0
      && d.leader == d.exif == d.header == d.trailer == []
      && |d.common| + |d.align| <= |c.common| + PHY_BLOCK_SIZE - ALIGNMENT_SIZE
  {
    if DataTotal(c) < PHY_BLOCK_SIZE {
      ShortFrameLengths(c, f);
    } else {
      CutFrameSplits(c, f);
    }
  }

  lemma DelayKeeps(s: Slots, p: Packet, beyond: seq<Byte>)
    requires Idle(s) && PacketOk(p) && |beyond| == 3
    requires Delayed(|s.rem|, FrameOf(p))
    ensures AlignFrame(s, p, beyond) == EMPTY.(rem := s.rem + Raw(FrameOf(p)))
  {
    var f := FrameOf(p);
    var r := Remap(s, p);
    assert |Raw(f)| == |f.leader| + |f.exif| + |f.header| + |f.data0| + |f.data1| + |f.trailer|;
    assert [] + s.rem + f.leader + f.exif + f.header + f.data0 + f.data1 + f.trailer == s.rem + Raw(f);
  }

  /** Unless a vector is taken in part, what is written and then what is kept is the incoming stream. */
  lemma AlignFrameKeepsStream(s: Slots, p: Packet, beyond: seq<Byte>)
    requires Idle(s) && PacketOk(p) && |beyond| == 3
    requires !PartialTake(|s.rem|, FrameOf(p))
    ensures var f := FrameOf(p); var d := AlignFrame(s, p, beyond);
      Emitted(d) + d.rem == s.rem + Stuffed(|s.rem|, f, beyond)
  {
    var f := FrameOf(p);
    if Delayed(|s.rem|, f) {
      DelayKeeps(s, p, beyond);
      var d := AlignFrame(s, p, beyond);
      assert Emitted(d) == [] && [] + d.rem == d.rem;
    } else {
      var c := GatherCollectsHead(s, p, beyond);
      if DataTotal(c) < PHY_BLOCK_SIZE {
        ShortFrameKeeps(c, f);
      } else {
        CutFrameSplits(c, f);
      }
    }
  }

  /** The reference: one call cuts the stream `remainder + stuffed frame` at one place, Residue bytes from its
      end, writes what lies before it and keeps the rest. */
  lemma AlignFrameSplitsStream(s: Slots, p: Packet, beyond: seq<Byte>)
    requires Idle(s) && PacketOk(p) && |beyond| == 3
    requires !PartialTake(|s.rem|, FrameOf(p))
    ensures var f := FrameOf(p); var d := AlignFrame(s, p, beyond);
            var stream := s.rem + Stuffed(|s.rem|, f, beyond);
      && Residue(|s.rem|, f) <= |stream|
      && Emitted(d) == stream[..|stream| - Residue(|s.rem|, f)]
      && d.rem == stream[|stream| - Residue(|s.rem|, f)..]
  {
    AlignFrameLengths(s, p, beyond);
    AlignFrameKeepsStream(s, p, beyond);
    var d := AlignFrame(s, p, beyond);
    SplitIsUnique(Emitted(d), d.rem);
  }

  lemma SplitIsUnique(a: seq<Byte>, b: seq<Byte>)
    ensures a == (a + b)[..|a + b| - |b|] && b == (a + b)[|a + b| - |b|..]
  {
  }

  /** REM over any run: a remainder of at most 513 stays one, and 512 never occurs. */
  lemma ResidueBounded(rem: nat, f: Frame)
    ensures Residue(rem, f) < PHY_BLOCK_SIZE || Residue(rem, f) == PHY_BLOCK_SIZE + 1
  {
  }
}
