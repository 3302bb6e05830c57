/** Exactly which frames align_frame reorders: the short ones whose padding ends inside a vector. */
module PartialTakes {
  import opened Bytes
  import opened FrameAlignment
  import opened AlignmentTheorems

  /** Packets that differ only in the values of their bytes. */
  ghost predicate SameShape(p: Packet, q: Packet) {
    && PacketOk(p) && PacketOk(q) && p.exif == q.exif && p.segments == q.segments
    && |p.chunks| == |q.chunks| && forall i :: 0 <= i < |p.chunks| ==> |p.chunks[i]| == |q.chunks[i]|
  }

  /** Emitting the transaction and then the remainder gives the stream, byte for byte. */
  predicate Preserved(s: Slots, p: Packet, beyond: seq<Byte>)
    requires PacketOk(p) && |beyond| == 3
  {
    var d := AlignFrame(s, p, beyond);
    Emitted(d) + d.rem == s.rem + Stuffed(|s.rem|, FrameOf(p), beyond)
  }

  /** The partial take copies the first bytes of the vector but drops its last ones. */
  lemma PartLost(pre: seq<Byte>, v: seq<Byte>, num: nat, post: seq<Byte>)
    requires 0 < num < |v| && v[|v| - num - 1] != v[|v| - 1]
    ensures pre + v[..num] + (v[..|v| - num] + post) != pre + (v + post)
  {
    var i := |pre| + |v| - 1;
    assert (pre + v[..num] + (v[..|v| - num] + post))[i] == v[|v| - num - 1];
    assert (pre + (v + post))[i] == v[|v| - 1];
  }

  /** A vector of n bytes whose last byte differs from every other. */
  function Marked(n: nat): (v: seq<Byte>)
    requires n > 0
    ensures |v| == n && forall i :: 0 <= i < n ==> v[i] == (if i == n - 1 then 1 else 0)
  {
    Zeros(n - 1) + [1]
  }

  lemma ShortFrameParts(c: Slots, f: Frame, num: nat)
    requires Gathered(c, f) && DataLen(f) < PHY_BLOCK_SIZE
    requires num == AlignBytesNum(|c.common|, PHY_BLOCK_SIZE) <= DataLen(f)
    ensures var d := ShortFrame(c);
            var (t0, k0, n0) := Take(f.data0, num);
            var (t1, k1, n1) := Take(f.data1, n0);
            var (t2, k2, _) := Take(f.trailer, n1);
      && Emitted(d) + d.rem == c.common + (t0 + t1 + t2 + (k0 + k1 + k2))
      && Emitted(c) == c.common + (f.data0 + f.data1 + f.trailer)
  {
    var d := ShortFrame(c);
    var (t0, k0, n0) := Take(f.data0, num);
    var (t1, k1, n1) := Take(f.data1, n0);
    var (t2, k2, _) := Take(f.trailer, n1);
    EmittedParts(c);
    EmittedParts(d);
    assert d.data0 + d.data1 + d.trailer + d.align == [];
    assert f.data0 + f.data1 + f.trailer + c.align == f.data0 + f.data1 + f.trailer;
    Glue(c.common, t0, t1, t2, k0, k1, k2);
  }

  /** A partial take loses bytes as soon as the last byte of the vector differs from the one num before it. */
  lemma PartialTakeReorders(c: Slots, f: Frame, num: nat)
    requires Gathered(c, f) && DataLen(f) < PHY_BLOCK_SIZE
    requires num == AlignBytesNum(|c.common|, PHY_BLOCK_SIZE) <= DataLen(f) && TakesPart(num, f)
    requires |f.data0| > 0 ==> f.data0 == Marked(|f.data0|)
    requires |f.data1| > 0 ==> f.data1 == Marked(|f.data1|)
    ensures var d := ShortFrame(c); Emitted(d) + d.rem != Emitted(c)
  {
    ShortFrameParts(c, f, num);
    TakesReorder(c.common, f, num);
  }

  lemma TakesReorder(pre: seq<Byte>, f: Frame, num: nat)
    requires f.trailer == EOI && num <= DataLen(f) && TakesPart(num, f)
    requires |f.data0| > 0 ==> f.data0 == Marked(|f.data0|)
    requires |f.data1| > 0 ==> f.data1 == Marked(|f.data1|)
    ensures var (t0, k0, n0) := Take(f.data0, num);
            var (t1, k1, n1) := Take(f.data1, n0);
            var (t2, k2, _) := Take(f.trailer, n1);
      pre + (t0 + t1 + t2 + (k0 + k1 + k2)) != pre + (f.data0 + f.data1 + f.trailer)
  {
    if num < |f.data0| {
      TakeNothing(f.data1);
      TakeNothing(f.trailer);
      FirstPartLost(pre, f.data0, num, f.data1, f.trailer);
    } else {
      LaterPartLost(pre, f, num);
    }
  }

  lemma TakeNothing(v: seq<Byte>)
    ensures Take(v, 0) == ([], v, 0)
  {
    assert v[..0] == [] && v[..|v|] == v;
  }

  lemma LaterPartLost(pre: seq<Byte>, f: Frame, num: nat)
    requires f.trailer == EOI && |f.data0| <= num < DataLen(f) && TakesPart(num, f)
    requires |f.data1| > 0 ==> f.data1 == Marked(|f.data1|)
    ensures var (t1, k1, n1) := Take(f.data1, num - |f.data0|);
            var (t2, k2, _) := Take(f.trailer, n1);
      pre + (f.data0 + t1 + t2 + ([] + k1 + k2)) != pre + (f.data0 + f.data1 + f.trailer)
  {
    TakeNothing(f.trailer);
    if num < |f.data0| + |f.data1| {
      SecondPartLost(pre, f.data0, f.data1, num - |f.data0|, f.trailer);
    } else {
      ThirdPartLost(pre, f.data0, f.data1, f.trailer);
    }
  }

  lemma FirstPartLost(pre: seq<Byte>, v: seq<Byte>, num: nat, w: seq<Byte>, x: seq<Byte>)
    requires 0 < num < |v| && v == Marked(|v|)
    ensures pre + (v[..num] + [] + [] + (v[..|v| - num] + w + x)) != pre + (v + w + x)
  {
    PartLost(pre, v, num, w + x);
    assert v[..num] + [] + [] == v[..num];
    Reassociate(pre, v[..num], v[..|v| - num], w, x);
    Reassociate(pre, v, [], w, x);
    assert v + [] == v;
  }

  lemma SecondPartLost(pre: seq<Byte>, u: seq<Byte>, v: seq<Byte>, num: nat, x: seq<Byte>)
    requires 0 < num < |v| && v == Marked(|v|)
    ensures pre + (u + v[..num] + [] + ([] + v[..|v| - num] + x)) != pre + (u + v + x)
  {
    PartLost(pre + u, v, num, x);
    var t, k := v[..num], v[..|v| - num];
    assert u + t + [] == u + t && [] + k == k;
    Shift(pre, u, t, k + x);
    Shift(pre, u, v, x);
  }

  lemma Shift(a: seq<Byte>, b: seq<Byte>, c: seq<Byte>, d: seq<Byte>)
    ensures a + (b + c + d) == a + b + c + d == a + b + (c + d)
  {
  }

  lemma ThirdPartLost(pre: seq<Byte>, u: seq<Byte>, v: seq<Byte>, x: seq<Byte>)
    requires x == EOI
    ensures pre + (u + v + x[..1] + ([] + [] + x[..1])) != pre + (u + v + x)
  {
    PartLost(pre + u + v, x, 1, []);
    assert [] + [] + x[..1] == x[..1] + [] == x[..1];
    assert pre + (u + v + x[..1] + x[..1]) == pre + u + v + x[..1] + x[..1];
    assert pre + (u + v + x) == pre + u + v + (x + []);
  }

  lemma Reassociate(a: seq<Byte>, b: seq<Byte>, c: seq<Byte>, d: seq<Byte>, e: seq<Byte>)
    ensures a + (b + (c + d + e)) == a + b + (c + (d + e))
    ensures a + (b + d + e) == a + (b + (d + e))
  {
  }

  /** The packet with marked bitstream parts. */
  function Mark(p: Packet): (q: Packet)
    requires PacketOk(p)
    ensures SameShape(p, q)
    ensures var f := FrameOf(q);
      && (|f.data0| > 0 ==> f.data0 == Marked(|f.data0|)) && (|f.data1| > 0 ==> f.data1 == Marked(|f.data1|))
  {
    var d := if p.exif then 4 else 2;
    var m0 := if |p.chunks[d]| > 0 then p.chunks[d := Marked(|p.chunks[d]|)] else p.chunks;
    p.(chunks := if p.segments == 2 then m0[d + 1 := Marked(|m0[d + 1]|)] else m0)
  }

  lemma SameLengths(p: Packet, q: Packet)
    requires SameShape(p, q)
    ensures var f, g := FrameOf(p), FrameOf(q);
      && |f.leader| == |g.leader| && |f.exif| == |g.exif| && |f.header| == |g.header|
      && |f.data0| == |g.data0| && |f.data1| == |g.data1| && |f.trailer| == |g.trailer|
    ensures |Raw(FrameOf(p))| == |Raw(FrameOf(q))|
  {
  }

  lemma SameTakes(p: Packet, q: Packet, rem: nat)
    requires SameShape(p, q)
    ensures PartialTake(rem, FrameOf(p)) == PartialTake(rem, FrameOf(q))
  {
    SameLengths(p, q);
  }

  lemma MarkedFrameReordered(s: Slots, p: Packet, beyond: seq<Byte>)
    requires Idle(s) && PacketOk(p) && |beyond| == 3 && PartialTake(|s.rem|, FrameOf(p))
    ensures !Preserved(s, Mark(p), beyond)
  {
    var q := Mark(p);
    SameTakes(p, q, |s.rem|);
    var c := GatherCollectsHead(s, q, beyond);
    PartialTakeReorders(c, FrameOf(q), AlignBytesNum(|c.common|, PHY_BLOCK_SIZE));
  }

  /** Whatever their bytes are, frames of this shape are kept in order exactly when no vector is taken in part. */
  lemma PreservedExactlyWithoutPartialTake(s: Slots, p: Packet, beyond: seq<Byte>)
    requires Idle(s) && PacketOk(p) && |beyond| == 3
    ensures (forall q :: SameShape(p, q) ==> Preserved(s, q, beyond)) <==> !PartialTake(|s.rem|, FrameOf(p))
  {
    if PartialTake(|s.rem|, FrameOf(p)) {
      MarkedFrameReordered(s, p, beyond);
      assert SameShape(p, Mark(p));
    } else {
      forall q | SameShape(p, q) ensures Preserved(s, q, beyond) {
        SameTakes(p, q, |s.rem|);
        AlignFrameKeepsStream(s, q, beyond);
      }
    }
  }

  /** What stands in front of the bitstream: the remainder, marker and Exif, the stuffing and the header. */
  function HeadOf(rem: seq<Byte>, f: Frame, beyond: seq<Byte>): seq<Byte>
    requires |beyond| == 3
  {
    rem + f.leader + f.exif + App15(StuffingLen(|rem| + |f.leader| + |f.exif| + |f.header|), beyond) + f.header
  }

  lemma GatheredIsHead(s: Slots, p: Packet, beyond: seq<Byte>)
    requires Idle(s) && PacketOk(p) && |beyond| == 3
    ensures var f := FrameOf(p);
      Gather(Remap(s, p), s.rem, beyond)
      == EMPTY.(common := HeadOf(s.rem, f, beyond), data0 := f.data0, data1 := f.data1, trailer := f.trailer)
  {
    assert [] + s.rem == s.rem;
  }

  lemma SectorFill(n: nat, num: nat)
    requires num < PHY_BLOCK_SIZE && (n + num) % PHY_BLOCK_SIZE == 0
    ensures AlignBytesNum(n, PHY_BLOCK_SIZE) == num
  {
  }

  /** The slots of a short frame whose head lacks num bytes to whole sectors. */
  predicate Lacks(c: Slots, num: nat) {
    && c == EMPTY.(common := c.common, data0 := c.data0, data1 := c.data1, trailer := EOI)
    && num <= |c.data0| + |c.data1| + 2 && AlignBytesNum(|c.common|, PHY_BLOCK_SIZE) == num
  }

  lemma TakeFromFirst(c: Slots, num: nat)
    requires Lacks(c, num) && 0 < num < |c.data0|
    ensures var d := ShortFrame(c); var n := |c.data0|;
      && d.leader == d.exif == d.header == d.data0 == d.data1 == d.trailer == d.align == []
      && d.common == c.common + c.data0[..num] && d.rem == c.data0[..n - num] + c.data1 + c.trailer
  {
    TakeNothing(c.data1);
    TakeNothing(c.trailer);
  }

  lemma TakeFromSecond(c: Slots, num: nat)
    requires Lacks(c, num) && |c.data0| < num < |c.data0| + |c.data1|
    ensures var d := ShortFrame(c); var m, n := num - |c.data0|, |c.data1|;
      && d.leader == d.exif == d.header == d.data0 == d.data1 == d.trailer == d.align == []
      && d.common == c.common + c.data0 + c.data1[..m] && d.rem == c.data1[..n - m] + c.trailer
  {
    TakeNothing(c.trailer);
  }

  lemma TakeFromThird(c: Slots, num: nat)
    requires Lacks(c, num) && num == |c.data0| + |c.data1| + 1
    ensures var d := ShortFrame(c);
      && d.leader == d.exif == d.header == d.data0 == d.data1 == d.trailer == d.align == []
      && d.common == c.common + c.data0 + c.data1 + [0xff] && d.rem == [0xff]
  {
    assert c.trailer[..1] == [0xff];
  }

  lemma OnlyCommon(d: Slots)
    requires d.leader == d.exif == d.header == d.data0 == d.data1 == d.trailer == d.align == []
    ensures Emitted(d) == d.common
  {
    EmittedParts(d);
  }

  lemma ShortPath(s: Slots, p: Packet, beyond: seq<Byte>)
    requires Idle(s) && PacketOk(p) && |beyond| == 3
    requires |s.rem| + |Raw(FrameOf(p))| >= PHY_BLOCK_SIZE && DataLen(FrameOf(p)) < PHY_BLOCK_SIZE
    ensures AlignFrame(s, p, beyond) == ShortFrame(Gather(Remap(s, p), s.rem, beyond))
  {
    GatheredIsHead(s, p, beyond);
    assert TotalSize(Remap(s, p)) + |s.rem| == |s.rem| + |Raw(FrameOf(p))|;
  }

  /** A short frame whose head lacks num bytes to whole sectors: from the vector in which they end, the first of
      them go to the disk, but the same number of bytes is then taken off its end, and these are lost. */
  lemma PartialTakeLoses(s: Slots, p: Packet, beyond: seq<Byte>, num: nat)
    requires Idle(s) && PacketOk(p) && |beyond| == 3
    requires var f := FrameOf(p); |s.rem| + |Raw(f)| >= PHY_BLOCK_SIZE && DataLen(f) < PHY_BLOCK_SIZE
    requires num < PHY_BLOCK_SIZE && (|HeadOf(s.rem, FrameOf(p), beyond)| + num) % PHY_BLOCK_SIZE == 0
    ensures var f := FrameOf(p);
            var head := HeadOf(s.rem, f, beyond);
            var d := AlignFrame(s, p, beyond);
            var n0, n1 := |f.data0|, |f.data1|;
      && (0 < num < n0 ==> Emitted(d) == head + f.data0[..num] && d.rem == f.data0[..n0 - num] + f.data1 + f.trailer)
      && (n0 < num < n0 + n1 ==>
            && Emitted(d) == head + f.data0 + f.data1[..num - n0]
            && d.rem == f.data1[..n1 - (num - n0)] + f.trailer)
      && (num == n0 + n1 + 1 ==> Emitted(d) == head + f.data0 + f.data1 + [0xff] && d.rem == [0xff])
  {
    var f := FrameOf(p);
    GatheredIsHead(s, p, beyond);
    var c := Gather(Remap(s, p), s.rem, beyond);
    SectorFill(|c.common|, num);
    assert AlignFrame(s, p, beyond) == ShortFrame(c) by { ShortPath(s, p, beyond); }
    hide AlignFrame, Gather, Remap, FrameOf, HeadOf, Emitted, ShortFrame, Raw, DataLen, Idle, PacketOk;
    if 0 < num < |f.data0| {
      TakeFromFirst(c, num);
      OnlyCommon(ShortFrame(c));
    } else if |f.data0| < num < |f.data0| + |f.data1| {
      TakeFromSecond(c, num);
      OnlyCommon(ShortFrame(c));
    } else if num == |f.data0| + |f.data1| + 1 {
      TakeFromThird(c, num);
      OnlyCommon(ShortFrame(c));
    }
  }

  /** A frame of 1025 bytes behind an empty remainder: the common buffer wants 384 of the 400 bytes of bitstream,
      and with marked bytes the stream is not kept. */
  lemma PartialTakeHappens(beyond: seq<Byte>)
    requires |beyond| == 3
    ensures var p := Packet(false, [[0], Zeros(623), Zeros(400), EOI], 1);
      PacketOk(p) && PartialTake(0, FrameOf(p)) && !Preserved(EMPTY, Mark(p), beyond)
  {
    var p := Packet(false, [[0], Zeros(623), Zeros(400), EOI], 1);
    assert StuffingLen(623) == 17;
    MarkedFrameReordered(EMPTY, p, beyond);
  }
}
