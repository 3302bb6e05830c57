/** The packet builder of sendImageFrame: the chunks of one frame, read out of the circular image buffer. */
module Capture {
  import opened Bytes
  import opened FrameAlignment

  /** Addresses run on over the end of a circular buffer. */
  function CircAt(buf: seq<Byte>, i: nat): Byte
    requires |buf| > 0
  {
    buf[i % |buf|]
  }

  /** The `len` bytes from rp on in a circular buffer. */
  function CircRead(buf: seq<Byte>, rp: nat, len: nat): (s: seq<Byte>)
    requires rp < |buf|
    ensures |s| == len
  {
    seq<Byte>(len, k requires 0 <= k < len => CircAt(buf, rp + k))
  }

  /** The frame goes over the end of the buffer. */
  predicate Split(buf: seq<Byte>, rp: nat, len: nat) {
    rp + len > |buf|
  }

  lemma CircReadParts(buf: seq<Byte>, rp: nat, len: nat)
    requires rp < |buf| && len <= |buf|
    ensures !Split(buf, rp, len) ==> CircRead(buf, rp, len) == buf[rp..rp + len]
    ensures Split(buf, rp, len) ==>
              |buf| - rp <= len && CircRead(buf, rp, len) == buf[rp..] + buf[..len - (|buf| - rp)]
  {
    var parts := if Split(buf, rp, len) then buf[rp..] + buf[..len - (|buf| - rp)] else buf[rp..rp + len];
    assert |parts| == len;
    forall k | 0 <= k < len
      ensures CircRead(buf, rp, len)[k] == parts[k]
    {
      CircAtIs(buf, rp + k);
    }
  }

  lemma Wrap(i: nat, n: nat)
    requires 0 < n && i < 2 * n
    ensures i % n == if i < n then i else i - n
  {
    if i >= n {
      assert i == n * 1 + (i - n);
      assert (i - n) / n == 0;
    }
  }

  lemma CircAtIs(buf: seq<Byte>, i: nat)
    requires 0 < |buf| && i < 2 * |buf|
    ensures CircAt(buf, i) == buf[if i < |buf| then i else i - |buf|]
  {
    Wrap(i, |buf|);
  }

  /** One chunk after the other, as chunk_index advances. */
  method BuildPacket(packetType: Byte, exif: bool, jpegHeader: seq<Byte>, ed: seq<Byte>,
                     buf: seq<Byte>, rp: nat, len: nat) returns (p: Packet)
    requires |jpegHeader| >= JPEG_MARKER_LEN && rp < |buf| && len <= |buf|
    requires rp % ALIGNMENT_SIZE == 0 && |buf| % ALIGNMENT_SIZE == 0
    ensures PacketOk(p) && p.exif == exif && (p.segments == 2 <==> Split(buf, rp, len))
    ensures var f := FrameOf(p);
      && f.leader == jpegHeader[..JPEG_MARKER_LEN] && f.header == jpegHeader[JPEG_MARKER_LEN..]
      && f.exif == (if exif then ed else []) && f.trailer == EOI
      && f.data0 + f.data1 == CircRead(buf, rp, len)
      && (f.data1 != [] ==> |f.data0| % ALIGNMENT_SIZE == 0)
  {
    var chunks: seq<seq<Byte>> := [[packetType]];
    var segments;
    if exif {
      chunks := chunks + [jpegHeader[..2]];
      chunks := chunks + [ed];
      chunks := chunks + [jpegHeader[2..]];
    } else {
      chunks := chunks + [jpegHeader];
    }
    CircReadParts(buf, rp, len);
    if rp + len > |buf| {
      Difference(|buf|, rp);
      chunks := chunks + [buf[rp..]];
      chunks := chunks + [buf[..len - (|buf| - rp)]];
      segments := 2;
    } else {
      chunks := chunks + [buf[rp..rp + len]];
      segments := 1;
      assert buf[rp..rp + len] + [] == buf[rp..rp + len];
    }
    chunks := chunks + [EOI];
    p := Packet(exif, chunks, segments);
  }

  lemma Difference(a: nat, b: nat)
    requires b <= a && a % ALIGNMENT_SIZE == 0 && b % ALIGNMENT_SIZE == 0
    ensures (a - b) % ALIGNMENT_SIZE == 0
  {
  }

  lemma ConcatCons(a: seq<Byte>, rest: seq<seq<Byte>>)
    ensures Concat([a] + rest) == a + Concat(rest)
  {
  }

  /** Both packet layouts: the slots remap_vectors fills, joined, are the packet's chunks after the type byte,
      so the frame that goes through alignment is the frame that was captured. */
  lemma RemapKeepsPacket(s: Slots, p: Packet)
    requires PacketOk(p) && Idle(s)
    ensures var r := Remap(s, p);
      && r.leader + r.exif + r.header + r.data0 + r.data1 + r.trailer == Concat(p.chunks[1..])
      && Raw(FrameOf(p)) == Concat(p.chunks[1..])
  {
    var c, f := p.chunks, FrameOf(p);
    var d := if p.exif then 4 else 2;
    if p.segments == 2 {
      assert c[d..] == [c[d], c[d + 1], c[d + 2]];
      ThreeJoin(c[d], c[d + 1], c[d + 2]);
    } else {
      assert c[d..] == [c[d], c[d + 1]];
      TwoJoin(c[d], c[d + 1]);
      assert f.data0 + f.data1 == f.data0;
    }
    if p.exif {
      assert c[1..] == [c[1]] + ([c[2]] + ([c[3]] + c[4..]));
      ConcatCons(c[3], c[4..]);
      ConcatCons(c[2], [c[3]] + c[4..]);
      ConcatCons(c[1], [c[2]] + ([c[3]] + c[4..]));
      Joined(f.leader, f.exif, f.header, f.data0, f.data1, f.trailer);
    } else {
      assert c[1..] == [c[1]] + c[2..];
      ConcatCons(c[1], c[2..]);
      assert f.leader + f.exif + f.header == c[1];
      Joined(f.leader, f.exif, f.header, f.data0, f.data1, f.trailer);
    }
  }

  lemma TwoJoin(a: seq<Byte>, b: seq<Byte>)
    ensures Concat([a, b]) == a + b
  {
    assert [a, b] == [a] + [b];
    ConcatCons(a, [b]);
    ConcatOne(b);
  }

  lemma ThreeJoin(a: seq<Byte>, b: seq<Byte>, c: seq<Byte>)
    ensures Concat([a, b, c]) == a + b + c
  {
    assert [a, b, c] == [a] + [b, c];
    ConcatCons(a, [b, c]);
    TwoJoin(b, c);
    assert a + (b + c) == a + b + c;
  }

  lemma Joined(a: seq<Byte>, b: seq<Byte>, c: seq<Byte>, d: seq<Byte>, e: seq<Byte>, f: seq<Byte>)
    ensures a + (b + (c + (d + e + f))) == a + b + c + d + e + f
    ensures (a + b + c) + (d + e + f) == a + b + c + d + e + f
  {
  }
}
