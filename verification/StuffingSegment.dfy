/** The stuffing as a JPEG reader meets it: an APP15 segment, sections B.1.1.4 and B.2.4.6 of ITU-T T.81. */
module StuffingSegment {
  import opened Bytes
  import opened FrameAlignment

  /** The position after the marker segment at p: marker, then a length that counts itself but not the marker. */
  function SegmentEnd(s: seq<Byte>, p: nat): nat
    requires p + 4 <= |s|
  {
    var hi: nat, lo: nat := s[p + 2], s[p + 3];
    p + 2 + 256 * hi + lo
  }

  /** A reader that steps over marker segments, starting at p, arrives exactly at q. */
  predicate LandsOn(s: seq<Byte>, p: nat, q: nat)
    decreases q - p
  {
    || p == q
    || (&& p + 4 <= |s| && s[p] == 0xff && SegmentEnd(s, p) <= q && LandsOn(s, SegmentEnd(s, p), q))
  }

  lemma InsideAt(s: seq<Byte>, t: seq<Byte>, shift: nat, i: nat)
    requires i < |s| && shift + |s| <= |t| && t[shift..shift + |s|] == s
    ensures t[shift + i] == s[i]
  {
  }

  lemma {:induction false} LandsOnInside(s: seq<Byte>, p: nat, q: nat, t: seq<Byte>, shift: nat)
    requires LandsOn(s, p, q) && p <= q <= |s|
    requires shift + |s| <= |t| && t[shift..shift + |s|] == s
    ensures LandsOn(t, shift + p, shift + q)
    decreases q - p
  {
    if p != q {
      var n := SegmentEnd(s, p);
      InsideAt(s, t, shift, p);
      InsideAt(s, t, shift, p + 2);
      InsideAt(s, t, shift, p + 3);
      assert s[p] == t[shift + p] && s[p + 2] == t[shift + p + 2] && s[p + 3] == t[shift + p + 3];
      assert SegmentEnd(t, shift + p) == shift + n;
      LandsOnInside(s, n, q, t, shift);
    }
  }

  lemma {:induction false} LandsOnThrough(s: seq<Byte>, p: nat, q: nat, r: nat)
    requires LandsOn(s, p, q) && LandsOn(s, q, r) && p <= q <= r
    ensures LandsOn(s, p, r)
    decreases q - p
  {
    if p != q {
      LandsOnThrough(s, SegmentEnd(s, p), q, r);
    }
  }

  function RemoveSegment(s: seq<Byte>, p: nat): seq<Byte>
    requires p + 4 <= |s| && SegmentEnd(s, p) <= |s|
  {
    s[..p] + s[SegmentEnd(s, p)..]
  }

  /** Marker, length, and zeros; up to three bytes are read behind the end of the array. */
  lemma App15Head(n: nat, beyond: seq<Byte>)
    requires |beyond| == 3 && 4 <= n <= 35
    ensures var s := App15(n, beyond); s[0] == 0xff && s[1] == 0xef && s[2] == 0 && s[3] == n - 2 && s[..2] == [0xff, 0xef]
    ensures forall i :: 4 <= i < n ==> App15(n, beyond)[i] == if i < 32 then 0 else beyond[i - 32]
  {
  }

  /** A segment of n bytes between two blocks: the reader crosses it, and its removal joins the blocks. */
  lemma SegmentBetween(front: seq<Byte>, n: nat, beyond: seq<Byte>, back: seq<Byte>)
    requires |beyond| == 3 && 4 <= n <= 35
    ensures var out := front + App15(n, beyond) + back;
      && SegmentEnd(out, |front|) == |front| + n && LandsOn(out, |front|, |front| + n)
      && out[|front|..|front| + 2] == [0xff, 0xef]
      && RemoveSegment(out, |front|) == front + back
  {
    var stuffing := App15(n, beyond);
    var out := front + stuffing + back;
    assert out[|front|..|front| + n] == stuffing;
    InsideAt(stuffing, out, |front|, 0);
    InsideAt(stuffing, out, |front|, 1);
    InsideAt(stuffing, out, |front|, 2);
    InsideAt(stuffing, out, |front|, 3);
    App15Head(n, beyond);
    assert SegmentEnd(out, |front|) == |front| + n;
    assert LandsOn(out, |front| + n, |front| + n);
    JoinEnds(front, stuffing, back);
  }

  lemma JoinEnds(front: seq<Byte>, middle: seq<Byte>, back: seq<Byte>)
    ensures var out := front + middle + back;
      && out[..|front|] == front && out[|front| + |middle|..] == back
      && (|middle| >= 2 ==> out[|front|..|front| + 2] == middle[..2])
  {
  }

  lemma WrittenParts(f: Frame, stuffing: seq<Byte>)
    ensures var front, back := f.leader + f.exif, f.header + (f.data0 + f.data1 + f.trailer);
      && f.leader + f.exif + stuffing + f.header + f.data0 + f.data1 + f.trailer == front + stuffing + back
      && Raw(f) == front + back
      && back[..|f.header|] == f.header
  {
  }

  /** In every frame written, a reader that starts after SOI and steps over the Exif segments and the stuffing
      arrives exactly at the header; taking the stuffing segment out gives the captured frame back. */
  lemma StuffingIsOneSegment(rem: nat, f: Frame, beyond: seq<Byte>)
    requires |beyond| == 3 && |f.leader| == JPEG_MARKER_LEN && LandsOn(f.exif, 0, |f.exif|)
    requires !Delayed(rem, f)
    ensures var out := Stuffed(rem, f, beyond);
            var at := JPEG_MARKER_LEN + |f.exif|;
            var n := StuffingLen(HeadLen(rem, f));
      && LandsOn(out, JPEG_MARKER_LEN, at + n)
      && at + n + |f.header| <= |out| && out[at + n..at + n + |f.header|] == f.header
      && (n == 0 ==> out == Raw(f))
      && (n > 0 ==> out[at..at + 2] == [0xff, 0xef] && SegmentEnd(out, at) == at + n && RemoveSegment(out, at) == Raw(f))
  {
    StuffedPartsReadable(f, StuffingLen(HeadLen(rem, f)), beyond);
  }

  lemma StuffedPartsReadable(f: Frame, n: nat, beyond: seq<Byte>)
    requires |beyond| == 3 && |f.leader| == JPEG_MARKER_LEN && LandsOn(f.exif, 0, |f.exif|)
    requires n == 0 || 4 <= n <= 35
    ensures var out := f.leader + f.exif + App15(n, beyond) + f.header + f.data0 + f.data1 + f.trailer;
            var at := JPEG_MARKER_LEN + |f.exif|;
      && LandsOn(out, JPEG_MARKER_LEN, at + n)
      && at + n + |f.header| <= |out| && out[at + n..at + n + |f.header|] == f.header
      && (n == 0 ==> out == Raw(f))
      && (n > 0 ==> out[at..at + 2] == [0xff, 0xef] && SegmentEnd(out, at) == at + n && RemoveSegment(out, at) == Raw(f))
  {
    var front, stuffing, back := f.leader + f.exif, App15(n, beyond), f.header + (f.data0 + f.data1 + f.trailer);
    WrittenParts(f, stuffing);
    if n > 0 {
      SegmentBetween(front, n, beyond, back);
    } else {
      assert front + stuffing == front;
    }
    ReaderReachesHeader(f, n, front + stuffing + back, stuffing, back);
  }

  lemma WrittenSlices(leader: seq<Byte>, exif: seq<Byte>, stuffing: seq<Byte>, back: seq<Byte>, n: nat)
    requires n <= |back|
    ensures var out := leader + exif + stuffing + back;
      && out[|leader|..|leader| + |exif|] == exif
      && var at := |leader| + |exif| + |stuffing|; out[at..at + n] == back[..n]
  {
  }

  lemma ReaderReachesHeader(f: Frame, n: nat, out: seq<Byte>, stuffing: seq<Byte>, back: seq<Byte>)
    requires |f.leader| == JPEG_MARKER_LEN && LandsOn(f.exif, 0, |f.exif|) && |stuffing| == n
    requires out == f.leader + f.exif + stuffing + back && |back| >= |f.header| && back[..|f.header|] == f.header
    requires LandsOn(out, JPEG_MARKER_LEN + |f.exif|, JPEG_MARKER_LEN + |f.exif| + n)
    ensures var at := JPEG_MARKER_LEN + |f.exif| + n;
      && LandsOn(out, JPEG_MARKER_LEN, at)
      && at + |f.header| <= |out| && out[at..at + |f.header|] == f.header
  {
    WrittenSlices(f.leader, f.exif, stuffing, back, |f.header|);
    ReaderCrossesExif(f.exif, out, n);
  }

  lemma ReaderCrossesExif(exif: seq<Byte>, out: seq<Byte>, n: nat)
    requires LandsOn(exif, 0, |exif|) && JPEG_MARKER_LEN + |exif| + n <= |out|
    requires out[JPEG_MARKER_LEN..JPEG_MARKER_LEN + |exif|] == exif
    requires LandsOn(out, JPEG_MARKER_LEN + |exif|, JPEG_MARKER_LEN + |exif| + n)
    ensures LandsOn(out, JPEG_MARKER_LEN, JPEG_MARKER_LEN + |exif| + n)
  {
    LandsOnInside(exif, 0, |exif|, out, JPEG_MARKER_LEN);
    LandsOnThrough(out, JPEG_MARKER_LEN, JPEG_MARKER_LEN + |exif|, JPEG_MARKER_LEN + |exif| + n);
  }
}
