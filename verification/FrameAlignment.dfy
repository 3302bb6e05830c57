/**
  What align_frame computes, on values: the nine slots of a disk transaction before the call and after
  it.  The class in AlignBuffers.dfy performs the same work in place, on the three owned buffers.
 */
module FrameAlignment {
  import opened Bytes

  const PHY_BLOCK_SIZE := 512
  const ALIGNMENT_SIZE := 32
  const JPEG_MARKER_LEN := 2
  const JPEG_SIZE_LEN := 2
  const JPEG_HEADER_MAXSIZE := 0x300
  const EOI: seq<Byte> := [0xff, 0xd9]

  /** The chunks of one captured frame, as the packet builder leaves them: chunk 0 is the packet type. */
  datatype Packet = Packet(exif: bool, chunks: seq<seq<Byte>>, segments: nat)

  /** A frame by its parts, whatever the packet layout was. */
  datatype Frame = Frame(leader: seq<Byte>, exif: seq<Byte>, header: seq<Byte>,
                         data0: seq<Byte>, data1: seq<Byte>, trailer: seq<Byte>)

  /** The bytes each slot of a transaction points to, in slot order. */
  datatype Slots = Slots(leader: seq<Byte>, exif: seq<Byte>, header: seq<Byte>, common: seq<Byte>,
                         data0: seq<Byte>, data1: seq<Byte>, trailer: seq<Byte>, align: seq<Byte>,
                         rem: seq<Byte>)

  const EMPTY := Slots([], [], [], [], [], [], [], [], [])

  /** The layout sendImageFrame produces (Capture.BuildPacket). */
  predicate PacketOk(p: Packet) {
    && 1 <= p.segments <= 2
    && |p.chunks| == (if p.exif then 4 else 2) + p.segments + 1
    && (if p.exif then |p.chunks[1]| == JPEG_MARKER_LEN else |p.chunks[1]| >= JPEG_MARKER_LEN)
    && p.chunks[|p.chunks| - 1] == EOI
    && (p.segments == 2 ==>
          |p.chunks[|p.chunks| - 2]| > 0 && |p.chunks[|p.chunks| - 3]| % ALIGNMENT_SIZE == 0)
  }

  /** The frame a packet carries. */
  function FrameOf(p: Packet): Frame
    requires PacketOk(p)
  {
    var n := |p.chunks|;
    var d := if p.exif then 4 else 2;
    Frame(p.chunks[1][..JPEG_MARKER_LEN],
          if p.exif then p.chunks[2] else [],
          if p.exif then p.chunks[3] else p.chunks[1][JPEG_MARKER_LEN..],
          p.chunks[d],
          if p.segments == 2 then p.chunks[d + 1] else [],
          p.chunks[n - 1])
  }

  /** remap_vectors: slots the packet has no chunk for keep what they had; REM moves to the caller. */
  function Remap(s: Slots, p: Packet): Slots
    requires PacketOk(p)
  {
    var f := FrameOf(p);
    s.(leader := f.leader, exif := if p.exif then f.exif else s.exif, header := f.header,
       data0 := f.data0, data1 := if p.segments == 2 then f.data1 else s.data1, trailer := f.trailer, rem := [])
  }

  function AlignBytesNum(len: nat, align: nat): nat
    requires align > 0
  {
    if len % align == 0 then 0 else align - len % align
  }

  /** The number of stuffing bytes that precede the header when `len` bytes have to become aligned. */
  function StuffingLen(len: nat): (n: nat)
    ensures (len + n) % ALIGNMENT_SIZE == 0
    ensures n == 0 || 4 <= n <= 31 || 33 <= n <= 35
  {
    var n := AlignBytesNum(len, ALIGNMENT_SIZE);
    if n != 0 && n < JPEG_MARKER_LEN + JPEG_SIZE_LEN then n + ALIGNMENT_SIZE else n
  }

  /** `len` bytes copied from the app15 array; `beyond` is the memory that follows its 32 bytes. */
  function App15(len: nat, beyond: seq<Byte>): (s: seq<Byte>)
    requires len <= ALIGNMENT_SIZE + 3 && |beyond| == 3
    ensures |s| == len
  {
    ([0xff, 0xef, 0, (len - JPEG_MARKER_LEN) % 256] + (Zeros(ALIGNMENT_SIZE - 4) + beyond))[..len]
  }

  /** vectrpos followed by a copy to the end: the last n bytes. */
  function Tail(v: seq<Byte>, n: nat): seq<Byte> {
    if n <= |v| then v[|v| - n..] else []
  }

  /** vectshrink: drop the last n bytes, if there are as many. */
  function Shrink(v: seq<Byte>, n: nat): seq<Byte> {
    if n <= |v| then v[..|v| - n] else v
  }

  /** get_size_from(chunks, 0, 0, INCLUDE_REM). */
  function TotalSize(s: Slots): nat {
    |s.leader| + |s.exif| + |s.header| + |s.common| + |s.data0| + |s.data1| + |s.trailer| + |s.align| + |s.rem|
  }

  /** get_size_from(chunks, CHUNK_DATA_0, 0, EXCLUDE_REM). */
  function DataTotal(s: Slots): nat {
    |s.data0| + |s.data1| + |s.trailer| + |s.align|
  }

  function Delay(r: Slots, prev: seq<Byte>): Slots {
    Slots([], [], [], r.common, [], [], [], r.align,
          r.rem + prev + r.leader + r.exif + r.header + r.data0 + r.data1 + r.trailer)
  }

  /** Collects remainder, leader, Exif, stuffing and header in the common buffer. */
  function Gather(r: Slots, prev: seq<Byte>, beyond: seq<Byte>): Slots
    requires |beyond| == 3
  {
    var front := r.common + prev + r.leader + r.exif;
    r.(common := front + App15(StuffingLen(|front| + |r.header|), beyond) + r.header,
       leader := [], exif := [], header := [])
  }

  /** What one vector gives to the common buffer, what it keeps, and how many bytes are still wanted. */
  function Take(v: seq<Byte>, num: nat): (seq<Byte>, seq<Byte>, nat) {
    if num >= |v| then (v, [], num - |v|) else (v[..num], Shrink(v, num), 0)
  }

  /** Bitstream and trailer shorter than a sector. */
  function ShortFrame(c: Slots): Slots {
    var num := AlignBytesNum(|c.common|, PHY_BLOCK_SIZE);
    if DataTotal(c) >= num then
      var (t0, k0, n0) := Take(c.data0, num);
      var (t1, k1, n1) := Take(c.data1, n0);
      var (t2, k2, _) := Take(c.trailer, n1);
      c.(common := c.common + t0 + t1 + t2, data0 := [], data1 := [], trailer := [], rem := c.rem + k0 + k1 + k2)
    else
      var over := |c.common| % PHY_BLOCK_SIZE;
      c.(common := Shrink(c.common, over), data0 := [], data1 := [], trailer := [],
         rem := c.rem + Tail(c.common, over) + c.data0 + c.data1 + c.trailer)
  }

  /** Moves the last n bytes of data 0, all of data 1 and the trailer to REM. */
  function CutData0(c: Slots, n: nat): Slots {
    c.(rem := c.rem + Tail(c.data0, n) + c.data1 + c.trailer, data0 := Shrink(c.data0, n), data1 := [], trailer := [])
  }

  /** Moves the last n bytes of data 1 and the trailer to REM. */
  function CutData1(c: Slots, n: nat): Slots {
    c.(rem := c.rem + Tail(c.data1, n) + c.trailer, data1 := Shrink(c.data1, n), trailer := [])
  }

  /** The total is whole sectors: only the unaligned end of the last data part moves, to ALIGN. */
  function AlignTail(c: Slots): Slots {
    if c.data1 == [] then
      var n := |c.data0| % ALIGNMENT_SIZE;
      c.(align := Tail(c.data0, n) + c.trailer, data0 := Shrink(c.data0, n), trailer := [])
    else
      var n := |c.data1| % ALIGNMENT_SIZE;
      c.(align := Tail(c.data1, n) + c.trailer, data1 := Shrink(c.data1, n), trailer := [])
  }

  function CutFrame(c: Slots): Slots
    requires |c.trailer| <= PHY_BLOCK_SIZE
  {
    var len := TotalSize(c) % PHY_BLOCK_SIZE;
    if len == 0 then AlignTail(c)
    else if len >= |c.data1| + |c.trailer| then CutData0(c, len - |c.data1| - |c.trailer|)
    else if len >= |c.trailer| then CutData1(c, len - |c.trailer|)
    else
      var n := PHY_BLOCK_SIZE - (|c.trailer| - len);
      if n >= |c.data1| then CutData0(c, n - |c.data1|) else CutData1(c, n)
  }

  /** align_frame. */
  function AlignFrame(s: Slots, p: Packet, beyond: seq<Byte>): Slots
    requires PacketOk(p) && |beyond| == 3
  {
    var r := Remap(s, p);
    if TotalSize(r) + |s.rem| < PHY_BLOCK_SIZE then Delay(r, s.rem)
    else
      var c := Gather(r, s.rem, beyond);
      if DataTotal(c) < PHY_BLOCK_SIZE then ShortFrame(c) else CutFrame(c)
  }

  /** What get_data_buffers hands to the disk: the slots other than REM, in index order. */
  function Emitted(s: Slots): seq<Byte> {
    s.leader + s.exif + s.header + s.common + s.data0 + s.data1 + s.trailer + s.align
  }

  /** The slots get_data_buffers looks at, in index order. */
  function DataSlots(s: Slots): seq<seq<Byte>> {
    [s.leader, s.exif, s.header, s.common, s.data0, s.data1, s.trailer, s.align]
  }

  /** The slots that hold data, in order. */
  function Mapped(slots: seq<seq<Byte>>): (m: seq<seq<Byte>>)
    ensures |m| <= |slots|
    ensures Concat(m) == Concat(slots)
  {
    if slots == [] then []
    else if slots[0] == [] then
      assert [] + Concat(slots[1..]) == Concat(slots[1..]);
      Mapped(slots[1..])
    else
      var m := Mapped(slots[1..]);
      assert ([slots[0]] + m)[1..] == m;
      [slots[0]] + m
  }

  /** reset_chunks */
  function ResetChunks(s: Slots, all: bool): Slots {
    if all then EMPTY else EMPTY.(rem := s.rem)
  }

  /** prep_last_block: REM is filled up to one sector of zeros and moved to the common buffer. */
  function PrepLastBlock(s: Slots): (Slots, nat)
    requires |s.rem| <= PHY_BLOCK_SIZE
  {
    if |s.rem| != 0 then
      (s.(common := s.common + (s.rem + Zeros(PHY_BLOCK_SIZE - |s.rem|)), rem := []), PHY_BLOCK_SIZE)
    else (s, 0)
  }

  /** update_lba: the pointer after `blocks` more sectors, and whether it went back to the start first. */
  function UpdateLba(start: nat, current: nat, end: nat, blocks: nat): (nat, bool) {
    if current + blocks <= end then (current + blocks, false) else (start + blocks, true)
  }

  /** Between transactions only REM holds data. */
  predicate Idle(s: Slots) {
    s == EMPTY.(rem := s.rem)
  }

  // ---------- The reference: one byte stream, cut once ----------

  function Raw(f: Frame): seq<Byte> {
    f.leader + f.exif + f.header + f.data0 + f.data1 + f.trailer
  }

  function DataLen(f: Frame): nat {
    |f.data0| + |f.data1| + |f.trailer|
  }

  /** The frame does not even fill a sector together with the remainder: nothing can be written. */
  predicate Delayed(rem: nat, f: Frame) {
    rem + |Raw(f)| < PHY_BLOCK_SIZE
  }

  function HeadLen(rem: nat, f: Frame): nat {
    rem + |f.leader| + |f.exif| + |f.header|
  }

  /** Bytes in the common buffer once the header is in. */
  function CommonLen(rem: nat, f: Frame): nat {
    HeadLen(rem, f) + StuffingLen(HeadLen(rem, f))
  }

  /** The frame as it goes to disk after `rem` pending bytes: the stuffing segment sits before the header. */
  function Stuffed(rem: nat, f: Frame, beyond: seq<Byte>): seq<Byte>
    requires |beyond| == 3
  {
    if Delayed(rem, f) then Raw(f)
    else f.leader + f.exif + App15(StuffingLen(HeadLen(rem, f)), beyond) + f.header + f.data0 + f.data1 + f.trailer
  }

  /** How much of the stream stays behind: what exceeds whole sectors, except that the two bytes of the
      end marker are never parted by the main path. */
  function Residue(rem: nat, f: Frame): nat {
    if Delayed(rem, f) then rem + |Raw(f)|
    else
      var over := (CommonLen(rem, f) + DataLen(f)) % PHY_BLOCK_SIZE;
      if DataLen(f) >= PHY_BLOCK_SIZE && over == 1 then PHY_BLOCK_SIZE + 1 else over
  }

  /** num bytes are taken from the middle of one of the data vectors. */
  predicate TakesPart(num: nat, f: Frame) {
    || 0 < num < |f.data0|
    || |f.data0| < num < |f.data0| + |f.data1|
    || |f.data0| + |f.data1| < num < DataLen(f)
  }

  /** A short frame fills the last sector from the middle of one of its vectors. */
  predicate PartialTake(rem: nat, f: Frame) {
    var num := AlignBytesNum(CommonLen(rem, f), PHY_BLOCK_SIZE);
    !Delayed(rem, f) && DataLen(f) < PHY_BLOCK_SIZE && num <= DataLen(f) && TakesPart(num, f)
  }
}
