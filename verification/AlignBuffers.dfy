/**
  The alignment code in place: three owned buffers, the slots that point into captured memory, and the
  ring pointer.  Every copy is a bounds-checked array write, so that no buffer overflows is part of what
  these methods prove.
 */
module AlignBuffers {
  import opened Bytes
  import opened FrameAlignment
  import opened AlignmentTheorems

  const REM_BUFF_SZ := 2 * PHY_BLOCK_SIZE

  function CommonBuffSize(maxExif: nat): nat {
    maxExif + JPEG_HEADER_MAXSIZE + ALIGNMENT_SIZE + 2 * PHY_BLOCK_SIZE
  }

  /** An iovec with the memory it owns. */
  class Buffer {
    const data: array<Byte>
    var len: nat

    ghost predicate Valid()
      reads this
    {
      len <= data.Length
    }

    ghost function Content(): seq<Byte>
      requires Valid()
      reads this, data
    {
      data[..len]
    }

    constructor (size: nat)
      ensures Valid() && fresh(data) && data.Length == size && len == 0
    {
      data := new Byte[size](_ => 0);
      len := 0;
    }

    /** vectcpy */
    method Append(src: seq<Byte>)
      requires Valid() && len + |src| <= data.Length
      modifies this`len, data
      ensures Valid() && len == old(len) + |src| && Content() == old(Content()) + src
    {
      forall i | 0 <= i < |src| {
        data[len + i] := src[i];
      }
      len := len + |src|;
    }

    /** vectshrink */
    method DropTail(n: nat)
      requires Valid()
      modifies this`len
      ensures Valid() && Content() == Shrink(old(Content()), n)
    {
      if len >= n {
        len := len - n;
      }
    }

    /** vectrpos: the bytes from n before the end. */
    method LastBytes(n: nat) returns (t: seq<Byte>)
      requires Valid() && n <= len
      ensures t == Tail(Content(), n)
    {
      t := data[len - n..len];
    }
  }

  class Aligner {
    const maxExif: nat
    const beyond: seq<Byte>
    const common: Buffer
    const rem: Buffer
    const prevRem: Buffer
    var leader: seq<Byte>
    var exif: seq<Byte>
    var header: seq<Byte>
    var data0: seq<Byte>
    var data1: seq<Byte>
    var trailer: seq<Byte>
    var alignOff: nat
    var alignLen: nat
    const lbaStart: nat
    const lbaEnd: nat
    var lbaCurrent: nat

    ghost const Repr: set<object> := {this, common, rem, prevRem, common.data, rem.data, prevRem.data}

    ghost predicate Valid()
      reads this, common, rem, prevRem
    {
      && |beyond| == 3
      && common != rem && common != prevRem && rem != prevRem
      && common.data != rem.data && common.data != prevRem.data && rem.data != prevRem.data
      && common.data.Length == CommonBuffSize(maxExif)
      && rem.data.Length == REM_BUFF_SZ && prevRem.data.Length == REM_BUFF_SZ
      && common.Valid() && rem.Valid() && prevRem.Valid()
      && alignOff + alignLen <= common.data.Length
    }

    /** The bytes behind the nine slots. */
    ghost function View(): Slots
      requires Valid()
      reads this, common, rem, prevRem, common.data, rem.data
    {
      Slots(leader, exif, header, common.Content(), data0, data1, trailer,
            common.data[alignOff..alignOff + alignLen], rem.Content())
    }

    /** init_align_buffers */
    constructor (maxExif: nat, beyond: seq<Byte>, lbaStart: nat, lbaEnd: nat)
      requires |beyond| == 3
      ensures Valid() && fresh(common) && fresh(rem) && fresh(prevRem)
      ensures fresh(common.data) && fresh(rem.data) && fresh(prevRem.data)
      ensures View() == EMPTY && prevRem.len == 0 && this.maxExif == maxExif && this.beyond == beyond
      ensures this.lbaStart == lbaStart && this.lbaEnd == lbaEnd && lbaCurrent == lbaStart
    {
      this.maxExif, this.beyond := maxExif, beyond;
      this.lbaStart, this.lbaEnd, lbaCurrent := lbaStart, lbaEnd, lbaStart;
      common := new Buffer(CommonBuffSize(maxExif));
      rem := new Buffer(REM_BUFF_SZ);
      prevRem := new Buffer(REM_BUFF_SZ);
      leader, exif, header, data0, data1, trailer := [], [], [], [], [], [];
      alignOff, alignLen := 0, 0;
    }

    /** remap_vectors */
    method RemapVectors(p: Packet)
      requires Valid() && PacketOk(p) && prevRem.len == 0
      modifies this`leader, this`exif, this`header, this`data0, this`data1, this`trailer, rem`len, prevRem`len, prevRem.data
      ensures Valid() && View() == Remap(old(View()), p)
      ensures prevRem.Content() == old(View()).rem
      ensures common.len == old(common.len) && rem.len == 0
    {
      PointAtPacket(p);
      RemToPrev();
    }

    method PointAtPacket(p: Packet)
      requires Valid() && PacketOk(p)
      modifies this`leader, this`exif, this`header, this`data0, this`data1, this`trailer
      ensures var f := FrameOf(p);
        && leader == f.leader && exif == (if p.exif then f.exif else old(exif)) && header == f.header
        && data0 == f.data0 && data1 == (if p.segments == 2 then f.data1 else old(data1)) && trailer == f.trailer
    {
      var chunkIndex := 1;
      if p.exif {
        leader := p.chunks[chunkIndex];
        exif := p.chunks[chunkIndex + 1];
        header := p.chunks[chunkIndex + 2];
        chunkIndex := chunkIndex + 3;
      } else {
        leader := p.chunks[chunkIndex][..JPEG_MARKER_LEN];
        header := p.chunks[chunkIndex][JPEG_MARKER_LEN..];
        chunkIndex := chunkIndex + 1;
      }
      data0 := p.chunks[chunkIndex];
      chunkIndex := chunkIndex + 1;
      if p.segments == 2 {
        data1 := p.chunks[chunkIndex];
        chunkIndex := chunkIndex + 1;
      }
      trailer := p.chunks[chunkIndex];
    }

    /** Moves the remainder out of the REM slot. */
    method RemToPrev()
      requires Valid() && prevRem.len == 0
      modifies rem`len, prevRem`len, prevRem.data
      ensures Valid() && View() == old(View()).(rem := [])
      ensures prevRem.Content() == old(View()).rem
    {
      if rem.len != 0 {
        prevRem.Append(rem.data[..rem.len]);
        rem.DropTail(rem.len);
      }
    }

    /** vectcpy to the REM slot. */
    method CopyToRem(src: seq<Byte>)
      requires Valid() && rem.len + |src| <= REM_BUFF_SZ
      modifies rem`len, rem.data
      ensures Valid() && View() == old(View()).(rem := old(View()).rem + src) && rem.len == old(rem.len) + |src|
    {
      rem.Append(src);
    }

    /** vectcpy to the COMMON slot. */
    method CopyToCommon(src: seq<Byte>)
      requires Valid() && alignLen == 0 && common.len + |src| <= common.data.Length
      modifies common`len, common.data
      ensures Valid() && View() == old(View()).(common := old(View()).common + src)
      ensures common.len == old(common.len) + |src|
    {
      common.Append(src);
    }

    /** Empties the remainder of the previous frame, to the caller. */
    method TakePrevRem() returns (src: seq<Byte>)
      requires Valid()
      modifies prevRem`len
      ensures Valid() && prevRem.len == 0 && src == old(prevRem.Content())
    {
      src := prevRem.data[..prevRem.len];
      prevRem.DropTail(prevRem.len);
    }

    method PrevRemToRem()
      requires Valid() && rem.len + prevRem.len <= REM_BUFF_SZ
      modifies rem`len, rem.data, prevRem`len
      ensures Valid() && prevRem.len == 0
      ensures View() == old(View()).(rem := old(View()).rem + old(prevRem.Content()))
      ensures rem.len == old(rem.len + prevRem.len)
    {
      if prevRem.len != 0 {
        var src := TakePrevRem();
        CopyToRem(src);
      } else {
        assert old(View()).rem + old(prevRem.Content()) == old(View()).rem;
      }
    }

    method PrevRemToCommon()
      requires Valid() && alignLen == 0 && common.len + prevRem.len <= common.data.Length
      modifies common`len, common.data, prevRem`len
      ensures Valid() && prevRem.len == 0
      ensures View() == old(View()).(common := old(View()).common + old(prevRem.Content()))
    {
      if prevRem.len != 0 {
        var src := TakePrevRem();
        CopyToCommon(src);
      } else {
        assert old(View()).common + old(prevRem.Content()) == old(View()).common;
      }
    }

    method HeadToRem()
      requires Valid() && rem.len + |leader| + |exif| + |header| <= REM_BUFF_SZ
      modifies this`leader, this`exif, this`header, rem`len, rem.data
      ensures Valid()
      ensures var s := old(View());
        View() == s.(leader := [], exif := [], header := [], rem := s.rem + s.leader + s.exif + s.header)
      ensures rem.len == old(rem.len + |leader| + |exif| + |header|)
    {
      CopyToRem(leader);
      CopyToRem(exif);
      CopyToRem(header);
      leader, exif, header := [], [], [];
    }

    method DelayFrame()
      requires Valid()
      requires rem.len + prevRem.len + |leader| + |exif| + |header| + |data0| + |data1| + |trailer| <= REM_BUFF_SZ
      modifies this`leader, this`exif, this`header, this`data0, this`data1, this`trailer
      modifies rem`len, rem.data, prevRem`len
      ensures Valid() && prevRem.len == 0
      ensures View() == Delay(old(View()), old(prevRem.Content()))
    {
      PrevRemToRem();
      ghost var s := View();
      HeadToRem();
      assert data0 == s.data0 && data1 == s.data1 && trailer == s.trailer;
      KeepData();
    }

    /** The marker that opens the frame, and Exif if there is any. */
    method LeaderToCommon()
      requires Valid() && alignLen == 0 && common.len + |leader| + |exif| <= common.data.Length
      modifies this`leader, this`exif, common`len, common.data
      ensures Valid()
      ensures var s := old(View()); View() == s.(leader := [], exif := [], common := s.common + s.leader + s.exif)
    {
      CopyToCommon(leader);
      leader := [];
      if |exif| != 0 {
        CopyToCommon(exif);
        exif := [];
      } else {
        assert old(View()).common + old(View()).leader + old(View()).exif == View().common;
      }
    }

    method StuffedHeaderToCommon()
      requires Valid() && alignLen == 0 && common.len + 35 + |header| <= common.data.Length
      modifies this`header, common`len, common.data
      ensures Valid()
      ensures var s := old(View());
        View() == s.(header := [],
                     common := s.common + App15(StuffingLen(|s.common| + |s.header|), beyond) + s.header)
    {
      assert |View().common| == common.len;
      var len := StuffingLen(common.len + |header|);
      CopyToCommon(App15(len, beyond));
      CopyToCommon(header);
      header := [];
    }

    /** Remainder, leader, Exif, stuffing and header into the common buffer. */
    method GatherCommon()
      requires Valid() && alignLen == 0
      requires common.len + prevRem.len + |leader| + |exif| + |header| + 35 <= common.data.Length
      modifies this`leader, this`exif, this`header, common`len, common.data, prevRem`len
      ensures Valid() && prevRem.len == 0
      ensures View() == Gather(old(View()), old(prevRem.Content()), beyond)
    {
      assert |View().common| == common.len;
      PrevRemToCommon();
      assert |View().common| == common.len;
      LeaderToCommon();
      assert |View().common| == common.len;
      StuffedHeaderToCommon();
    }

    /** Gives `num` bytes of a data vector, or all of it, to the common buffer. */
    method TakeInto(v: seq<Byte>, num: nat) returns (kept: seq<Byte>, left: nat)
      requires Valid() && alignLen == 0 && common.len + (if num < |v| then num else |v|) <= common.data.Length
      modifies common`len, common.data
      ensures Valid()
      ensures View() == old(View()).(common := old(View()).common + Take(v, num).0)
      ensures common.len == old(common.len) + |Take(v, num).0|
      ensures (kept, left) == (Take(v, num).1, Take(v, num).2)
    {
      if num >= |v| {
        CopyToCommon(v);
        kept, left := [], num - |v|;
      } else {
        CopyToCommon(v[..num]);
        kept, left := v[..|v| - num], 0;
      }
    }

    /** Fills the last sector of the common buffer from the data vectors. */
    method FillSector(fill: nat)
      requires Valid() && alignLen == 0 && common.len + fill <= common.data.Length
      modifies this`data0, this`data1, this`trailer, common`len, common.data
      ensures Valid()
      ensures var s := old(View());
        var (t0, k0, n0) := Take(s.data0, fill);
        var (t1, k1, n1) := Take(s.data1, n0);
        var (t2, k2, _) := Take(s.trailer, n1);
        View() == s.(common := s.common + t0 + t1 + t2, data0 := k0, data1 := k1, trailer := k2)
    {
      ghost var s := View();
      var num := FillFromData0(fill);
      ghost var s0 := View();
      var kept;
      kept, num := TakeInto(data1, num);
      data1 := kept;
      ghost var s1 := View();
      assert s1 == s0.(common := s1.common, data1 := kept);
      kept, num := TakeInto(trailer, num);
      trailer := kept;
      assert View() == s1.(common := View().common, trailer := kept);
    }

    method FillFromData0(fill: nat) returns (num: nat)
      requires Valid() && alignLen == 0 && common.len + (if fill < |data0| then fill else |data0|) <= common.data.Length
      modifies this`data0, common`len, common.data
      ensures Valid()
      ensures var s := old(View()); var (t0, k0, n0) := Take(s.data0, fill);
        View() == s.(common := s.common + t0, data0 := k0) && num == n0 && common.len == old(common.len) + |t0|
    {
      var kept;
      kept, num := TakeInto(data0, fill);
      data0 := kept;
    }

    /** Gives what exceeds whole sectors in the common buffer to REM. */
    method TruncateCommon()
      requires Valid() && rem.len == 0
      modifies common`len, rem`len, rem.data
      ensures Valid()
      ensures rem.len == old(common.len) % PHY_BLOCK_SIZE
      ensures var s := old(View()); var over := |s.common| % PHY_BLOCK_SIZE;
        View() == s.(common := Shrink(s.common, over), rem := s.rem + Tail(s.common, over))
    {
      var dataLen := common.len % PHY_BLOCK_SIZE;
      var src := common.LastBytes(dataLen);
      CopyToRem(src);
      common.DropTail(dataLen);
    }

    method KeepData()
      requires Valid() && rem.len + |data0| + |data1| + |trailer| <= REM_BUFF_SZ
      modifies this`data0, this`data1, this`trailer, rem`len, rem.data
      ensures Valid()
      ensures var s := old(View());
        View() == s.(data0 := [], data1 := [], trailer := [], rem := s.rem + s.data0 + s.data1 + s.trailer)
    {
      CopyToRem(data0);
      CopyToRem(data1);
      CopyToRem(trailer);
      data0, data1, trailer := [], [], [];
    }

    method DelayShortData()
      requires Valid() && alignLen == 0 && rem.len == 0 && DataTotal(View()) < PHY_BLOCK_SIZE
      requires |View().common| + AlignBytesNum(|View().common|, PHY_BLOCK_SIZE) <= common.data.Length
      modifies this`data0, this`data1, this`trailer, common`len, common.data, rem`len, rem.data
      ensures Valid() && View() == ShortFrame(old(View()))
    {
      var num := AlignBytesNum(common.len, PHY_BLOCK_SIZE);
      assert rem.len == |View().rem|;
      if |data0| + |data1| + |trailer| >= num {
        FillSector(num);
        assert rem.len == |View().rem| == 0;
      } else {
        TruncateCommon();
      }
      KeepData();
    }

    method CutFromData0(n: nat)
      requires Valid() && rem.len == 0 && n <= |data0| && n + |data1| + |trailer| <= REM_BUFF_SZ
      modifies this`data0, this`data1, this`trailer, rem`len, rem.data
      ensures Valid() && View() == CutData0(old(View()), n)
    {
      CopyToRem(data0[|data0| - n..]);
      CopyToRem(data1);
      CopyToRem(trailer);
      data0, data1, trailer := data0[..|data0| - n], [], [];
    }

    method CutFromData1(n: nat)
      requires Valid() && rem.len == 0 && n <= |data1| && n + |trailer| <= REM_BUFF_SZ
      modifies this`data1, this`trailer, rem`len, rem.data
      ensures Valid() && View() == CutData1(old(View()), n)
    {
      CopyToRem(data1[|data1| - n..]);
      CopyToRem(trailer);
      data1, trailer := data1[..|data1| - n], [];
    }

    /** vectcpy into the ALIGN slot, which lies right behind the common bytes in the same buffer. */
    method AppendToAlign(src: seq<Byte>)
      requires Valid() && alignOff == common.len && alignOff + alignLen + |src| <= common.data.Length
      modifies this`alignLen, common.data
      ensures Valid() && View() == old(View()).(align := old(View()).align + src) && alignLen == old(alignLen) + |src|
    {
      ghost var was := View();
      forall i | 0 <= i < |src| {
        common.data[alignOff + alignLen + i] := src[i];
      }
      alignLen := alignLen + |src|;
      assert common.Content() == was.common && View().align == was.align + src;
    }

    method AlignLastBytes()
      requires Valid() && |trailer| == 2 && common.len + ALIGNMENT_SIZE + 1 <= common.data.Length
      modifies this`data0, this`data1, this`trailer, this`alignOff, this`alignLen, common.data
      ensures Valid() && View() == AlignTail(old(View()))
    {
      OpenAlign();
      if |data1| == 0 {
        AlignEndOfData0();
      } else {
        AlignEndOfData1();
      }
    }

    method AlignEndOfData0()
      requires Valid() && alignOff == common.len && alignLen == 0
      requires common.len + |data0| % ALIGNMENT_SIZE + |trailer| <= common.data.Length
      modifies this`data0, this`trailer, this`alignLen, common.data
      ensures Valid()
      ensures var s := old(View()); var n := |s.data0| % ALIGNMENT_SIZE;
        View() == s.(align := Tail(s.data0, n) + s.trailer, data0 := Shrink(s.data0, n), trailer := [])
    {
      var n := |data0| % ALIGNMENT_SIZE;
      EndToAlign(data0, n);
      data0 := data0[..|data0| - n];
    }

    method AlignEndOfData1()
      requires Valid() && alignOff == common.len && alignLen == 0
      requires common.len + |data1| % ALIGNMENT_SIZE + |trailer| <= common.data.Length
      modifies this`data1, this`trailer, this`alignLen, common.data
      ensures Valid()
      ensures var s := old(View()); var n := |s.data1| % ALIGNMENT_SIZE;
        View() == s.(align := Tail(s.data1, n) + s.trailer, data1 := Shrink(s.data1, n), trailer := [])
    {
      var n := |data1| % ALIGNMENT_SIZE;
      EndToAlign(data1, n);
      data1 := data1[..|data1| - n];
    }

    /** The last n bytes of a data vector, then the trailer. */
    method EndToAlign(v: seq<Byte>, n: nat)
      requires Valid() && alignOff == common.len && alignLen == 0 && n <= |v|
      requires common.len + n + |trailer| <= common.data.Length
      modifies this`trailer, this`alignLen, common.data
      ensures Valid() && View() == old(View()).(align := Tail(v, n) + old(trailer), trailer := [])
    {
      AppendToAlign(v[|v| - n..]);
      AppendToAlign(trailer);
      trailer := [];
      assert [] + Tail(v, n) == Tail(v, n);
    }

    /** Places the empty ALIGN slot behind the common bytes. */
    method OpenAlign()
      requires Valid()
      modifies this`alignOff, this`alignLen
      ensures Valid() && alignOff == common.len && alignLen == 0 && View() == old(View()).(align := [])
    {
      alignOff, alignLen := common.len, 0;
    }

    /** The main path: the total is at least a sector of data and is cut at a sector boundary. */
    method CutAtSector()
      requires Valid() && alignLen == 0 && rem.len == 0 && Loaded(View()) && |trailer| == 2
      requires common.len + ALIGNMENT_SIZE + 1 <= common.data.Length && DataTotal(View()) >= PHY_BLOCK_SIZE
      requires TotalSize(View()) % PHY_BLOCK_SIZE == 1 ==> |data0| + |data1| != PHY_BLOCK_SIZE - 2
      modifies this`data0, this`data1, this`trailer, this`alignOff, this`alignLen, common.data, rem`len, rem.data
      ensures Valid() && View() == CutFrame(old(View()))
    {
      assert |View().common| == common.len;
      var totalSz := common.len + |data0| + |data1| + |trailer|;
      var len := totalSz % PHY_BLOCK_SIZE;
      if len == 0 {
        AlignLastBytes();
      } else if len >= |data1| + |trailer| {
        CutFromData0(len - |data1| - |trailer|);
      } else if len >= |trailer| {
        CutFromData1(len - |trailer|);
      } else {
        var dataLen := PHY_BLOCK_SIZE - (|trailer| - len);
        if dataLen >= |data1| {
          CutFromData0(dataLen - |data1|);
        } else {
          CutFromData1(dataLen);
        }
      }
    }

    /** align_frame, on a frame that fits the buffers it is given. */
    method AlignFrame(p: Packet)
      requires Valid() && Idle(View()) && prevRem.len == 0 && PacketOk(p)
      requires |FrameOf(p).exif| <= maxExif && JPEG_MARKER_LEN + |FrameOf(p).header| <= JPEG_HEADER_MAXSIZE
      requires |View().rem| <= PHY_BLOCK_SIZE + 1
      modifies Repr
      ensures Valid() && prevRem.len == 0
      ensures View() == FrameAlignment.AlignFrame(old(View()), p, beyond)
      ensures lbaCurrent == old(lbaCurrent)
    {
      ghost var s := View();
      assert |s.rem| == rem.len && |s.align| == alignLen && |s.common| == common.len;
      RemapVectors(p);
      assert |prevRem.Content()| == prevRem.len && |View().align| == alignLen;
      var totalSz := |leader| + |exif| + |header| + |data0| + |data1| + |trailer| + prevRem.len;
      assert totalSz == TotalSize(View()) + |s.rem|;
      if totalSz < PHY_BLOCK_SIZE {
        DelayFrame();
      } else {
        GatherAndCut(s, p);
      }
    }

    /** The frame fills at least one sector together with the remainder. */
    method GatherAndCut(ghost s: Slots, p: Packet)
      requires Valid() && Idle(s) && PacketOk(p) && alignLen == 0 && common.len == 0 && rem.len == 0
      requires View() == Remap(s, p) && prevRem.Content() == s.rem && |s.rem| <= PHY_BLOCK_SIZE + 1
      requires !Delayed(|s.rem|, FrameOf(p))
      requires |FrameOf(p).exif| <= maxExif && JPEG_MARKER_LEN + |FrameOf(p).header| <= JPEG_HEADER_MAXSIZE
      requires prevRem.len + |leader| + |exif| + |header| + 35 <= CommonBuffSize(maxExif)
      modifies Repr
      ensures Valid() && prevRem.len == 0 && lbaCurrent == old(lbaCurrent)
      ensures var c := Gather(Remap(s, p), s.rem, beyond);
        View() == if DataTotal(c) < PHY_BLOCK_SIZE then ShortFrame(c) else CutFrame(c)
    {
      GatherCommon();
      ghost var c := View();
      GatheredOnce(s, p, beyond, c, maxExif);
      assert |c.common| == common.len && |c.rem| == rem.len;
      if |data0| + |data1| + |trailer| < PHY_BLOCK_SIZE {
        DelayShortData();
      } else {
        CutAtSector();
      }
    }

    /** get_size_from over the slots other than REM, as get_blocks_num sums them. */
    method BlocksNum() returns (num: nat)
      requires Valid()
      ensures num == |Emitted(View())| / PHY_BLOCK_SIZE
    {
      assert |View().common| == common.len && |View().align| == alignLen;
      num := (|leader| + |exif| + |header| + common.len + |data0| + |data1| + |trailer| + alignLen) / PHY_BLOCK_SIZE;
    }

    /** update_lba */
    method AdvanceLba() returns (wrapped: bool)
      requires Valid()
      modifies this`lbaCurrent
      ensures Valid() && View() == old(View())
      ensures (lbaCurrent, wrapped) == UpdateLba(lbaStart, old(lbaCurrent), lbaEnd, |Emitted(View())| / PHY_BLOCK_SIZE)
    {
      var totalSz := BlocksNum();
      if lbaCurrent + totalSz <= lbaEnd {
        lbaCurrent, wrapped := lbaCurrent + totalSz, false;
      } else {
        lbaCurrent, wrapped := lbaStart + totalSz, true;
      }
    }

    /** get_data_buffers: the non-empty slots, or -1 when there are more than fit. */
    method GetDataBuffers(mappedSz: nat) returns (ret: int, mapped: seq<seq<Byte>>)
      requires Valid()
      ensures mappedSz == 0 ==> ret == 0 && mapped == []
      ensures var m := Mapped(DataSlots(View()));
        mappedSz > 0 ==>
          && mapped == (if |m| <= mappedSz then m else m[..mappedSz])
          && ret == (if |m| <= mappedSz then |m| else -1)
    {
      ret, mapped := 0, [];
      if mappedSz == 0 {
        return;
      }
      var all := [leader, exif, header, common.data[..common.len], data0, data1, trailer,
                  common.data[alignOff..alignOff + alignLen]];
      assert all == DataSlots(View());
      var i := 0;
      while i < |all|
        invariant 0 <= i <= |all|
        invariant Mapped(all) == mapped + Mapped(all[i..]) && ret == |mapped| <= mappedSz
      {
        assert all[i..][0] == all[i] && all[i..][1..] == all[i + 1..];
        if |all[i]| != 0 {
          if |mapped| < mappedSz {
            assert mapped + ([all[i]] + Mapped(all[i + 1..])) == (mapped + [all[i]]) + Mapped(all[i + 1..]);
            mapped := mapped + [all[i]];
            ret := |mapped|;
          } else {
            assert Mapped(all)[..mappedSz] == mapped;
            ret := -1;
            return;
          }
        }
        i := i + 1;
      }
      assert Mapped(all) == mapped;
    }

    /** reset_chunks */
    method Reset(all: bool)
      requires Valid()
      modifies this`leader, this`exif, this`header, this`data0, this`data1, this`trailer, this`alignLen
      modifies common`len, rem`len
      ensures Valid() && View() == ResetChunks(old(View()), all)
    {
      ghost var kept := rem.Content();
      leader, exif, header, data0, data1, trailer, alignLen := [], [], [], [], [], [], 0;
      common.len := 0;
      if all {
        rem.len := 0;
      }
      assert common.Content() == [] && View().align == [] && rem.Content() == if all then [] else kept;
    }

    /** prep_last_block: memset behind the remainder, then one copy.  For a remainder of more than a sector the
        length of the memset wraps around, which is reported as a fault. */
    method PrepareLastBlock() returns (bytes: nat, fault: bool)
      requires Valid() && alignLen == 0 && |View().common| + PHY_BLOCK_SIZE <= common.data.Length
      modifies rem`len, rem.data, common`len, common.data
      ensures Valid() && fault == (|old(View()).rem| > PHY_BLOCK_SIZE)
      ensures if fault then View() == old(View()) else (View(), bytes) == FrameAlignment.PrepLastBlock(old(View()))
    {
      assert |View().rem| == rem.len && |View().common| == common.len;
      bytes, fault := 0, false;
      if rem.len != 0 {
        var stuffLen: int := PHY_BLOCK_SIZE - rem.len;
        if stuffLen < 0 {
          return 0, true;
        }
        CopyToRem(Zeros(stuffLen));
        bytes := rem.len;
        CopyToCommon(rem.data[..rem.len]);
        rem.DropTail(rem.len);
      }
    }
  }

  /** What GatherCommon leaves for the cut, from the slots of a frame that starts idle: room for the last
      sector and the ALIGN slot, and a split trailer that can be cut. */
  lemma GatheredOnce(s: Slots, p: Packet, beyond: seq<Byte>, c: Slots, maxExif: nat)
    requires Idle(s) && PacketOk(p) && |beyond| == 3 && !Delayed(|s.rem|, FrameOf(p))
    requires c == Gather(Remap(s, p), s.rem, beyond) && |s.rem| <= PHY_BLOCK_SIZE + 1
    requires |FrameOf(p).exif| <= maxExif && JPEG_MARKER_LEN + |FrameOf(p).header| <= JPEG_HEADER_MAXSIZE
    ensures Loaded(c) && |c.trailer| == 2
    ensures |c.common| + AlignBytesNum(|c.common|, PHY_BLOCK_SIZE) <= CommonBuffSize(maxExif)
    ensures |c.common| + ALIGNMENT_SIZE + 1 <= CommonBuffSize(maxExif)
    ensures DataTotal(c) >= PHY_BLOCK_SIZE && TotalSize(c) % PHY_BLOCK_SIZE == 1 ==> |c.data0| + |c.data1| != PHY_BLOCK_SIZE - 2
  {
    var d := GatherCollectsHead(s, p, beyond);
    SectorPadding(|c.common|);
    if DataTotal(c) >= PHY_BLOCK_SIZE && TotalSize(c) % PHY_BLOCK_SIZE == 1 {
      SplitTrailerCutInRange(c, FrameOf(p));
    }
  }

  /** The capacity argument in numbers: with a remainder of at most 513 bytes the common buffer and the ALIGN
      slot behind it stay below the size allocated for them. */
  lemma CommonBufferSuffices(rem: nat, f: Frame, maxExif: nat)
    requires rem <= PHY_BLOCK_SIZE + 1 && |f.exif| <= maxExif
    requires |f.leader| == JPEG_MARKER_LEN && JPEG_MARKER_LEN + |f.header| <= JPEG_HEADER_MAXSIZE
    ensures CommonLen(rem, f) + PHY_BLOCK_SIZE - ALIGNMENT_SIZE < CommonBuffSize(maxExif)
  {
  }
}
