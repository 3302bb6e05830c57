/**
  The critical sections of camogm_frame_jpeg, jpeg_writer and camogm_end_jpeg, in place: each carries out
  exactly the steps of Handshake that the thread takes while it owns the mutex and the slots.
 */
module Recording {
  import opened Bytes
  import opened FrameAlignment
  import opened AlignmentTheorems
  import opened AlignBuffers
  import opened Handshake
  import opened HandshakeTheorems

  const FILE_CHUNKS_NUM := 8

  class Device {
    const cells: array<Byte>
    var off: nat

    constructor (size: nat)
      ensures fresh(cells) && cells.Length == size && off == 0
    {
      cells := new Byte[size](_ => 0);
      off := 0;
    }

    /** writev of the joined buffers; the system reports n. */
    method Write(bufs: seq<seq<Byte>>, n: int) returns (iovlen: int)
      requires -1 <= n <= |Concat(bufs)| && (n > 0 ==> off + n <= cells.Length)
      modifies this`off, cells
      ensures iovlen == n
      ensures off == if n <= 0 then old(off) else old(off) + n
      ensures cells[..] == Landed(old(cells[..]), old(off), Concat(bufs), n)
    {
      iovlen := n;
      if n > 0 {
        var data := Concat(bufs);
        forall i | 0 <= i < n {
          cells[off + i] := data[i];
        }
        off := off + n;
      }
    }
  }

  class Recorder {
    const aligner: Aligner
    const device: Device
    var dataReady: bool
    var failed: bool
    var totalRec: nat

    ghost predicate Valid()
      reads this, aligner, aligner.common, aligner.rem, aligner.prevRem, device
    {
      && aligner.Valid() && aligner.prevRem.len == 0
      && this !in aligner.Repr && device !in aligner.Repr && device.cells !in aligner.Repr
    }

    /** The recorder of a partition, idle. */
    constructor (aligner: Aligner, device: Device)
      requires aligner.Valid() && aligner.prevRem.len == 0
      requires device !in aligner.Repr && device.cells !in aligner.Repr
      ensures Valid() && this.aligner == aligner && this.device == device
      ensures !dataReady && !failed && totalRec == 0
    {
      this.aligner, this.device := aligner, device;
      dataReady, failed, totalRec := false, false, 0;
    }

    /** The object holds the data part of a state of the step system. */
    ghost predicate Represents(s: State)
      requires Valid()
      reads this, aligner, aligner.common, aligner.rem, aligner.prevRem, device
      reads aligner.common.data, aligner.rem.data, device.cells
    {
      && s.slots == aligner.View() && s.lba == aligner.lbaCurrent
      && s.dataReady == dataReady && s.failed == failed && s.totalRec == totalRec
      && s.off == device.off && s.dev == device.cells[..]
    }

    ghost function Settings(): Config {
      Config(aligner.lbaStart, aligner.lbaEnd, aligner.beyond)
    }

    /** camogm_frame_jpeg between the wait for data_ready and the unlock. */
    method FrameSection(p: Packet, ghost s: State)
      requires Valid() && Represents(s) && s.main == MBody(Store(p)) && !dataReady && PacketOk(p)
      requires FrameAlignment.Idle(s.slots) && |s.slots.rem| <= PHY_BLOCK_SIZE + 1
      requires |FrameOf(p).exif| <= aligner.maxExif && JPEG_MARKER_LEN + |FrameOf(p).header| <= JPEG_HEADER_MAXSIZE
      modifies this`dataReady, device`off, aligner.Repr
      ensures Valid() && Represents(DoPublish(DoAdvance(Settings(), DoAlign(Settings(), s, p))))
    {
      FrameSectionState(Settings(), s, p);
      FrameRound(p);
    }

    method FrameRound(p: Packet)
      requires Valid() && PacketOk(p) && FrameAlignment.Idle(aligner.View())
      requires |aligner.View().rem| <= PHY_BLOCK_SIZE + 1
      requires |FrameOf(p).exif| <= aligner.maxExif && JPEG_MARKER_LEN + |FrameOf(p).header| <= JPEG_HEADER_MAXSIZE
      modifies this`dataReady, device`off, aligner.Repr
      ensures Valid() && aligner.View() == AlignFrame(old(aligner.View()), p, aligner.beyond)
      ensures var (lba, wrapped) := UpdateLba(aligner.lbaStart, old(aligner.lbaCurrent), aligner.lbaEnd,
                                              |Emitted(aligner.View())| / PHY_BLOCK_SIZE);
        aligner.lbaCurrent == lba && device.off == if wrapped then 0 else old(device.off)
      ensures dataReady == (old(dataReady) || !failed)
    {
      aligner.AlignFrame(p);
      var wrapped := CountSectors();
      if !failed {
        dataReady := true;
      }
    }

    /** update_lba, and the rewind it asks for. */
    method CountSectors() returns (wrapped: bool)
      requires Valid()
      modifies aligner`lbaCurrent, device`off
      ensures Valid() && aligner.View() == old(aligner.View())
      ensures (aligner.lbaCurrent, wrapped) == UpdateLba(aligner.lbaStart, old(aligner.lbaCurrent), aligner.lbaEnd,
                                                         |Emitted(aligner.View())| / PHY_BLOCK_SIZE)
      ensures device.off == if wrapped then 0 else old(device.off)
    {
      wrapped := aligner.AdvanceLba();
      if wrapped {
        device.off := 0;
      }
    }

    /** jpeg_writer with data_ready set. */
    method WriterSection(n: int, ghost s: State)
      requires Valid() && Represents(s) && s.writer.WWrite? && dataReady && WriteReturns(s, Emitted(s.slots), n)
      modifies this, device, device.cells, aligner.Repr
      ensures Valid() && Represents(DoWrite(s, s.writer.quit, n))
    {
      WriterSectionState(s, n);
      WriterRound(n);
    }

    method WriterRound(n: int)
      requires Valid() && -1 <= n <= |Emitted(aligner.View())|
      requires if Emitted(aligner.View()) == [] then n == 0 else n > 0 ==> device.off + n <= device.cells.Length
      modifies this, device, device.cells, aligner.Repr
      ensures Valid() && !dataReady && aligner.View() == ResetChunks(old(aligner.View()), failed)
      ensures aligner.lbaCurrent == old(aligner.lbaCurrent)
      ensures var data := Emitted(old(aligner.View()));
        && failed == !(data != [] && n >= |data|)
        && device.off == (if n <= 0 then old(device.off) else old(device.off) + n)
        && device.cells[..] == Landed(old(device.cells[..]), old(device.off), data, n)
        && totalRec == old(totalRec) + (if failed then 0 else |data|)
    {
      var ok := WriteSlots(n);
      failed := !ok;
      Release(!ok);
    }

    /** Discards the slots and hands them back to the main thread. */
    method Release(resetRem: bool)
      requires Valid()
      modifies this`dataReady, aligner.Repr
      ensures Valid() && !dataReady && aligner.View() == ResetChunks(old(aligner.View()), resetRem)
      ensures aligner.lbaCurrent == old(aligner.lbaCurrent)
    {
      aligner.Reset(resetRem);
      dataReady := false;
    }

    /** The write itself, and the statistics if it was complete. */
    method WriteSlots(n: int) returns (ok: bool)
      requires Valid() && -1 <= n <= |Emitted(aligner.View())|
      requires if Emitted(aligner.View()) == [] then n == 0 else n > 0 ==> device.off + n <= device.cells.Length
      modifies this`totalRec, device`off, device.cells
      ensures Valid() && aligner.View() == old(aligner.View())
      ensures var data := Emitted(old(aligner.View()));
        && ok == (data != [] && n >= |data|)
        && device.off == (if n <= 0 then old(device.off) else old(device.off) + n)
        && device.cells[..] == Landed(old(device.cells[..]), old(device.off), data, n)
        && totalRec == old(totalRec) + (if ok then |data| else 0)
    {
      var chunkIndex, chunks := MappedBuffers();
      ok := false;
      if chunkIndex > 0 {
        ok := WriteBuffers(chunks, n);
      } else {
        assert n == 0;
      }
    }

    /** get_data_buffers with room for every slot: it never fails. */
    method MappedBuffers() returns (chunkIndex: int, chunks: seq<seq<Byte>>)
      requires Valid()
      ensures chunkIndex == |chunks| && chunks == Mapped(DataSlots(aligner.View()))
      ensures Concat(chunks) == Emitted(aligner.View()) && (chunkIndex == 0 <==> Emitted(aligner.View()) == [])
    {
      chunkIndex, chunks := aligner.GetDataBuffers(FILE_CHUNKS_NUM);
      AllMapped(aligner.View(), chunks);
    }

    method WriteBuffers(chunks: seq<seq<Byte>>, n: int) returns (ok: bool)
      requires Valid() && -1 <= n <= |Concat(chunks)| && (n > 0 ==> device.off + n <= device.cells.Length)
      modifies this`totalRec, device`off, device.cells
      ensures Valid() && aligner.View() == old(aligner.View())
      ensures ok == (n >= |Concat(chunks)|)
      ensures device.off == (if n <= 0 then old(device.off) else old(device.off) + n)
      ensures device.cells[..] == Landed(old(device.cells[..]), old(device.off), Concat(chunks), n)
      ensures totalRec == old(totalRec) + (if ok then |Concat(chunks)| else 0)
    {
      var l := |Concat(chunks)|;
      var iovlen := device.Write(chunks, n);
      ok := iovlen >= l;
      if ok {
        totalRec := totalRec + l;
      }
    }

    /** camogm_end_jpeg between the wait for data_ready and the unlock. */
    method EndSection(n: int, ghost s: State) returns (fault: bool)
      requires Valid() && Represents(s) && s.main == MBody(Stop) && !dataReady && FrameAlignment.Idle(s.slots)
      requires Enabled(s, MainFlush(n))
      modifies this, device, device.cells, aligner.Repr
      ensures Valid() && Represents(DoFlush(Settings(), s, n)) && fault == DoFlush(Settings(), s, n).main.MFault?
    {
      assert |aligner.View().align| == aligner.alignLen;
      var bytes;
      bytes, fault := aligner.PrepareLastBlock();
      if !fault && bytes > 0 {
        FlushLastBlock(n, s);
      }
    }

    /** Only the last block is in the slots. */
    method FlushLastBlock(n: int, ghost s: State)
      requires Valid() && s.slots.rem != [] && |s.slots.rem| <= PHY_BLOCK_SIZE && FrameAlignment.Idle(s.slots)
      requires aligner.View() == PrepLastBlock(s.slots).0 && WriteReturns(s, LastBlock(s), n)
      requires s.main == MBody(Stop) && Represents(s.(slots := aligner.View())) && !dataReady
      modifies this, device, device.cells, aligner.Repr
      ensures Valid() && Represents(DoFlush(Settings(), s, n))
    {
      FlushSectionState(Settings(), s, n);
      var ok := WriteBlock(n);
      if !ok {
        failed := true;
      } else {
        aligner.lbaCurrent := aligner.lbaCurrent + 1;
      }
      Release(true);
    }

    /** Writes the common buffer. */
    method WriteBlock(n: int) returns (ok: bool)
      requires Valid() && -1 <= n <= |aligner.View().common| && (n > 0 ==> device.off + n <= device.cells.Length)
      modifies this`totalRec, device`off, device.cells
      ensures Valid() && aligner.View() == old(aligner.View())
      ensures var data := old(aligner.View()).common;
        && ok == (n >= |data|)
        && device.off == (if n <= 0 then old(device.off) else old(device.off) + n)
        && device.cells[..] == Landed(old(device.cells[..]), old(device.off), data, n)
        && totalRec == old(totalRec) + (if ok then |data| else 0)
    {
      var block := aligner.common.data[..aligner.common.len];
      ConcatOne(block);
      ok := WriteBuffers([block], n);
    }
  }

  lemma AllMapped(s: Slots, chunks: seq<seq<Byte>>)
    requires var m := Mapped(DataSlots(s)); chunks == if |m| <= FILE_CHUNKS_NUM then m else m[..FILE_CHUNKS_NUM]
    ensures chunks == Mapped(DataSlots(s)) && Concat(chunks) == Emitted(s) && (|chunks| == 0 <==> Emitted(s) == [])
  {
    MappedKeepsBytes(s);
  }

  lemma FlushSectionState(c: Config, s: State, n: int)
    requires s.slots.rem != [] && |s.slots.rem| <= PHY_BLOCK_SIZE && FrameAlignment.Idle(s.slots)
    requires WriteReturns(s, LastBlock(s), n)
    ensures var t := DoFlush(c, s, n); var data := PrepLastBlock(s.slots).0.common;
      && LastBlock(s) == data && |data| == PHY_BLOCK_SIZE
      && t.slots == EMPTY && t.lba == (if n >= PHY_BLOCK_SIZE then s.lba + 1 else s.lba)
      && t.failed == (s.failed || n < PHY_BLOCK_SIZE) && t.dataReady == s.dataReady
      && t.off == (if n <= 0 then s.off else s.off + n) && t.dev == Landed(s.dev, s.off, data, n)
      && t.totalRec == s.totalRec + (if n >= PHY_BLOCK_SIZE then PHY_BLOCK_SIZE else 0)
  {
  }

  lemma FrameSectionState(c: Config, s: State, p: Packet)
    requires |c.beyond| == 3 && PacketOk(p)
    ensures var t := DoPublish(DoAdvance(c, DoAlign(c, s, p)));
            var d := AlignFrame(s.slots, p, c.beyond);
            var (lba, wrapped) := UpdateLba(c.start, s.lba, c.end, |Emitted(d)| / PHY_BLOCK_SIZE);
      && t.slots == d && t.lba == lba && t.off == (if wrapped then 0 else s.off) && t.dev == s.dev
      && t.failed == s.failed && t.dataReady == (s.dataReady || !s.failed) && t.totalRec == s.totalRec
  {
  }

  lemma WriterSectionState(s: State, n: int)
    requires s.writer.WWrite? && WriteReturns(s, Emitted(s.slots), n)
    ensures var t := DoWrite(s, s.writer.quit, n); var data := Emitted(s.slots);
            var ok := data != [] && n >= |data|;
      && t.slots == ResetChunks(s.slots, !ok) && t.lba == s.lba && t.failed == !ok && !t.dataReady
      && t.off == (if n <= 0 then s.off else s.off + n) && t.dev == Landed(s.dev, s.off, data, n)
      && t.totalRec == s.totalRec + (if ok then |data| else 0)
  {
    MappedKeepsBytes(s.slots);
  }

  /** A frame that does not fill a sector together with the remainder is handed over as an empty transaction, with
      all its bytes in the remainder.  In every run from there nothing else is ever handed over: the transaction is
      pending, or the writer has taken it for an error, which is final. */
  lemma DelayedFrameStopsRecording(c: Config, s: State, p: Packet, run: seq<Action>)
    requires |c.beyond| == 3 && Safe(s) && s.main == MBody(Store(p)) && PacketOk(p) && !s.failed
    requires FrameAlignment.Idle(s.slots) && Delayed(|s.slots.rem|, FrameOf(p))
    ensures var t := DoPublish(DoAdvance(c, DoAlign(c, s, p)));
      && Safe(t) && t.dataReady && Emitted(t.slots) == [] && t.slots.rem == s.slots.rem + Raw(FrameOf(p))
      && (Possible(c, t, run) ==>
            && Run(c, t, run).handed == t.handed
            && (!Run(c, t, run).dataReady ==> Run(c, t, run).failed && Run(c, t, run).served == t.handed))
  {
    var t := DoPublish(DoAdvance(c, DoAlign(c, s, p)));
    DelayKeeps(s.slots, p, c.beyond);
    StepSafe(c, s, MainAlign);
    StepSafe(c, DoAlign(c, s, p), MainAdvance);
    StepSafe(c, DoAdvance(c, DoAlign(c, s, p)), MainPublish);
    if Possible(c, t, run) {
      EmptyTransactionIsFinal(c, t, run);
    }
  }
}
