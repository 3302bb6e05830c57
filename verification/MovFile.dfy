/**
  A movie file while it is recorded: frames are appended behind the room kept for the header, their lengths go
  into the index table, and the header compiled at the end must describe exactly what lies there.
 */
module MovFile {
  import opened Bytes
  import opened BigEndian
  import opened SparseFile
  import opened Template
  import opened TemplateGrammar
  import opened TemplateCompiler
  import opened MovLayout

  // ---------- Where the frames are ----------

  /** The file has `data` at `at`. */
  predicate HasAt(cells: map<nat, Byte>, at: nat, data: seq<Byte>) {
    forall i :: at <= i < at + |data| ==> i in cells && cells[i] == data[i - at]
  }

  /** The length of the first n frames. */
  function Before(frames: seq<seq<Byte>>, n: nat): nat
    requires n <= |frames|
  {
    if n == 0 then 0 else Before(frames, n - 1) + |frames[n - 1]|
  }

  lemma {:induction false} BeforeGrows(frames: seq<seq<Byte>>, i: nat, j: nat)
    requires i <= j <= |frames|
    ensures Before(frames, i) <= Before(frames, j)
    decreases j
  {
    if i < j {
      BeforeGrows(frames, i, j - 1);
    }
  }

  lemma {:induction false} BeforeAppend(frames: seq<seq<Byte>>, frame: seq<Byte>, n: nat)
    requires n <= |frames|
    ensures Before(frames + [frame], n) == Before(frames, n)
    decreases n
  {
    if n > 0 {
      BeforeAppend(frames, frame, n - 1);
    }
  }

  /** Frame i is where the frames before it end. */
  predicate InPlace(cells: map<nat, Byte>, start: nat, frames: seq<seq<Byte>>, i: nat)
    requires i < |frames|
  {
    HasAt(cells, start + Before(frames, i), frames[i])
  }

  /** All frames, one behind the other from `start` on, and the file offset behind the last one. */
  predicate Recorded(f: File, start: nat, frames: seq<seq<Byte>>) {
    && f.pos == start + Before(frames, |frames|)
    && forall i :: 0 <= i < |frames| ==> InPlace(f.cells, start, frames, i)
  }

  predicate SizesOf(sizes: seq<nat>, frames: seq<seq<Byte>>) {
    |frames| <= |sizes| && forall i :: 0 <= i < |frames| ==> sizes[i] == |frames[i]|
  }

  lemma {:induction false} SumIsBefore(sizes: seq<nat>, frames: seq<seq<Byte>>, n: nat)
    requires SizesOf(sizes, frames) && n <= |frames|
    ensures Sum(sizes, n) == Before(frames, n)
    decreases n
  {
    if n > 0 {
      SumIsBefore(sizes, frames, n - 1);
    }
  }

  lemma HoldsBelow(cells: map<nat, Byte>, at: nat, data: seq<Byte>, over: nat, more: seq<Byte>)
    requires HasAt(cells, at, data) && (over + |more| <= at || at + |data| <= over)
    ensures HasAt(cells + Overlay(over, more), at, data)
  {
  }

  lemma EarlierInPlace(f: File, start: nat, frames: seq<seq<Byte>>, frame: seq<Byte>, i: nat)
    requires Recorded(f, start, frames) && i < |frames|
    ensures InPlace(Write(f, frame).cells, start, frames + [frame], i)
  {
    hide HasAt, Overlay;
    BeforeGrows(frames, i + 1, |frames|);
    assert Before(frames, i + 1) == Before(frames, i) + |frames[i]|;
    BeforeAppend(frames, frame, i);
    hide Before;
    assert InPlace(f.cells, start, frames, i);
    HoldsBelow(f.cells, start + Before(frames, i), frames[i], f.pos, frame);
  }

  lemma LastInPlace(f: File, start: nat, frames: seq<seq<Byte>>, frame: seq<Byte>)
    requires Recorded(f, start, frames)
    ensures InPlace(Write(f, frame).cells, start, frames + [frame], |frames|)
  {
    BeforeAppend(frames, frame, |frames|);
  }

  /** Writing the next frame. */
  lemma RecordedNext(f: File, start: nat, frames: seq<seq<Byte>>, frame: seq<Byte>)
    requires Recorded(f, start, frames)
    ensures Recorded(Write(f, frame), start, frames + [frame])
  {
    hide InPlace, Overlay;
    var all := frames + [frame];
    BeforeAppend(frames, frame, |frames|);
    assert Before(all, |all|) == Before(all, |frames|) + |frame|;
    hide Before;
    forall i | 0 <= i < |all|
      ensures InPlace(Write(f, frame).cells, start, all, i)
    {
      if i < |frames| {
        EarlierInPlace(f, start, frames, frame, i);
      } else {
        LastInPlace(f, start, frames, frame);
      }
    }
  }

  // ---------- The sample tables ----------

  /** The table declares as many chunks as it lists just when there is a frame or every frame is a chunk. */
  lemma DeclaredIffListed(e: Env)
    requires EnvOk(e)
    ensures DeclaredChunks(e) == |ChunkOffsets(e)| <==> e.nframes >= 1 || e.samplesPerChunk == 1
  {
    var c := e.samplesPerChunk;
    if e.nframes >= 1 {
      assert e.nframes + c - 1 == (e.nframes - 1) + c;
      OneMoreChunk(e.nframes - 1, c);
    } else {
      assert (c - 1) / c == 0;
    }
  }

  lemma OneMoreChunk(a: nat, c: nat)
    requires c > 0
    ensures (a + c) / c == a / c + 1
  {
    var q := a / c;
    DivMul(a, c);
    assert (q + 1) * c == q * c + c;
    Quotient(a + c, c, q + 1);
  }

  /** Frame i is in chunk i / frames_per_chunk, which the table lists, and the chunk begins with an earlier frame. */
  lemma ChunkOfFrame(i: nat, n: nat, c: nat)
    requires c > 0 && i < n
    ensures i / c < ChunksBegun(n, c) && 0 <= i / c * c <= i
  {
    MulMonotone(0, i / c, c);
    DivMul(i, c);
    DivMul(n + c - 1, c);
    if ChunksBegun(n, c) <= i / c {
      MulMonotone(ChunksBegun(n, c), i / c, c);
    }
  }

  /** Where the tables say frame i is: the offset of its chunk and the lengths of the samples before it there. */
  function Indexed(e: Env, i: nat): nat
    requires EnvOk(e) && i < e.nframes
  {
    var c := e.samplesPerChunk;
    ChunkOfFrame(i, e.nframes, c);
    ChunkOffset(e, i / c) + SumFrom(e.sizes, i / c * c, i)
  }

  function SumFrom(sizes: seq<nat>, first: nat, last: nat): nat
    requires first <= last <= |sizes|
    decreases last
  {
    if first == last then 0 else SumFrom(sizes, first, last - 1) + sizes[last - 1]
  }

  lemma {:induction false} SumSplits(sizes: seq<nat>, first: nat, last: nat)
    requires first <= last <= |sizes|
    ensures Sum(sizes, first) + SumFrom(sizes, first, last) == Sum(sizes, last)
    decreases last
  {
    if first < last {
      SumSplits(sizes, first, last - 1);
    }
  }

  /** The tables point at the place where frame i was written. */
  lemma IndexedIsWritten(e: Env, frames: seq<seq<Byte>>, i: nat)
    requires EnvOk(e) && SizesOf(e.sizes, frames) && e.nframes == |frames| && i < |frames|
    ensures Indexed(e, i) == e.headerSize + Before(frames, i)
  {
    ChunkOfFrame(i, e.nframes, e.samplesPerChunk);
    SumSplits(e.sizes, i / e.samplesPerChunk * e.samplesPerChunk, i);
    SumIsBefore(e.sizes, frames, i);
  }

  /** A template whose header leaves room for a skip atom and ends in the name of the data atom. */
  predicate Fits(e: Env, template: string, h: Header)
    requires EnvOk(e)
  {
    template == HeaderText(h) && HeaderOk(h) && Gap(e, h) >= 8 && |Emit(e, h.tail)| == 4
  }

  /** Compiling the header into a recorded file leaves every frame where the tables of that header say it is. */
  lemma FramesAreIndexed(e: Env, h: Header, f: File, frames: seq<seq<Byte>>, i: nat)
    requires EnvOk(e) && Fits(e, HeaderText(h), h)
    requires Recorded(f, e.headerSize, frames) && SizesOf(e.sizes, frames) && e.nframes == |frames| && i < |frames|
    ensures HasAt(Compile(e, HeaderText(h), f).cells, Indexed(e, i), frames[i])
    ensures Compile(e, HeaderText(h), f).pos == Indexed(e, 0)
  {
    hide Compile, HeaderOk, HeaderText, Gap, Emit, Overlay, Indexed, Encode, HasAt, Sum, SizesOf;
    var skip := Emit(e, h.body) + (Encode(Gap(e, h), 4) + SKIP);
    var head := Encode(Sum(e.sizes, e.nframes), 4) + Emit(e, h.tail);
    var at := e.headerSize + Before(frames, i);
    HeaderMeetsData(e, h, f);
    IndexedIsWritten(e, frames, i);
    IndexedIsWritten(e, frames, 0);
    assert InPlace(f.cells, e.headerSize, frames, i);
    HoldsBelow(f.cells, at, frames[i], 0, skip);
    HoldsBelow(f.cells + Overlay(0, skip), at, frames[i], e.headerSize - 8, head);
  }

  lemma HoldsFront(cells: map<nat, Byte>, data: seq<Byte>, more: seq<Byte>)
    ensures HasAt(cells + Overlay(0, data + more), 0, data)
    ensures HasAt(cells + Overlay(0, data + more), |data|, more)
  {
    assert forall i :: 0 <= i < |more| ==> (data + more)[|data| + i] == more[i];
  }

  lemma HoldsThere(cells: map<nat, Byte>, at: nat, data: seq<Byte>)
    ensures HasAt(cells + Overlay(at, data), at, data)
  {
  }

  /** The header in the file: its body, the skip atom behind it, and the head of the data atom at the end of the
      reserved room. */
  lemma HeaderHeld(e: Env, h: Header, f: File)
    requires EnvOk(e) && Fits(e, HeaderText(h), h)
    ensures var out := Compile(e, HeaderText(h), f).cells;
      && HasAt(out, 0, Emit(e, h.body)) && HasAt(out, |Emit(e, h.body)|, Encode(Gap(e, h), 4) + SKIP)
      && e.headerSize >= 8 && HasAt(out, e.headerSize - 8, Encode(Sum(e.sizes, e.nframes), 4) + Emit(e, h.tail))
  {
    hide Compile, HeaderOk, HeaderText, Emit, Overlay, Encode, HasAt, Sum;
    HeaderMeetsData(e, h, f);
    var body, skip := Emit(e, h.body), Encode(Gap(e, h), 4) + SKIP;
    var head := Encode(Sum(e.sizes, e.nframes), 4) + Emit(e, h.tail);
    var under := f.cells + Overlay(0, body + skip);
    HoldsFront(f.cells, body, skip);
    HoldsBelow(under, 0, body, e.headerSize - 8, head);
    HoldsBelow(under, |body|, skip, e.headerSize - 8, head);
    HoldsThere(under, e.headerSize - 8, head);
  }

  /** The length of the data atom is written as the length of the frames, without the atom's own 8 bytes that
      section 4.2 of ISO/IEC 14496-12 counts in: the atom ends 8 bytes before the last frame does. */
  lemma DataAtomIsShort(e: Env, f: File, frames: seq<seq<Byte>>)
    requires EnvOk(e) && Recorded(f, e.headerSize, frames) && SizesOf(e.sizes, frames) && e.nframes == |frames|
    requires e.headerSize >= 8
    ensures (e.headerSize - 8) + Sum(e.sizes, e.nframes) == f.pos - 8
  {
    SumIsBefore(e.sizes, frames, |frames|);
  }

  // ---------- The recorder ----------

  lemma NothingWritten(f: File)
    ensures Write(f, []) == f
  {
  }

  datatype Status = Done | FrameChanged | FrameFileErr

  class MovRecorder {
    const maxFrames: nat
    const framesPerChunk: nat
    const frameDataStart: nat
    const frameLengths: array<nat>
    var frameno: nat
    var file: File
    var isOpen: bool
    /** What was recorded, for the specification. */
    ghost var frames: seq<seq<Byte>>

    ghost predicate Valid()
      reads this, frameLengths
    {
      && framesPerChunk > 0 && frameDataStart == FrameDataStart(maxFrames, framesPerChunk)
      && frameLengths.Length == maxFrames && frameno == |frames| <= maxFrames
      && SizesOf(frameLengths[..], frames)
      && (isOpen ==> Recorded(file, frameDataStart, frames))
    }

    /** camogm_start_mov */
    constructor (maxFrames: nat, framesPerChunk: nat)
      requires framesPerChunk > 0
      ensures Valid() && isOpen && frames == [] && fresh(frameLengths)
      ensures this.maxFrames == maxFrames && this.framesPerChunk == framesPerChunk
    {
      this.maxFrames, this.framesPerChunk := maxFrames, framesPerChunk;
      var start := FrameDataStart(maxFrames, framesPerChunk);
      frameDataStart := start;
      frameLengths := new nat[maxFrames];
      frameno, file, isOpen := 0, Seek(File(map[], 0), start), true;
      frames := [];
    }

    /** The vector for writev, without the packet type, and its length. */
    method JoinChunks(packet: seq<seq<Byte>>) returns (iov: seq<Byte>, l: nat)
      requires |packet| > 0
      ensures iov == Concat(packet[1..]) && l == |iov|
    {
      l := 0;
      iov := [];
      var i := 0;
      while i < |packet| - 1
        invariant 0 <= i < |packet|
        invariant iov == Concat(packet[1..i + 1]) && l == |iov|
      {
        ConcatAppend(packet[1..i + 1], [packet[i + 1]]);
        ConcatOne(packet[i + 1]);
        assert packet[1..i + 2] == packet[1..i + 1] + [packet[i + 1]];
        iov := iov + packet[i + 1];
        l := l + |packet[i + 1]|;
        i := i + 1;
      }
      assert packet[1..i + 1] == packet[1..];
    }

    /** sendImageFrame's guard and camogm_frame_mov: all chunks but the first go out in one writev, which returns
        `taken`: -1 or a number of bytes, on a file that a short write has closed always -1. */
    method SendFrame(packet: seq<seq<Byte>>, taken: int) returns (r: Status)
      requires Valid() && |packet| > 0 && -1 <= taken <= |Concat(packet[1..])| && (!isOpen ==> taken == -1)
      modifies this, frameLengths
      ensures Valid()
      ensures r == FrameChanged <==> old(frameno) >= maxFrames
      ensures r == FrameFileErr <==> old(frameno) < maxFrames && taken < |Concat(packet[1..])|
      ensures r == Done ==> isOpen && frames == old(frames) + [Concat(packet[1..])]
                            && file == Write(old(file), Concat(packet[1..]))
      ensures r == FrameChanged ==> isOpen == old(isOpen) && frames == old(frames) && file == old(file)
      ensures r == FrameFileErr ==> !isOpen && frames == old(frames)
      ensures r == FrameFileErr ==> file == if taken > 0 then Write(old(file), Concat(packet[1..])[..taken]) else old(file)
    {
      if frameno >= maxFrames {
        return FrameChanged;
      }
      var iov, l := JoinChunks(packet);
      hide Concat, Recorded, Overlay;
      ghost var was := file;
      if taken > 0 {
        file := Write(file, iov[..taken]);
      }
      if taken < l {
        isOpen := false;
        return FrameFileErr;
      }
      assert iov[..taken] == iov;
      NothingWritten(was);
      RecordedNext(was, frameDataStart, frames, iov);
      frameLengths[frameno] := l;
      frameno := frameno + 1;
      frames := frames + [iov];
      return Done;
    }

    /** The values camogm_end_mov hands to the compiler. */
    function EnvOf(width: int, height: int, sampleDur: int, timescale: int, now: int): Env
      reads this, frameLengths
    {
      Env(width, height, frameno, sampleDur, framesPerChunk, timescale, frameLengths[..], frameDataStart, now)
    }

    /** camogm_end_mov: whatever the template, the header is compiled into the file; with a fitting template every
        frame stays where the header's tables say it is. On a file that a short write has closed all writes of the
        compiler fail. */
    method EndMov(template: string, width: int, height: int, sampleDur: int, timescale: int, now: int)
      requires Valid()
      modifies this
      ensures Valid() && !isOpen && frames == old(frames) && (!old(isOpen) ==> file == old(file))
      ensures old(isOpen) ==> file == Compile(EnvOf(width, height, sampleDur, timescale, now), template, old(file))
      ensures var e := EnvOf(width, height, sampleDur, timescale, now);
        old(isOpen) ==> forall h, i :: Fits(e, template, h) && 0 <= i < frameno ==> HasAt(file.cells, Indexed(e, i), frames[i])
    {
      if !isOpen {
        return;
      }
      var e := EnvOf(width, height, sampleDur, timescale, now);
      var compiler := new Compiler(template, e, file);
      compiler.CompileTemplate();
      ghost var was := file;
      file := compiler.Out();
      isOpen := false;
      forall h, i | Fits(e, template, h) && 0 <= i < frameno
        ensures HasAt(file.cells, Indexed(e, i), frames[i])
      {
        FramesAreIndexed(e, h, was, frames, i);
      }
    }
  }
}
