/** A header template that ends in the data atom: `!data_size` and the atom's name. */
module MovLayout {
  import opened Bytes
  import opened BigEndian
  import opened SparseFile
  import opened Template
  import opened TemplateGrammar
  import opened MovHeader

  datatype Header = Header(body: Text, delim: char, tail: Text, last: char)

  predicate HeaderOk(h: Header) {
    && WellFormed(h.body, '!') && AllPlain(h.body) && IsBlank(h.delim)
    && WellFormed(h.tail, h.last) && AllPlain(h.tail)
  }

  function HeaderText(h: Header): string {
    Render(h.body) + (['!'] + "data_size" + [h.delim] + Render(h.tail)) + [h.last]
  }

  /** Where the body ends, in a file written from its start. */
  function BodyLen(e: Env, h: Header): nat
    requires EnvOk(e)
  {
    |Emit(e, h.body)|
  }

  /** What lies between the header and the data atom. */
  function Gap(e: Env, h: Header): int
    requires EnvOk(e)
  {
    e.headerSize - BodyLen(e, h) - 8
  }

  /** The body, the gap, the length of the data and the rest. */
  function HeaderOut(e: Env, h: Header, f: File): File
    requires EnvOk(e)
  {
    Write(DataSize(e, Write(f, Emit(e, h.body))).1, Emit(e, h.tail))
  }

  lemma HeaderTextStands(h: Header)
    ensures var t := HeaderText(h); var m := |Render(h.body)|;
      && |t| == m + 12 + |Render(h.tail)|
      && Stands(t, 0, Render(h.body)) && t[m] == '!' && Stands(t, m + 1, "data_size")
      && t[m + 10] == h.delim && Stands(t, m + 11, Render(h.tail)) && t[|t| - 1] == h.last
  {
  }

  /** One pass puts out the body, then the gap and the data length, then the rest, if the gap is not 1 to 7 bytes. */
  lemma HeaderPass(e: Env, h: Header, f: File)
    requires EnvOk(e) && HeaderOk(h) && DataSize(e, Write(f, Emit(e, h.body))).0
    ensures Pass(e, HeaderText(h), 0, f) == HeaderOut(e, h, f)
  {
    hide Item, Parse, Loop, Pass, Render, WellFormed, AllPlain, Emit, DataSize, Write, ReadWord;
    var t := HeaderText(h);
    var m := |Render(h.body)|;
    HeaderTextStands(h);
    var g := Write(f, Emit(e, h.body));
    Compiles(e, t, 0, h.body, f);
    DataWord(e, t, m, g);
    var k := DataSize(e, g).1;
    Steps(e, t, m, Outcome(true, m + 11, k), g);
    Compiles(e, t, m + 11, h.tail, k);
    Ends(e, t, Write(k, Emit(e, h.tail)));
    OnePass(e, t, f, Outcome(true, |t|, Write(k, Emit(e, h.tail))));
  }

  lemma DataWord(e: Env, t: string, q: nat, f: File)
    requires EnvOk(e) && q + 10 < |t| && t[q] == '!' && Stands(t, q + 1, "data_size") && IsBlank(t[q + 10])
    requires DataSize(e, f).0
    ensures Item(e, t, t[q], q + 1, f) == Outcome(true, q + 11, DataSize(e, f).1)
  {
    hide Item, Parse, Loop, DataSize;
    CompilesWord(e, t, q, "data_size", f);
  }

  lemma Ends(e: Env, t: string, f: File)
    requires EnvOk(e) && t != ""
    ensures Loop(e, t, t[|t| - 1], |t|, f) == Outcome(true, |t|, f)
  {
  }

  /** The length of a text's output does not depend on where the data will start. */
  lemma LengthIgnoresHeaderSize(e: Env, e2: Env, x: Text, next: char)
    requires EnvOk(e) && WellFormed(x, next) && e2 == e.(headerSize := e2.headerSize)
    ensures |Emit(e2, x)| == |Emit(e, x)|
  {
  }

  // ---------- Without a given start: two passes ----------

  /** No gap: everything is put out in one piece. */
  lemma WithoutGap(e: Env, h: Header, f: File)
    requires EnvOk(e) && f.pos == 0 && Gap(e, h) <= 0
    ensures DataSize(e, Write(f, Emit(e, h.body))).0
    ensures HeaderOut(e, h, f) == Write(f, Emit(e, h.body) + (Encode(Sum(e.sizes, e.nframes), 4) + Emit(e, h.tail)))
    ensures HeaderOut(e, h, f).pos == BodyLen(e, h) + 4 + |Emit(e, h.tail)|
  {
    hide Encode, Emit;
    var g := Write(f, Emit(e, h.body));
    var l := Encode(Sum(e.sizes, e.nframes), 4);
    WriteTwice(g, l, Emit(e, h.tail));
    WriteTwice(f, Emit(e, h.body), l + Emit(e, h.tail));
  }

  /** Started without a header size, the first pass measures the header and the second puts it out again at the
      same length: the gap it sees is what the template has behind the data length beyond the four bytes of the
      atom's name, so with just the name there is no skip atom, and the chunk offsets it writes start at the
      true end of the header. */
  lemma TwoPassFixedPoint(e: Env, h: Header, f: File)
    requires EnvOk(e) && HeaderOk(h) && e.headerSize == 0
    ensures var t := HeaderText(h);
            var f1 := Pass(e, t, 0, Seek(f, 0));
            var e2 := e.(headerSize := f1.pos);
      && f1.pos == BodyLen(e, h) + 4 + |Emit(e, h.tail)|
      && Gap(e2, h) == |Emit(e, h.tail)| - 4
      && (|Emit(e, h.tail)| == 4 ==>
            && Compile(e, t, f) == Write(Seek(f, 0), Emit(e2, h.body) + (Encode(Sum(e.sizes, e.nframes), 4) + Emit(e2, h.tail)))
            && Compile(e, t, f).pos == f1.pos)
  {
    hide Pass, Emit, WellFormed, AllPlain, DataSize, HeaderOut, HeaderText, Encode, Write;
    var t := HeaderText(h);
    var start := Seek(f, 0);
    WithoutGap(e, h, start);
    HeaderPass(e, h, start);
    var f1 := Pass(e, t, 0, start);
    var e2 := e.(headerSize := f1.pos);
    LengthIgnoresHeaderSize(e, e2, h.body, '!');
    LengthIgnoresHeaderSize(e, e2, h.tail, h.last);
    if |Emit(e, h.tail)| == 4 {
      WithoutGap(e2, h, Seek(f1, 0));
      HeaderPass(e2, h, Seek(f1, 0));
      var out1 := Emit(e, h.body) + (Encode(Sum(e.sizes, e.nframes), 4) + Emit(e, h.tail));
      var out2 := Emit(e2, h.body) + (Encode(Sum(e2.sizes, e2.nframes), 4) + Emit(e2, h.tail));
      Rewrite(start, out1, out2);
    }
  }

  lemma Rewrite(f: File, a: seq<Byte>, b: seq<Byte>)
    requires |a| == |b| && f.pos == 0
    ensures Write(Seek(Write(f, a), 0), b) == Write(f, b)
  {
  }

  // ---------- With room reserved: the gap ----------

  const QUICKTIME_MIN_HEADER := 0x300

  /** Where camogm_start_mov puts the first frame. */
  function FrameDataStart(maxFrames: nat, perChunk: nat): nat
    requires perChunk > 0
  {
    QUICKTIME_MIN_HEADER + 16 + 4 * maxFrames + 4 * maxFrames / perChunk
  }

  /** The gap for a template with `fixed` bytes apart from the entries of its two tables. */
  function GapFor(fixed: nat, nframes: nat, maxFrames: nat, perChunk: nat): int
    requires perChunk > 0
  {
    FrameDataStart(maxFrames, perChunk) - (fixed + 4 * nframes + 4 * ChunksBegun(nframes, perChunk)) - 8
  }

  lemma GapIs(e: Env, h: Header, maxFrames: nat)
    requires EnvOk(e) && HeaderOk(h) && e.headerSize == FrameDataStart(maxFrames, e.samplesPerChunk)
    requires Count(h.body, "sample_sizes") == 1 && Count(h.body, "chunk_offsets") == 1
    ensures Gap(e, h) == GapFor(FixedLen(h.body) + 4, e.nframes, maxFrames, e.samplesPerChunk)
  {
    hide Emit, FixedLen, Count, WellFormed;
    EmitLength(e, h.body, '!');
  }

  lemma ChunksFit(n: nat, m: nat, c: nat)
    requires c > 0 && 1 <= n <= m
    ensures 4 * ChunksBegun(n, c) <= 4 * m / c + 4
  {
    var k := ChunksBegun(n, c);
    DivMul(n + c - 1, c);
    var q := 4 * m / c;
    DivMul(4 * m, c);
    if q + 4 < 4 * k {
      MulMonotone(q + 5, 4 * k, c);
      assert false;
    }
  }

  /** The reserved header is always large enough, whatever the number of frames, exactly when the fixed part of
      the template is at most 0x300 - 4 bytes. */
  lemma HeaderAlwaysFits(fixed: nat)
    ensures (forall n: nat, m: nat, c: nat :: 1 <= n <= m && c > 0 ==> GapFor(fixed, n, m, c) >= 8)
       <==> fixed <= QUICKTIME_MIN_HEADER - 4
  {
    if fixed <= QUICKTIME_MIN_HEADER - 4 {
      forall n: nat, m: nat, c: nat | 1 <= n <= m && c > 0 ensures GapFor(fixed, n, m, c) >= 8 {
        ChunksFit(n, m, c);
      }
    } else {
      assert ChunksBegun(1, 5) == 1;
      assert GapFor(fixed, 1, 1, 5) < 8;
    }
  }

  /** With a gap of at least 8 bytes a skip atom spans it exactly, the data atom's head ends where the frames
      begin, and no byte from there on is touched. */
  lemma HeaderMeetsData(e: Env, h: Header, f: File)
    requires EnvOk(e) && HeaderOk(h) && Gap(e, h) >= 8 && |Emit(e, h.tail)| == 4
    ensures var out := Compile(e, HeaderText(h), f);
            var skip := Emit(e, h.body) + (Encode(Gap(e, h), 4) + SKIP);
            var head := Encode(Sum(e.sizes, e.nframes), 4) + Emit(e, h.tail);
      && out == File(f.cells + Overlay(0, skip) + Overlay(e.headerSize - 8, head), e.headerSize)
      && BodyLen(e, h) + Gap(e, h) == e.headerSize - 8 && |skip| <= e.headerSize - 8 && |head| == 8
  {
    hide Pass, Emit, WellFormed, AllPlain, HeaderText, Encode, Overlay;
    var start := Seek(f, 0);
    var g := Write(start, Emit(e, h.body));
    var l := Encode(Sum(e.sizes, e.nframes), 4);
    SecondPassChangesNothing(e, HeaderText(h), f);
    HeaderPass(e, h, start);
    WriteTwice(start, Emit(e, h.body), Encode(Gap(e, h), 4) + SKIP);
    WriteTwice(Seek(Write(g, Encode(Gap(e, h), 4) + SKIP), e.headerSize - 8), l, Emit(e, h.tail));
  }
}
