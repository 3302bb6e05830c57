/** With the shipped template a player finds every frame that was recorded. */
module MovReader {
  import opened Bytes
  import opened BigEndian
  import opened SparseFile
  import opened Template
  import opened TemplateGrammar
  import opened TemplateAtoms
  import opened Boxes
  import opened MovLayout
  import opened MovFile
  import opened MovPlayer
  import opened Sketches
  import opened QtSource
  import opened QtTables
  import opened QtPaths

  lemma PathStep(b: Atoms, l: Label, kids: Atoms, rest: seq<string>)
    requires First(b, TagOf(l)) == Kids(kids)
    ensures Inside(b, [LineOf(l)] + rest) == Inside(kids, rest)
  {
    assert ([LineOf(l)] + rest)[1..] == rest;
  }

  lemma PathIs()
    ensures ["moov", "trak", "mdia", "minf", "stbl"]
         == [LineOf(MOOV)] + ([LineOf(TRAK)] + ([LineOf(MDIA)] + ([LineOf(MINF)] + ([LineOf(STBL)] + []))))
  {
  }

  lemma PathInSketch(e: Env, a: Leaves)
    requires EnvOk(e) && Heads(a)
    ensures OnlyAtoms(Movie(a)) && OnlyAtoms(StblOf(a).rest)
    ensures Inside(AtomsOf(e, Movie(a)), ["moov", "trak", "mdia", "minf", "stbl"])
         == Kids(AtomsOf(e, StblOf(a).rest))
  {
    MoovAtoms(e, a);
    TrakAtoms(e, a);
    MdiaAtoms(e, a);
    MinfAtoms(e, a);
    NoAtoms();
    PathIs();
    assert Named(MoovOf(a), MOOV);
    hide TagOf, LineOf, AtomsOf, OnlyAtoms, First, Named, StblOf, MinfOf, MdiaOf, TrakOf, MoovOf, Heads;
    SubFirst(e, MOOV, MoovOf(a), Sketch.Done, MOOV);
    assert Inside(AtomsOf(e, StblOf(a).rest), []) == Kids(AtomsOf(e, StblOf(a).rest));
    hide Inside;
    var p4 := [LineOf(STBL)] + [];
    var p3 := [LineOf(MINF)] + p4;
    var p2 := [LineOf(MDIA)] + p3;
    var p1 := [LineOf(TRAK)] + p2;
    PathStep(AtomsOf(e, MinfOf(a).rest), STBL, AtomsOf(e, StblOf(a).rest), []);
    PathStep(AtomsOf(e, MdiaOf(a).rest), MINF, AtomsOf(e, MinfOf(a).rest), p4);
    PathStep(AtomsOf(e, TrakOf(a).rest), MDIA, AtomsOf(e, MdiaOf(a).rest), p3);
    PathStep(AtomsOf(e, MoovOf(a).rest), TRAK, AtomsOf(e, TrakOf(a).rest), p2);
    PathStep(AtomsOf(e, Movie(a)), MOOV, AtomsOf(e, MoovOf(a).rest), p1);
  }

  /** In any layout of the shipped template, walking the atoms leads to the atoms of its sample tables. */
  lemma PathToTables(h: Header, a: Leaves, e: Env)
    requires EnvOk(e) && ShippedHeader(h, a)
    ensures AtomsOnly(h.body, Nested()) && OnlyAtoms(StblOf(a).rest)
    ensures Inside(Tree(e, h.body, Nested()), ["moov", "trak", "mdia", "minf", "stbl"])
         == Kids(AtomsOf(e, StblOf(a).rest))
  {
    ShippedHeads(a);
    PathInSketch(e, a);
    SameItems(h, a);
    hide Shipped, Heads, Inside, StblOf, MoovOf, TextOf, Nested, Tree, AtomsOnly, Bare, HeaderOk, QtHeader, Lays;
    TreeIgnoresLayout(e, h.body, Nested());
    TreeIgnoresLayout(e, QtHeader(a).body, Nested());
  }

  lemma TreeIsMovie(h: Header, a: Leaves, e: Env)
    requires EnvOk(e) && ShippedHeader(h, a)
    ensures AtomsOnly(h.body, Nested()) && OnlyAtoms(Movie(a)) && Tree(e, h.body, Nested()) == AtomsOf(e, Movie(a))
  {
    PathToTables(h, a, e);
    SameItems(h, a);
    hide Shipped, TextOf, Nested, Tree, AtomsOnly, Bare, HeaderOk, Lays, Movie, StblOf, Inside;
    TreeIgnoresLayout(e, h.body, Nested());
    TreeIgnoresLayout(e, TextOf(Movie(a)), Nested());
  }

  /** A walker finds the atoms of the sketch in the bytes of any layout. */
  lemma MovieWalks(h: Header, a: Leaves, e: Env)
    requires EnvOk(e) && ShippedHeader(h, a) && |Emit(e, h.body)| < 0x1_0000_0000
    ensures OnlyAtoms(Movie(a)) && Walk(Emit(e, h.body), Nested()) == Parsed(AtomsOf(e, Movie(a)))
  {
    TreeIsMovie(h, a, e);
    hide ShippedHeader, Movie, Nested, Walk, Emit, TextOf, Tree, AtomsOnly, OnlyAtoms, AtomsOf, Serialize;
    EmitIsSerialized(e, h.body, Nested());
    WalkSerialize(Tree(e, h.body, Nested()), Nested());
  }

  lemma StblTables(e: Env, a: Leaves)
    requires EnvOk(e) && Heads(a)
    ensures OnlyAtoms(StblOf(a).rest)
    ensures var b := AtomsOf(e, StblOf(a).rest);
      && First(b, Ascii("stsc")) == Bytes(Emit(e, TextOf(a.stsc.rest)))
      && First(b, Ascii("stsz")) == Bytes(Emit(e, TextOf(a.stsz.rest)))
      && First(b, Ascii("stco")) == Bytes(Emit(e, TextOf(a.stco.rest)))
  {
    LabelTags();
    StblHas(e, a, STSC);
    StblHas(e, a, STSZ);
    StblHas(e, a, STCO);
    assert TableOf(a, STSC) == a.stsc && TableOf(a, STSZ) == a.stsz && TableOf(a, STCO) == a.stco;
    hide StblOf, Heads, Ascii, TagOf, LineOf, First, Emit, TextOf, OnlyAtoms, AtomsOf, TableOf;
  }

  /** The bytes of the movie atom lead a player to the tables. */
  lemma TablesFound(h: Header, a: Leaves, e: Env)
    requires EnvOk(e) && ShippedHeader(h, a) && |Emit(e, h.body)| < 0x1_0000_0000
    ensures TablesIn(Emit(e, h.body))
         == Tables(Emit(e, TextOf(a.stsc.rest)), Emit(e, TextOf(a.stsz.rest)), Emit(e, TextOf(a.stco.rest)))
  {
    ShippedIsOk(h, a);
    ShippedHeads(a);
    PathInSketch(e, a);
    StblTables(e, a);
    hide ShippedHeader, Shipped, HeaderOk, Heads, Movie, StblOf, Ascii, First, Inside, Walk, Nested, Emit, TextOf;
    hide OnlyAtoms, AtomsOf;
    MovieWalks(h, a, e);
  }

  lemma LabelTags()
    ensures Ascii("stsc") == TagOf(STSC) && Ascii("stsz") == TagOf(STSZ) && Ascii("stco") == TagOf(STCO)
  {
  }

  lemma ShippedTables(a: Leaves)
    requires Shipped(a)
    ensures a.stco.rest == Numbers(2, [0], Numbers(6, [0], OffsetsTable(Sketch.Done)))
    ensures a.stsz.rest == Numbers(2, [0], Numbers(6, [0], Numbers(8, [0], Slot(NFRAMES, SizesTable(Sketch.Done)))))
    ensures a.stsc.rest
         == Numbers(2, [0], Numbers(6, [0], Numbers(8, [1, 1], Slot(SAMPLES_CHUNK, Numbers(8, [1], Sketch.Done)))))
  {
    hide MvhdRest, TkhdRest, StsdRest;
  }

  /** The counts and the lengths of the frames are 32-bit numbers; positions in the file need not be. */
  predicate Countable(e: Env)
    requires EnvOk(e)
  {
    && 0 < e.nframes < 0x1_0000_0000 && e.samplesPerChunk < 0x1_0000_0000 && e.headerSize < 0x1_0000_0000
    && forall i :: 0 <= i < e.nframes ==> e.sizes[i] < 0x1_0000_0000
  }

  /** What the player reads in the tables is what the compiler was given, of chunk offsets the low 32 bits. */
  lemma TablesAgree(e: Env, a: Leaves, t: Tables)
    requires EnvOk(e) && Countable(e) && Shipped(a)
    requires t == Tables(Emit(e, TextOf(a.stsc.rest)), Emit(e, TextOf(a.stsz.rest)), Emit(e, TextOf(a.stco.rest)))
    ensures Usable(t) && Samples(t) == e.nframes && PerChunk(t) == e.samplesPerChunk
    ensures Chunks(t) == ChunksBegun(e.nframes, e.samplesPerChunk)
    ensures forall i :: 0 <= i < e.nframes ==> SampleSize(t, i) == e.sizes[i]
    ensures forall k :: 0 <= k < Chunks(t) ==> ChunkStart(t, k) == ChunkOffset(e, k) % 0x1_0000_0000
  {
    hide Emit, TextOf, Number32, Sum, ChunkOffset;
    ShippedTables(a);
    hide Shipped;
    StscRead(e, a.stsc.rest, t.stsc);
    StszRead(e, a.stsz.rest, t.stsz);
    StcoRead(e, a.stco.rest, t.stco);
    forall k | 0 <= k < Chunks(t)
      ensures ChunkStart(t, k) == ChunkOffset(e, k) % 0x1_0000_0000
    {
      OffsetEntry(e, k);
    }
  }

  lemma OffsetEntry(e: Env, k: nat)
    requires EnvOk(e) && k < ChunksBegun(e.nframes, e.samplesPerChunk)
    ensures ChunkOffsets(e)[k] == ChunkOffset(e, k)
  {
  }

  lemma {:induction false} SizesAgree(e: Env, t: Tables, first: nat, last: nat)
    requires Usable(t) && Samples(t) == e.nframes && EnvOk(e) && first <= last <= e.nframes
    requires forall i :: 0 <= i < e.nframes ==> SampleSize(t, i) == e.sizes[i]
    ensures SizesFrom(t, first, last) == SumFrom(e.sizes, first, last)
    decreases last
  {
    hide Usable, SampleSize;
    if first < last {
      SizesAgree(e, t, first, last - 1);
    }
  }

  /** The chunk of frame i begins below 4 GiB. */
  predicate BelowLimit32(e: Env, i: nat)
    requires EnvOk(e) && i < e.nframes
  {
    ChunkOfFrame(i, e.nframes, e.samplesPerChunk);
    ChunkOffset(e, i / e.samplesPerChunk) < 0x1_0000_0000
  }

  /** The tables lead to frame i exactly when its chunk begins below 4 GiB. */
  lemma OffsetsAgree(e: Env, t: Tables, i: nat)
    requires Usable(t) && EnvOk(e) && Samples(t) == e.nframes && i < e.nframes
    requires PerChunk(t) == e.samplesPerChunk && Chunks(t) == ChunksBegun(e.nframes, e.samplesPerChunk)
    requires forall j :: 0 <= j < e.nframes ==> SampleSize(t, j) == e.sizes[j]
    requires forall k :: 0 <= k < Chunks(t) ==> ChunkStart(t, k) == ChunkOffset(e, k) % 0x1_0000_0000
    ensures SampleOffset(t, i) == Indexed(e, i) <==> BelowLimit32(e, i)
  {
    hide Usable, SampleSize, ChunkOffset, ChunkStart, SizesFrom, SumFrom, ChunksBegun, PerChunk, Chunks, Samples;
    var c := e.samplesPerChunk;
    ChunkOfFrame(i, e.nframes, c);
    SizesAgree(e, t, i / c * c, i);
    assert ChunkOf(t, i) == i / c;
  }

  /** The movie atom at the start of the file says how long it is. */
  lemma MoovLength(h: Header, a: Leaves, e: Env)
    requires EnvOk(e) && ShippedHeader(h, a) && |Emit(e, h.body)| < 0x1_0000_0000
    ensures |Emit(e, h.body)| >= 4 && Decode(Emit(e, h.body)[..4]) == |Emit(e, h.body)|
  {
    hide Shipped, HeaderOk, TextOf, MoovOf, Bare, Lays;
    SameItems(h, a);
    SameItemsSameBytes(e, h.body, QtHeader(a).body);
    var inner := Emit(e, TextOf(MoovOf(a)));
    HeaderTexts(a);
    assert Emit(e, Blank(' ', End)) == [];
    assert Emit(e, QtHeader(a).body) == Encode(4 + |inner|, 4) + inner + [];
    hide Encode, Decode, Emit, QtHeader;
    Limit4();
    DecodeEncode(4 + |inner|, 4);
    assert Emit(e, h.body)[..4] == Encode(4 + |inner|, 4);
  }

  lemma ShippedIsOk(h: Header, a: Leaves)
    requires ShippedHeader(h, a)
    ensures HeaderOk(h) && Shipped(a)
  {
  }

  lemma GapLength(e: Env, h: Header)
    requires EnvOk(e)
    ensures Gap(e, h) == e.headerSize - 8 - |Emit(e, h.body)|
  {
  }

  lemma SkipTag()
    ensures SKIP == Ascii("skip")
  {
  }

  /** Any layout of the shipped template, compiled into a file with frames: going by the lengths of the atoms the
      file is the movie atom, a skip atom over the room that was kept, and the data atom, whose content begins
      with the first frame. */
  lemma TopLevelAtoms(h: Header, a: Leaves, e: Env, maxFrames: nat, f: File, frames: seq<seq<Byte>>)
    requires EnvOk(e) && 1 <= e.nframes == |frames| <= maxFrames && ShippedHeader(h, a)
    requires e.headerSize == FrameDataStart(maxFrames, e.samplesPerChunk)
    requires Recorded(f, e.headerSize, frames) && SizesOf(e.sizes, frames)
    ensures var out := Compile(e, HeaderText(h), f).cells;
            var moov := Emit(e, h.body);
            var gap: int := e.headerSize - 8 - |moov|;
      && gap >= 8 && HasAt(out, 0, moov) && HasAt(out, |moov|, Encode(gap, 4) + Ascii("skip"))
      && HasAt(out, |moov| + gap, Encode(Sum(e.sizes, e.nframes), 4) + Ascii("mdat"))
      && HasAt(out, |moov| + gap + 8, frames[0])
  {
    hide ShippedHeader, Compile, Emit, HeaderText, Encode, HasAt, Ascii, Recorded, Sum, Indexed, Gap;
    QtHeaderAlwaysFits(h, a, e, maxFrames, f);
    MdatTail(h, a, e);
    SkipTag();
    ShippedIsOk(h, a);
    hide HeaderOk;
    HeaderHeld(e, h, f);
    assert Gap(e, h) == e.headerSize - 8 - |Emit(e, h.body)| by { GapLength(e, h); }
    IndexedIsWritten(e, frames, 0);
    FramesAreIndexed(e, h, f, frames, 0);
  }

  /** Any layout of the shipped template, compiled into a file with frames: a player that walks the atoms at the
      start of the file finds usable tables there with the length of every frame that was recorded; they lead to a frame if and
      only if its chunk begins below 4 GiB, where the 32 bits of an offset end. */
  lemma PlayerFindsFrames(h: Header, a: Leaves, e: Env, maxFrames: nat, f: File, frames: seq<seq<Byte>>, i: nat)
    requires EnvOk(e) && e.nframes == |frames| <= maxFrames && Countable(e) && i < |frames| && ShippedHeader(h, a)
    requires e.headerSize == FrameDataStart(maxFrames, e.samplesPerChunk)
    requires Recorded(f, e.headerSize, frames) && SizesOf(e.sizes, frames)
    ensures var out := Compile(e, HeaderText(h), f).cells; var moov := Emit(e, h.body); var t := TablesIn(moov);
      && HasAt(out, 0, moov) && |moov| >= 4 && Decode(moov[..4]) == |moov|
      && Usable(t) && Samples(t) == |frames|
      && SampleSize(t, i) == |frames[i]|
      && (SampleOffset(t, i) == e.headerSize + Before(frames, i) <==> BelowLimit32(e, i))
      && (BelowLimit32(e, i) ==> HasAt(out, SampleOffset(t, i), frames[i]))
  {
    hide ShippedHeader, Compile, HeaderText, HasAt, Recorded, Emit, TablesIn, Usable, SampleSize, Sum, Indexed;
    QtHeaderAlwaysFits(h, a, e, maxFrames, f);
    ShippedIsOk(h, a);
    hide HeaderOk, Shipped;
    TopLevelAtoms(h, a, e, maxFrames, f, frames);
    TablesFound(h, a, e);
    var t := TablesIn(Emit(e, h.body));
    TablesAgree(e, a, t);
    OffsetsAgree(e, t, i);
    MoovLength(h, a, e);
    IndexedIsWritten(e, frames, i);
    FramesAreIndexed(e, h, f, frames, i);
  }

  /** A chunk can begin there: behind a frame of 4 GiB less one byte. */
  lemma ChunkBeyond32()
    ensures var e := Env(0, 0, 2, 0, 1, 0, [0xffff_ffff, 1], 1024, 0);
      EnvOk(e) && Countable(e) && BelowLimit32(e, 0) && !BelowLimit32(e, 1)
  {
    var e := Env(0, 0, 2, 0, 1, 0, [0xffff_ffff, 1], 1024, 0);
    assert Sum(e.sizes, 0) == 0 && Sum(e.sizes, 1) == 0xffff_ffff;
    assert ChunkOffset(e, 0) == 1024 && ChunkOffset(e, 1) == 1024 + 0xffff_ffff;
  }
}
