/**
  The numbers the recorder puts into the header of a movie, as a player reads them from the bytes of the file:
  the movie, track and media headers, the time-to-sample table and the sample description, sections 8.2.2, 8.3.2,
  8.4.2, 8.6.1.2 and 8.5.2 of ISO/IEC 14496-12.
 */
module HeaderFields {
  import opened Bytes
  import opened BigEndian
  import opened SparseFile
  import opened Template
  import opened TemplateGrammar
  import opened Boxes
  import opened MovHeader
  import opened MovLayout
  import opened MovFile
  import opened MovPlayer
  import opened Sketches
  import opened QtSource
  import opened QtTables
  import opened QtPaths
  import opened MovReader
  import opened SketchOffsets

  // ---------- What a player reads ----------

  /** The contents of the atoms with the numbers. */
  datatype Fields =
    | Fields(mvhd: seq<Byte>, tkhd: seq<Byte>, mdhd: seq<Byte>, stts: seq<Byte>, stsd: seq<Byte>)
    | NoFields

  /** The content of the first atom with this name at the end of a path. */
  function Leaf(b: Atoms, path: seq<string>, name: string): Hit {
    var h := Inside(b, path);
    if h.Kids? then First(h.kids, Ascii(name)) else Missing
  }

  /** The contents in a file that begins with `s`. */
  function FieldsIn(s: seq<Byte>): Fields {
    var w := Walk(s, Nested());
    if w.Malformed? then NoFields
    else
      var m, t := Leaf(w.list, ["moov"], "mvhd"), Leaf(w.list, ["moov", "trak"], "tkhd");
      var d := Leaf(w.list, ["moov", "trak", "mdia"], "mdhd");
      var times := Leaf(w.list, ["moov", "trak", "mdia", "minf", "stbl"], "stts");
      var forms := Leaf(w.list, ["moov", "trak", "mdia", "minf", "stbl"], "stsd");
      if m.Bytes? && t.Bytes? && d.Bytes? && times.Bytes? && forms.Bytes?
      then Fields(m.bytes, t.bytes, d.bytes, times.bytes, forms.bytes)
      else NoFields
  }

  function Number16(s: seq<Byte>, at: nat): nat
    requires at + 2 <= |s|
  {
    Decode(s[at..at + 2])
  }

  predicate WholeFields(t: Fields) {
    t.Fields? && |t.mvhd| == 100 && |t.tkhd| == 84 && |t.mdhd| == 24 && |t.stts| == 16 && |t.stsd| == 94
  }

  /** Creation and modification time, the time scale, and the duration, of the movie and of its media. */
  predicate Timed(s: seq<Byte>, now: int, timescale: int, duration: int)
    requires |s| >= 20
  {
    && Number32(s, 4) == Number32(s, 8) == (now + 2082801600) % 0x1_0000_0000
    && Number32(s, 12) == timescale % 0x1_0000_0000 && Number32(s, 16) == duration % 0x1_0000_0000
  }

  /** The track: its times and duration, and its size, whole pixels in front of a fraction of zero. */
  predicate Tracked(s: seq<Byte>, now: int, duration: int, width: int, height: int)
    requires |s| == 84
  {
    && Number32(s, 4) == Number32(s, 8) == (now + 2082801600) % 0x1_0000_0000
    && Number32(s, 20) == duration % 0x1_0000_0000
    && Number16(s, 76) == width % 0x1_0000 && Number16(s, 78) == 0
    && Number16(s, 80) == height % 0x1_0000 && Number16(s, 82) == 0
  }

  /** One entry: so many frames, each this long. */
  predicate OneDelta(s: seq<Byte>, count: int, delta: int)
    requires |s| == 16
  {
    Number32(s, 4) == 1 && Number32(s, 8) == count % 0x1_0000_0000 && Number32(s, 12) == delta % 0x1_0000_0000
  }

  /** One JPEG format that fills the rest of the table, and the size of its pictures. */
  predicate Pictured(s: seq<Byte>, width: int, height: int)
    requires |s| == 94
  {
    && Number32(s, 4) == 1 && Number32(s, 8) == |s| - 8 && s[12..16] == Ascii("jpeg")
    && Number16(s, 40) == width % 0x1_0000 && Number16(s, 42) == height % 0x1_0000
  }

  /** What a header says about the recording. */
  predicate Says(t: Fields, width: int, height: int, nframes: int, sampleDur: int, timescale: int, now: int) {
    && WholeFields(t)
    && Timed(t.mvhd, now, timescale, nframes * sampleDur)
    && Tracked(t.tkhd, now, nframes * sampleDur, width, height)
    && Timed(t.mdhd, now, timescale, nframes * sampleDur)
    && OneDelta(t.stts, nframes, sampleDur)
    && Pictured(t.stsd, width, height)
  }

  // ---------- The contents, byte by byte ----------

  /** What the specials stand for. */
  lemma SpecialsAre(e: Env)
    ensures Template.Number(e, NameOf(TIME)).0 == e.now + 2082801600
    ensures Template.Number(e, NameOf(TIMESCALE)).0 == e.timescale
    ensures Template.Number(e, NameOf(DURATION)).0 == e.nframes * e.sampleDur
    ensures Template.Number(e, NameOf(WIDTH)).0 == e.width && Template.Number(e, NameOf(HEIGHT)).0 == e.height
    ensures Template.Number(e, NameOf(NFRAMES)).0 == e.nframes
    ensures Template.Number(e, NameOf(FRAME_DURATION)).0 == e.sampleDur
  {
  }

  /** The special for the start of the data says where the tables place the first frame, in 32 bits. */
  lemma DataStartRead(e: Env, delim: char)
    requires EnvOk(e) && e.nframes > 0
    ensures |Emit(e, Special("mdata", delim, End))| == 4
    ensures Decode(Emit(e, Special("mdata", delim, End))) == Indexed(e, 0) % 0x1_0000_0000
  {
    hide Encode, Decode;
    assert Emit(e, Special("mdata", delim, End)) == Encode(e.headerSize, 4);
    Limit4();
    DecodeTruncates(e.headerSize, 4);
    assert 0 / e.samplesPerChunk == 0;
  }

  lemma Limits()
    ensures Limit(2) == 0x1_0000 && Limit(4) == 0x1_0000_0000 && Pow16(4) == 0x1_0000 && Pow16(8) == 0x1_0000_0000
  {
  }

  lemma SketchLength(e: Env, s: Sketch, n: nat)
    requires EnvOk(e) && MeasureOf(s) == Measure(true, n, 0, 0)
    ensures |Out(e, s)| == n
  {
    hide MeasureOf, Emit, TextOf, FixedLen, Count, AllPlain, WellFormed;
    SketchExact(s, '}');
    EmitLength(e, TextOf(s), '}');
    MovHeader.NoTables(e);
  }

  /** The content of an atom is as long as the atom without its name. */
  lemma ContentLength(e: Env, s: Sketch, n: nat)
    requires EnvOk(e) && s.Name? && LengthOf(s.word) == 4 && MeasureOf(s) == Measure(true, n + 4, 0, 0)
    ensures MeasureOf(s.rest).ok && |Out(e, s.rest)| == n
  {
    hide Out, LengthOf;
    SketchLength(e, s.rest, n);
  }

  function TimedSketch(rest: Sketch): Sketch {
    Numbers(2, [0], Numbers(6, [0], Slot(TIME, Slot(TIME, Slot(TIMESCALE, Slot(DURATION, rest))))))
  }

  lemma TimedDrops(rest: Sketch)
    ensures var s := TimedSketch(rest);
      && Drop(s, 4).Slot? && Drop(s, 4).field == TIME && Drop(s, 8).Slot? && Drop(s, 8).field == TIME
      && Drop(s, 12).Slot? && Drop(s, 12).field == TIMESCALE && Drop(s, 16).Slot? && Drop(s, 16).field == DURATION
  {
    hide Drop;
    var s := TimedSketch(rest);
    var t := s.rest.rest;
    forall at: nat | at >= 4
      ensures Drop(s, at) == Drop(t, at - 4)
    {
      StepOver(s, at, 1);
      StepOver(s.rest, at - 1, 3);
    }
    StartsHere(t);
    StepOver(t, 4, 4);
    StartsHere(t.rest);
    StepOver(t, 8, 4);
    StepOver(t.rest, 4, 4);
    StartsHere(t.rest.rest);
    StepOver(t, 12, 4);
    StepOver(t.rest, 8, 4);
    StepOver(t.rest.rest, 4, 4);
    StartsHere(t.rest.rest.rest);
  }

  lemma TimedRead(e: Env, s: Sketch, rest: Sketch)
    requires EnvOk(e) && s == TimedSketch(rest) && MeasureOf(s).ok && |Out(e, s)| >= 20
    ensures Timed(Out(e, s), e.now, e.timescale, e.nframes * e.sampleDur)
  {
    SpecialsAre(e);
    Limits();
    TimedDrops(rest);
    hide Out, NameOf, MeasureOf, Template.Number, Decode, Limit, Drop, TimedSketch;
    SlotAt(e, s, 4, TIME);
    SlotAt(e, s, 8, TIME);
    SlotAt(e, s, 12, TIMESCALE);
    SlotAt(e, s, 16, DURATION);
  }

  /** Behind the duration of the track. */
  lemma TkhdFront(at: nat)
    requires at >= 24
    ensures Drop(Tkhd().rest, at) == Drop(TkhdRest(), at - 24)
  {
    hide Drop, TkhdRest;
    var s := Tkhd().rest;
    StepOver(s, at, 1);
    StepOver(s.rest, at - 1, 3);
    StepOver(s.rest.rest, at - 4, 4);
    StepOver(s.rest.rest.rest, at - 8, 4);
    StepOver(s.rest.rest.rest.rest, at - 12, 8);
    StepOver(s.rest.rest.rest.rest.rest, at - 20, 4);
  }

  lemma TkhdTimes()
    ensures var s := Tkhd().rest;
      && Drop(s, 4).Slot? && Drop(s, 4).field == TIME && Drop(s, 8).Slot? && Drop(s, 8).field == TIME
      && Drop(s, 20).Slot? && Drop(s, 20).field == DURATION
  {
    hide Drop, TkhdRest;
    var s := Tkhd().rest;
    var t := s.rest.rest;
    forall at: nat | at >= 4
      ensures Drop(s, at) == Drop(t, at - 4)
    {
      StepOver(s, at, 1);
      StepOver(s.rest, at - 1, 3);
    }
    StartsHere(t);
    StepOver(t, 4, 4);
    StartsHere(t.rest);
    StepOver(t, 16, 4);
    StepOver(t.rest, 12, 4);
    StepOver(t.rest.rest, 8, 8);
    StartsHere(t.rest.rest.rest);
  }

  /** The size of the track behind its matrix. */
  lemma TkhdSize(at: nat)
    requires at >= 52
    ensures Drop(TkhdRest(), at)
         == Drop(Slot(WIDTH, Numbers(4, [0], Slot(HEIGHT, Numbers(4, [0], Sketch.Done)))), at - 52)
  {
    hide Drop;
    var s := TkhdRest();
    StepOver(s, at, 8);
    StepOver(s.rest, at - 8, 8);
    StepOver(s.rest.rest, at - 16, 36);
  }

  lemma TkhdDrops()
    ensures var s := Tkhd().rest;
      && Drop(s, 76).Slot? && Drop(s, 76).field == WIDTH && Drop(s, 80).Slot? && Drop(s, 80).field == HEIGHT
      && Drop(s, 78).Numbers? && Drop(s, 78).k == 4 && Drop(s, 78).values == [0]
      && Drop(s, 82) == Numbers(4, [0], Sketch.Done)
  {
    hide Drop, TkhdRest;
    var s := Slot(WIDTH, Numbers(4, [0], Slot(HEIGHT, Numbers(4, [0], Sketch.Done))));
    forall at: nat | at >= 76
      ensures Drop(Tkhd().rest, at) == Drop(s, at - 76)
    {
      TkhdFront(at);
      TkhdSize(at - 24);
    }
    StartsHere(s);
    StepOver(s, 2, 2);
    StartsHere(s.rest);
    StepOver(s, 4, 2);
    StepOver(s.rest, 2, 2);
    StartsHere(s.rest.rest);
    StepOver(s, 6, 2);
    StepOver(s.rest, 4, 2);
    StepOver(s.rest.rest, 2, 2);
    StartsHere(s.rest.rest.rest);
  }

  lemma TkhdRead(e: Env, s: Sketch)
    requires EnvOk(e) && s == Tkhd().rest && MeasureOf(s).ok && |Out(e, s)| == 84
    ensures Tracked(Out(e, s), e.now, e.nframes * e.sampleDur, e.width, e.height)
  {
    SpecialsAre(e);
    Limits();
    TkhdTimes();
    TkhdDrops();
    hide Out, NameOf, MeasureOf, Template.Number, Decode, Limit, Drop, Tkhd, TkhdRest, Pow16;
    SlotAt(e, s, 4, TIME);
    SlotAt(e, s, 8, TIME);
    SlotAt(e, s, 20, DURATION);
    SlotAt(e, s, 76, WIDTH);
    NumberAt(e, s, 78, 4, 0);
    SlotAt(e, s, 80, HEIGHT);
    NumberAt(e, s, 82, 4, 0);
  }

  lemma SttsDrops()
    ensures var s := Stts().rest;
      && Drop(s, 4) == Numbers(8, [1], s.rest.rest.rest)
      && Drop(s, 8).Slot? && Drop(s, 8).field == NFRAMES && Drop(s, 12).Slot? && Drop(s, 12).field == FRAME_DURATION
  {
    hide Drop;
    var s := Stts().rest;
    var t := s.rest.rest;
    forall at: nat | at >= 4
      ensures Drop(s, at) == Drop(t, at - 4)
    {
      StepOver(s, at, 1);
      StepOver(s.rest, at - 1, 3);
    }
    StartsHere(t);
    StepOver(t, 4, 4);
    StartsHere(t.rest);
    StepOver(t, 8, 4);
    StepOver(t.rest, 4, 4);
    StartsHere(t.rest.rest);
  }

  lemma SttsRead(e: Env, s: Sketch)
    requires EnvOk(e) && s == Stts().rest && MeasureOf(s).ok && |Out(e, s)| == 16
    ensures OneDelta(Out(e, s), e.nframes, e.sampleDur)
  {
    SpecialsAre(e);
    Limits();
    SttsDrops();
    hide Out, NameOf, MeasureOf, Template.Number, Decode, Limit, Pow16, Drop;
    NumberAt(e, s, 4, 8, 1);
    SlotAt(e, s, 8, NFRAMES);
    SlotAt(e, s, 12, FRAME_DURATION);
  }

  lemma StsdDrops()
    ensures var s := Stsd().rest;
      && Drop(s, 4).Numbers? && Drop(s, 4).k == 8 && Drop(s, 4).values == [1, 0x56]
      && Drop(s, 8).Numbers? && Drop(s, 8).k == 8 && Drop(s, 8).values == [0x56]
      && Drop(s, 12).Name? && Drop(s, 12).word == JPEG
  {
    hide StsdRest, Drop;
    var s := Stsd().rest;
    var t := s.rest.rest;
    forall at: nat | at >= 4
      ensures Drop(s, at) == Drop(t, at - 4)
    {
      StepOver(s, at, 1);
      StepOver(s.rest, at - 1, 3);
    }
    StartsHere(t);
    SecondNumber(1, 0x56, t.rest);
    StepOver(t, 8, 8);
    StartsHere(t.rest);
  }

  lemma SecondNumber(v: nat, w: nat, rest: Sketch)
    ensures Drop(Numbers(8, [v, w], rest), 4) == Numbers(8, [w], rest)
  {
    assert 2 * ((8 + 1) / 2) == 8 && 4 % 4 == 0 && 4 / 4 == 1;
    assert [v, w][1..] == [w];
  }

  /** The size of the pictures behind the spatial quality. */
  lemma StsdSize()
    ensures var s := Stsd().rest;
      && Drop(s, 40).Slot? && Drop(s, 40).field == WIDTH && Drop(s, 42).Slot? && Drop(s, 42).field == HEIGHT
  {
    hide Drop;
    var s := Stsd().rest;
    var t := s.rest.rest.rest.rest.rest;
    assert t.rest.rest.rest == StsdRest();
    forall at: nat | at >= 40
      ensures Drop(s, at) == Drop(StsdRest(), at - 40)
    {
      hide StsdRest;
      StepOver(s, at, 1);
      StepOver(s.rest, at - 1, 3);
      StepOver(s.rest.rest, at - 4, 8);
      StepOver(s.rest.rest.rest, at - 12, 4);
      StepOver(s.rest.rest.rest.rest, at - 16, 4);
      StepOver(t, at - 20, 8);
      StepOver(t.rest, at - 28, 4);
      StepOver(t.rest.rest, at - 32, 8);
    }
    StartsHere(StsdRest());
    StepOver(StsdRest(), 2, 2);
    StartsHere(StsdRest().rest);
  }

  lemma JpegTag()
    ensures LengthOf(JPEG) == 4 && LineOf(JPEG) == "jpeg"
  {
  }

  lemma StsdRead(e: Env, s: Sketch)
    requires EnvOk(e) && s == Stsd().rest && MeasureOf(s).ok && |Out(e, s)| == 94
    ensures Pictured(Out(e, s), e.width, e.height)
  {
    SpecialsAre(e);
    Limits();
    StsdDrops();
    StsdSize();
    JpegTag();
    hide Out, NameOf, MeasureOf, Template.Number, Decode, Limit, Drop, Stsd, StsdRest, Pow16, Ascii, LineOf, LengthOf;
    NumberAt(e, s, 4, 8, 1);
    NumberAt(e, s, 8, 8, 0x56);
    NameAt(e, s, 12, JPEG);
    SlotAt(e, s, 40, WIDTH);
    SlotAt(e, s, 42, HEIGHT);
  }

  // ---------- The way to the atoms ----------

  /** The outer atoms and what stands first in them. */
  lemma HeadersAhead(e: Env, a: Leaves)
    requires EnvOk(e) && Heads(a)
    ensures OnlyAtoms(MoovOf(a).rest) && OnlyAtoms(TrakOf(a).rest) && OnlyAtoms(MdiaOf(a).rest)
    ensures First(AtomsOf(e, MoovOf(a).rest), TagOf(MVHD)) == Bytes(Emit(e, TextOf(a.mvhd.rest)))
    ensures First(AtomsOf(e, TrakOf(a).rest), TagOf(TKHD)) == Bytes(Emit(e, TextOf(a.tkhd.rest)))
    ensures First(AtomsOf(e, MdiaOf(a).rest), TagOf(MDHD)) == Bytes(Emit(e, TextOf(a.mdhd.rest)))
  {
    hide Nested, TextOf, OnlyAtoms, AtomsOf, First, Emit, LineOf, TagOf;
    MinfAtoms(e, a);
    NoAtoms();
    SubFirst(e, MINF, MinfOf(a), Sketch.Done, MDHD);
    SubFirst(e, HDLR, a.mediaHdlr, Sub(MinfOf(a), Sketch.Done), MDHD);
    SubFirst(e, MDHD, a.mdhd, Sub(a.mediaHdlr, Sub(MinfOf(a), Sketch.Done)), MDHD);
    SubFirst(e, UDTA, a.trakUdta, Sketch.Done, TKHD);
    SubFirst(e, MDIA, MdiaOf(a), Sub(a.trakUdta, Sketch.Done), TKHD);
    SubFirst(e, TKHD, a.tkhd, Sub(MdiaOf(a), Sub(a.trakUdta, Sketch.Done)), TKHD);
    SubFirst(e, UDTA, MoovUdtaOf(a), Sketch.Done, MVHD);
    SubFirst(e, TRAK, TrakOf(a), Sub(MoovUdtaOf(a), Sketch.Done), MVHD);
    SubFirst(e, MVHD, a.mvhd, Sub(TrakOf(a), Sub(MoovUdtaOf(a), Sketch.Done)), MVHD);
  }

  lemma OuterPaths()
    ensures ["moov"] == [LineOf(MOOV)] + [] && ["moov", "trak"] == [LineOf(MOOV)] + ([LineOf(TRAK)] + [])
    ensures ["moov", "trak", "mdia"] == [LineOf(MOOV)] + ([LineOf(TRAK)] + ([LineOf(MDIA)] + []))
  {
  }

  lemma InsideHere(b: Atoms)
    ensures Inside(b, []) == Kids(b)
  {
  }

  /** The headers of the movie, its track and its media in the atoms of the template. */
  lemma HeadersInside(e: Env, a: Leaves)
    requires EnvOk(e) && Heads(a)
    ensures OnlyAtoms(Movie(a))
    ensures var b := AtomsOf(e, Movie(a));
      && Leaf(b, ["moov"], "mvhd") == Bytes(Emit(e, TextOf(a.mvhd.rest)))
      && Leaf(b, ["moov", "trak"], "tkhd") == Bytes(Emit(e, TextOf(a.tkhd.rest)))
      && Leaf(b, ["moov", "trak", "mdia"], "mdhd") == Bytes(Emit(e, TextOf(a.mdhd.rest)))
  {
    HeadersAhead(e, a);
    MoovAtoms(e, a);
    TrakAtoms(e, a);
    OuterPaths();
    HeaderTags();
    NoAtoms();
    assert Named(MoovOf(a), MOOV);
    hide TagOf, LineOf, AtomsOf, OnlyAtoms, First, Named, Inside, TextOf, Emit, MdiaOf, TrakOf, MoovOf, Heads, Ascii;
    SubFirst(e, MOOV, MoovOf(a), Sketch.Done, MOOV);
    var moov, trak, mdia := AtomsOf(e, MoovOf(a).rest), AtomsOf(e, TrakOf(a).rest), AtomsOf(e, MdiaOf(a).rest);
    InsideHere(moov);
    InsideHere(trak);
    InsideHere(mdia);
    PathStep(trak, MDIA, mdia, []);
    PathStep(moov, TRAK, trak, []);
    PathStep(moov, TRAK, trak, [LineOf(MDIA)] + []);
    PathStep(AtomsOf(e, Movie(a)), MOOV, moov, []);
    PathStep(AtomsOf(e, Movie(a)), MOOV, moov, [LineOf(TRAK)] + []);
    PathStep(AtomsOf(e, Movie(a)), MOOV, moov, [LineOf(TRAK)] + ([LineOf(MDIA)] + []));
  }

  lemma HeaderTags()
    ensures Ascii("mvhd") == TagOf(MVHD) && Ascii("tkhd") == TagOf(TKHD) && Ascii("mdhd") == TagOf(MDHD)
    ensures Ascii("stts") == TagOf(STTS) && Ascii("stsd") == TagOf(STSD)
  {
  }

  /** The time-to-sample table and the sample description in the atoms of the template. */
  lemma StblInside(e: Env, a: Leaves)
    requires EnvOk(e) && Heads(a)
    ensures OnlyAtoms(Movie(a))
    ensures var b, path := AtomsOf(e, Movie(a)), ["moov", "trak", "mdia", "minf", "stbl"];
      Leaf(b, path, "stts") == Bytes(Out(e, a.stts.rest)) && Leaf(b, path, "stsd") == Bytes(Out(e, a.stsd.rest))
  {
    PathInSketch(e, a);
    HeaderTags();
    StblHas(e, a, STTS);
    StblHas(e, a, STSD);
    assert TableOf(a, STTS) == a.stts && TableOf(a, STSD) == a.stsd;
    hide Movie, StblOf, Heads, Ascii, TagOf, LineOf, First, Inside, Emit, TextOf, OnlyAtoms, AtomsOf, TableOf;
  }

  /** The bytes of the movie atom lead a player to the contents. */
  lemma FieldsFound(h: Header, a: Leaves, e: Env)
    requires EnvOk(e) && ShippedHeader(h, a) && |Emit(e, h.body)| < 0x1_0000_0000
    ensures FieldsIn(Emit(e, h.body))
         == Fields(Out(e, a.mvhd.rest), Out(e, a.tkhd.rest), Out(e, a.mdhd.rest), Out(e, a.stts.rest), Out(e, a.stsd.rest))
  {
    ShippedIsOk(h, a);
    ShippedHeads(a);
    hide ShippedHeader, Shipped, HeaderOk, Heads, Movie, OnlyAtoms, AtomsOf, Leaf, Walk, Nested, Emit, TextOf;
    MovieWalks(h, a, e);
    HeadersInside(e, a);
    StblInside(e, a);
  }

  lemma ShippedFields(a: Leaves)
    requires Shipped(a)
    ensures a.mvhd.rest == TimedSketch(MvhdRest()) && a.mdhd.rest == TimedSketch(Numbers(4, [0, 0], Sketch.Done))
    ensures a.tkhd.rest == Tkhd().rest && a.stts.rest == Stts().rest && a.stsd.rest == Stsd().rest
  {
    hide MvhdRest, TkhdRest, StsdRest;
  }

  /** Any layout of the shipped template: what a player reads in the header is what the compiler was given. */
  lemma HeaderSays(h: Header, a: Leaves, e: Env)
    requires EnvOk(e) && ShippedHeader(h, a) && |Emit(e, h.body)| < 0x1_0000_0000
    ensures Says(FieldsIn(Emit(e, h.body)), e.width, e.height, e.nframes, e.sampleDur, e.timescale, e.now)
  {
    FieldsFound(h, a, e);
    ShippedIsOk(h, a);
    ShippedHeads(a);
    ShippedMeasured(a);
    ShippedFields(a);
    hide ShippedHeader, Shipped, FieldsIn, Emit, Out, MeasureOf, TimedSketch, Tkhd, Stts, Stsd, Timed, Tracked, OneDelta;
    hide Pictured;
    ContentLength(e, a.mvhd, 100);
    ContentLength(e, a.tkhd, 84);
    ContentLength(e, a.mdhd, 24);
    ContentLength(e, a.stts, 16);
    ContentLength(e, a.stsd, 94);
    TimedRead(e, a.mvhd.rest, MvhdRest());
    TimedRead(e, a.mdhd.rest, Numbers(4, [0, 0], Sketch.Done));
    TkhdRead(e, a.tkhd.rest);
    SttsRead(e, a.stts.rest);
    StsdRead(e, a.stsd.rest);
  }

  /** The file begins with a movie atom of the length it says, which says this about the recording. */
  ghost predicate HeaderReads(cells: map<nat, Byte>, width: int, height: int, nframes: int, sampleDur: int,
                              timescale: int, now: int) {
    exists moov :: HasAt(cells, 0, moov) && |moov| >= 4 && Decode(moov[..4]) == |moov|
                   && Says(FieldsIn(moov), width, height, nframes, sampleDur, timescale, now)
  }

  lemma ShippedReads(h: Header, a: Leaves, e: Env, maxFrames: nat, f: File)
    requires EnvOk(e) && 1 <= e.nframes <= maxFrames && ShippedHeader(h, a)
    requires e.headerSize == FrameDataStart(maxFrames, e.samplesPerChunk) < 0x1_0000_0000
    ensures HeaderReads(Compile(e, HeaderText(h), f).cells, e.width, e.height, e.nframes, e.sampleDur, e.timescale, e.now)
  {
    QtHeaderAlwaysFits(h, a, e, maxFrames, f);
    ShippedIsOk(h, a);
    GapLength(e, h);
    hide Compile, ShippedHeader, Shipped, HeaderOk, Says, FieldsIn, HasAt, HeaderText, Emit, Decode, Gap;
    HeaderHeld(e, h, f);
    MoovLength(h, a, e);
    HeaderSays(h, a, e);
  }

  lemma EnvIs(r: MovRecorder, width: int, height: int, sampleDur: int, timescale: int, now: int)
    requires r.Valid()
    ensures var e := r.EnvOf(width, height, sampleDur, timescale, now);
      && EnvOk(e) && e.nframes == |r.frames| <= r.maxFrames
      && e.headerSize == r.frameDataStart == FrameDataStart(r.maxFrames, e.samplesPerChunk)
      && e.width == width && e.height == height && e.sampleDur == sampleDur && e.timescale == timescale && e.now == now
  {
  }

  /** camogm_end_mov with the shipped template: a player reads in the file what its arguments were and how many
      frames were recorded. */
  method EndShippedMov(r: MovRecorder, h: Header, ghost a: Leaves, width: int, height: int, sampleDur: int,
                       timescale: int, now: int)
    requires r.Valid() && r.isOpen && r.frames != [] && r.frameDataStart < 0x1_0000_0000 && ShippedHeader(h, a)
    modifies r
    ensures r.Valid() && !r.isOpen && r.frames == old(r.frames)
    ensures HeaderReads(r.file.cells, width, height, |r.frames|, sampleDur, timescale, now)
  {
    ghost var e := r.EnvOf(width, height, sampleDur, timescale, now);
    EnvIs(r, width, height, sampleDur, timescale, now);
    hide Compile, ShippedHeader, HeaderReads, HeaderText, MovRecorder.Valid, FrameDataStart, Fits, HasAt, Indexed, EnvOk;
    ShippedReads(h, a, e, r.maxFrames, r.file);
    r.EndMov(HeaderText(h), width, height, sampleDur, timescale, now);
  }
}
