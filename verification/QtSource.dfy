/**
  The template the camera ships, item by item, and every text with these items whatever its blanks, comments and
  line ends are.
 */
module QtSource {
  import opened SparseFile
  import opened Template
  import opened TemplateGrammar
  import opened Sketches
  import opened MovHeader
  import opened MovLayout

  // ---------- The atoms of src/qt_source that hold no other atom ----------

  function Mvhd(): Sketch {
    Name(MVHD, Numbers(2, [0], Numbers(6, [0], Slot(TIME, Slot(TIME, Slot(TIMESCALE, Slot(DURATION,
      MvhdRest())))))))
  }

  function MvhdRest(): Sketch {
    Numbers(8, [0x00010000], Numbers(4, [0x00ff], Numbers(8, [0, 0], Numbers(4, [0],
      Numbers(8, [0x00010000, 0, 0, 0, 0x00010000, 0, 0, 0, 0x40000000, 0, 0, 0, 0, 0, 0, 2], Done)))))
  }

  function Tkhd(): Sketch {
    Name(TKHD, Numbers(2, [0], Numbers(6, [0x00000f], Slot(TIME, Slot(TIME, Numbers(8, [1, 0], Slot(DURATION,
      TkhdRest())))))))
  }

  function TkhdRest(): Sketch {
    Numbers(8, [0, 0], Numbers(4, [0, 0, 0, 0],
      Numbers(8, [0x00010000, 0, 0, 0, 0x00010000, 0, 0, 0, 0x40000000],
      Slot(WIDTH, Numbers(4, [0], Slot(HEIGHT, Numbers(4, [0], Done)))))))
  }

  function Mdhd(): Sketch {
    Name(MDHD, Numbers(2, [0], Numbers(6, [0], Slot(TIME, Slot(TIME, Slot(TIMESCALE, Slot(DURATION,
      Numbers(4, [0, 0], Done))))))))
  }

  function MediaHdlr(): Sketch {
    Name(HDLR, Numbers(2, [0], Numbers(6, [0], Name(MHLR, Name(VIDE, Name(APPL,
      Numbers(8, [0, 0x0001001f], Numbers(2, [0x19], Name(VIDEO_HANDLER, Done)))))))))
  }

  function Vmhd(): Sketch {
    Name(VMHD, Numbers(2, [0], Numbers(6, [1], Numbers(4, [0x0040, 0x8000, 0x8000, 0x8000], Done))))
  }

  function DataHdlr(): Sketch {
    Name(HDLR, Numbers(2, [0], Numbers(6, [0], Name(DHLR, Name(ALIS, Name(APPL,
      Numbers(8, [1, 0x00010026], Numbers(2, [0x18], Name(ALIAS_HANDLER, Done)))))))))
  }

  function Dref(): Sketch {
    Name(DREF, Numbers(2, [0], Numbers(6, [0], Numbers(8, [1, 0x0000000c, 0x616c6973, 1], Done))))
  }

  function Stsd(): Sketch {
    Name(STSD, Numbers(2, [0], Numbers(6, [0], Numbers(8, [1, 0x56], Name(JPEG, Numbers(8, [0],
      Numbers(4, [0, 1, 0, 0], Name(APPL, Numbers(8, [0, 0x0200], StsdRest())))))))))
  }

  function StsdRest(): Sketch {
    Slot(WIDTH, Slot(HEIGHT, Numbers(8, [0x00480000, 0x00480000, 0], Numbers(4, [1], Numbers(2, [0x0c],
      Name(PHOTO_JPEG, Numbers(8, [0, 0, 0, 0], Numbers(6, [0], Numbers(4, [0x0018, 0xffff], Done)))))))))
  }

  function Stts(): Sketch {
    Name(STTS, Numbers(2, [0], Numbers(6, [0], Numbers(8, [1], Slot(NFRAMES, Slot(FRAME_DURATION, Done))))))
  }

  function Stsc(): Sketch {
    Name(STSC, Numbers(2, [0], Numbers(6, [0], Numbers(8, [1, 1], Slot(SAMPLES_CHUNK, Numbers(8, [1], Done))))))
  }

  function Stsz(): Sketch {
    Name(STSZ, Numbers(2, [0], Numbers(6, [0], Numbers(8, [0], Slot(NFRAMES, SizesTable(Done))))))
  }

  function Stco(): Sketch {
    Name(STCO, Numbers(2, [0], Numbers(6, [0], OffsetsTable(Done))))
  }

  function TrakUdta(): Sketch {
    Name(UDTA, Numbers(8, [0], Done))
  }

  function Wloc(): Sketch {
    Name(WLOC, Numbers(4, [0x0017, 0x0020], Done))
  }

  /** The atoms of the shipped template that hold no other atom. */
  datatype Leaves = Leaves(mvhd: Sketch, tkhd: Sketch, mdhd: Sketch, mediaHdlr: Sketch, vmhd: Sketch, dataHdlr: Sketch,
                           dref: Sketch, stsd: Sketch, stts: Sketch, stsc: Sketch, stsz: Sketch, stco: Sketch,
                           trakUdta: Sketch, wloc: Sketch)

  predicate Shipped(a: Leaves) {
    && a.mvhd == Mvhd() && a.tkhd == Tkhd() && a.mdhd == Mdhd() && a.mediaHdlr == MediaHdlr() && a.vmhd == Vmhd()
    && a.dataHdlr == DataHdlr() && a.dref == Dref() && a.stsd == Stsd() && a.stts == Stts() && a.stsc == Stsc()
    && a.stsz == Stsz() && a.stco == Stco() && a.trakUdta == TrakUdta() && a.wloc == Wloc()
  }

  /** The bytes of the leaves, and where the two tables are. */
  predicate Measured(a: Leaves) {
    && MeasureOf(a.mvhd) == Measure(true, 104, 0, 0) && MeasureOf(a.tkhd) == Measure(true, 88, 0, 0)
    && MeasureOf(a.mdhd) == Measure(true, 28, 0, 0) && MeasureOf(a.mediaHdlr) == Measure(true, 54, 0, 0)
    && MeasureOf(a.vmhd) == Measure(true, 16, 0, 0) && MeasureOf(a.dataHdlr) == Measure(true, 53, 0, 0)
    && MeasureOf(a.dref) == Measure(true, 24, 0, 0) && MeasureOf(a.stsd) == Measure(true, 98, 0, 0)
    && MeasureOf(a.stts) == Measure(true, 20, 0, 0) && MeasureOf(a.stsc) == Measure(true, 24, 0, 0)
    && MeasureOf(a.stsz) == Measure(true, 16, 1, 0) && MeasureOf(a.stco) == Measure(true, 8, 0, 1)
    && MeasureOf(a.trakUdta) == Measure(true, 8, 0, 0) && MeasureOf(a.wloc) == Measure(true, 8, 0, 0)
  }

  lemma MvhdRestMeasured()
    ensures MeasureOf(MvhdRest()) == Measure(true, 80, 0, 0)
  {
  }

  lemma MvhdMeasured()
    ensures MeasureOf(Mvhd()) == Measure(true, 104, 0, 0)
  {
    hide MvhdRest;
    MvhdRestMeasured();
  }

  lemma TkhdRestMeasured()
    ensures MeasureOf(TkhdRest()) == Measure(true, 60, 0, 0)
  {
  }

  lemma TkhdMeasured()
    ensures MeasureOf(Tkhd()) == Measure(true, 88, 0, 0)
  {
    hide TkhdRest;
    TkhdRestMeasured();
  }

  lemma MdhdMeasured()
    ensures MeasureOf(Mdhd()) == Measure(true, 28, 0, 0)
  {
  }

  lemma MediaHdlrMeasured()
    ensures MeasureOf(MediaHdlr()) == Measure(true, 54, 0, 0)
  {
  }

  lemma VmhdMeasured()
    ensures MeasureOf(Vmhd()) == Measure(true, 16, 0, 0)
  {
  }

  lemma DataHdlrMeasured()
    ensures MeasureOf(DataHdlr()) == Measure(true, 53, 0, 0)
  {
  }

  lemma DrefMeasured()
    ensures MeasureOf(Dref()) == Measure(true, 24, 0, 0)
  {
  }

  lemma StsdRestMeasured()
    ensures MeasureOf(StsdRest()) == Measure(true, 54, 0, 0)
  {
  }

  lemma StsdMeasured()
    ensures MeasureOf(Stsd()) == Measure(true, 98, 0, 0)
  {
    hide StsdRest;
    StsdRestMeasured();
  }

  lemma SttsMeasured()
    ensures MeasureOf(Stts()) == Measure(true, 20, 0, 0)
  {
  }

  lemma StscMeasured()
    ensures MeasureOf(Stsc()) == Measure(true, 24, 0, 0)
  {
  }

  lemma StszMeasured()
    ensures MeasureOf(Stsz()) == Measure(true, 16, 1, 0)
  {
  }

  lemma StcoMeasured()
    ensures MeasureOf(Stco()) == Measure(true, 8, 0, 1)
  {
  }

  lemma TrakUdtaMeasured()
    ensures MeasureOf(TrakUdta()) == Measure(true, 8, 0, 0)
  {
  }

  lemma WlocMeasured()
    ensures MeasureOf(Wloc()) == Measure(true, 8, 0, 0)
  {
  }

  lemma ShippedMeasured(a: Leaves)
    requires Shipped(a)
    ensures Measured(a)
  {
    hide MeasureOf, Mvhd, Tkhd, Mdhd, MediaHdlr, Vmhd, DataHdlr, Dref, Stsd, Stts, Stsc, Stsz, Stco, TrakUdta, Wloc;
    MvhdMeasured();
    TkhdMeasured();
    MdhdMeasured();
    MediaHdlrMeasured();
    VmhdMeasured();
    DataHdlrMeasured();
    DrefMeasured();
    StsdMeasured();
    SttsMeasured();
    StscMeasured();
    StszMeasured();
    StcoMeasured();
    TrakUdtaMeasured();
    WlocMeasured();
  }

  // ---------- How the leaves are nested ----------

  lemma SubMeasure(body: Sketch, rest: Sketch)
    ensures var b, m := MeasureOf(body), MeasureOf(rest);
      MeasureOf(Sub(body, rest)) == Measure(b.ok && m.ok, 4 + b.n + m.n, b.sizes + m.sizes, b.offsets + m.offsets)
  {
  }

  function StblOf(a: Leaves): Sketch {
    Name(STBL, Sub(a.stsd, Sub(a.stts, Sub(a.stsc, Sub(a.stsz, Sub(a.stco, Done))))))
  }

  function DinfOf(a: Leaves): Sketch {
    Name(DINF, Sub(a.dref, Done))
  }

  function MinfOf(a: Leaves): Sketch {
    Name(MINF, Sub(a.vmhd, Sub(a.dataHdlr, Sub(DinfOf(a), Sub(StblOf(a), Done)))))
  }

  function MdiaOf(a: Leaves): Sketch {
    Name(MDIA, Sub(a.mdhd, Sub(a.mediaHdlr, Sub(MinfOf(a), Done))))
  }

  function TrakOf(a: Leaves): Sketch {
    Name(TRAK, Sub(a.tkhd, Sub(MdiaOf(a), Sub(a.trakUdta, Done))))
  }

  function MoovUdtaOf(a: Leaves): Sketch {
    Name(UDTA, Sub(a.wloc, Numbers(8, [0], Done)))
  }

  function MoovOf(a: Leaves): Sketch {
    Name(MOOV, Sub(a.mvhd, Sub(TrakOf(a), Sub(MoovUdtaOf(a), Done))))
  }

  lemma StblMeasured(a: Leaves)
    requires Measured(a)
    ensures MeasureOf(StblOf(a)) == Measure(true, 190, 1, 1)
  {
    SubMeasure(a.stco, Done);
    SubMeasure(a.stsz, Sub(a.stco, Done));
    SubMeasure(a.stsc, Sub(a.stsz, Sub(a.stco, Done)));
    SubMeasure(a.stts, Sub(a.stsc, Sub(a.stsz, Sub(a.stco, Done))));
    SubMeasure(a.stsd, Sub(a.stts, Sub(a.stsc, Sub(a.stsz, Sub(a.stco, Done)))));
  }

  lemma DinfMeasured(a: Leaves)
    requires Measured(a)
    ensures MeasureOf(DinfOf(a)) == Measure(true, 32, 0, 0)
  {
    SubMeasure(a.dref, Done);
  }

  lemma MinfMeasured(a: Leaves)
    requires Measured(a)
    ensures MeasureOf(MinfOf(a)) == Measure(true, 311, 1, 1)
  {
    DinfMeasured(a);
    StblMeasured(a);
    hide DinfOf, StblOf;
    SubMeasure(StblOf(a), Done);
    SubMeasure(DinfOf(a), Sub(StblOf(a), Done));
    SubMeasure(a.dataHdlr, Sub(DinfOf(a), Sub(StblOf(a), Done)));
    SubMeasure(a.vmhd, Sub(a.dataHdlr, Sub(DinfOf(a), Sub(StblOf(a), Done))));
  }

  lemma MdiaMeasured(a: Leaves)
    requires Measured(a)
    ensures MeasureOf(MdiaOf(a)) == Measure(true, 409, 1, 1)
  {
    MinfMeasured(a);
    hide MinfOf;
    SubMeasure(MinfOf(a), Done);
    SubMeasure(a.mediaHdlr, Sub(MinfOf(a), Done));
    SubMeasure(a.mdhd, Sub(a.mediaHdlr, Sub(MinfOf(a), Done)));
  }

  lemma TrakMeasured(a: Leaves)
    requires Measured(a)
    ensures MeasureOf(TrakOf(a)) == Measure(true, 521, 1, 1)
  {
    MdiaMeasured(a);
    hide MdiaOf;
    SubMeasure(a.trakUdta, Done);
    SubMeasure(MdiaOf(a), Sub(a.trakUdta, Done));
    SubMeasure(a.tkhd, Sub(MdiaOf(a), Sub(a.trakUdta, Done)));
  }

  lemma MoovUdtaMeasured(a: Leaves)
    requires Measured(a)
    ensures MeasureOf(MoovUdtaOf(a)) == Measure(true, 20, 0, 0)
  {
    SubMeasure(a.wloc, Numbers(8, [0], Done));
  }

  lemma MoovMeasured(a: Leaves)
    requires Measured(a)
    ensures MeasureOf(MoovOf(a)) == Measure(true, 661, 1, 1)
  {
    TrakMeasured(a);
    MoovUdtaMeasured(a);
    hide TrakOf, MoovUdtaOf;
    SubMeasure(MoovUdtaOf(a), Done);
    SubMeasure(TrakOf(a), Sub(MoovUdtaOf(a), Done));
    SubMeasure(a.mvhd, Sub(TrakOf(a), Sub(MoovUdtaOf(a), Done)));
  }

  // ---------- The file ----------

  function Movie(a: Leaves): Sketch {
    Sub(MoovOf(a), Done)
  }

  function DataName(): Sketch {
    Name(MDAT, Done)
  }

  /** The movie atom, the data length and the name of the data atom, with one blank behind each item. */
  function QtHeader(a: Leaves): Header {
    Header(TextOf(Movie(a)), ' ', TextOf(DataName()), '\n')
  }

  /** A header text with the items of the shipped template, whatever its blanks, comments and line ends are. */
  predicate ShippedHeader(h: Header, a: Leaves) {
    Shipped(a) && HeaderOk(h) && Lays(h.body, Movie(a)) && Lays(h.tail, DataName())
  }

  lemma SameItems(h: Header, a: Leaves)
    requires ShippedHeader(h, a)
    ensures Bare(h.body) == Bare(QtHeader(a).body) && Bare(h.tail) == Bare(QtHeader(a).tail)
  {
    hide Lays, TextOf, Bare, Movie, DataName;
    LaysExactly(h.body, Movie(a));
    LaysExactly(h.tail, DataName());
  }

  lemma QtBodyExact(a: Leaves)
    requires Measured(a)
    ensures Exact(QtHeader(a).body, '!', 665, 1, 1)
  {
    hide Measured, TextOf, MoovOf, Exact;
    MoovMeasured(a);
    SubMeasure(MoovOf(a), Done);
    SketchExact(Movie(a), '!');
  }

  /** In any layout the shipped template has 665 fixed bytes before the data length and one table of each kind. */
  lemma QtHeaderExact(h: Header, a: Leaves)
    requires ShippedHeader(h, a)
    ensures FixedLen(h.body) == 665 && Count(h.body, "sample_sizes") == 1 && Count(h.body, "chunk_offsets") == 1
  {
    SameItems(h, a);
    hide Shipped, Measured, FixedLen, Count, Bare, HeaderOk, QtHeader, Lays;
    ShippedMeasured(a);
    QtBodyExact(a);
    SizesIgnoreLayout(h.body, "sample_sizes");
    SizesIgnoreLayout(h.body, "chunk_offsets");
    SizesIgnoreLayout(QtHeader(a).body, "sample_sizes");
    SizesIgnoreLayout(QtHeader(a).body, "chunk_offsets");
  }

  lemma HeaderTexts(a: Leaves)
    ensures QtHeader(a).body == Atom(TextOf(MoovOf(a)), Blank(' ', End))
    ensures QtHeader(a).tail == Quote("mdat", Blank('\n', End))
  {
    hide MoovOf;
  }

  lemma OneQuote(e: Env, line: string)
    requires EnvOk(e) && Literal(line) == line
    ensures Emit(e, Quote(line, Blank('\n', End))) == Ascii(line)
  {
    hide Ascii, Literal;
    assert Emit(e, Blank('\n', End)) == [];
    assert Ascii(line) + [] == Ascii(line);
  }

  lemma MdatEmits(e: Env)
    requires EnvOk(e)
    ensures Emit(e, Quote("mdat", Blank('\n', End))) == Ascii("mdat")
  {
    hide Ascii, Literal, Emit;
    assert LineOf(MDAT) == "mdat";
    LabelLiteral(MDAT);
    OneQuote(e, "mdat");
  }

  lemma MdatTail(h: Header, a: Leaves, e: Env)
    requires EnvOk(e) && ShippedHeader(h, a)
    ensures Emit(e, h.tail) == Ascii("mdat")
  {
    SameItems(h, a);
    HeaderTexts(a);
    hide Lays, Bare, Ascii, Shipped, TextOf, Emit, QtHeader, HeaderOk;
    SameItemsSameBytes(e, h.tail, QtHeader(a).tail);
    MdatEmits(e);
  }

  /** The shipped template has 669 fixed bytes, so its header always fits: whatever the number of frames, the
      compiled header is followed by a skip atom, the data atom's head and, exactly there, the first frame. */
  lemma QtHeaderAlwaysFits(h: Header, a: Leaves, e: Env, maxFrames: nat, f: File)
    requires EnvOk(e) && 1 <= e.nframes <= maxFrames && e.headerSize == FrameDataStart(maxFrames, e.samplesPerChunk)
    requires ShippedHeader(h, a)
    ensures Gap(e, h) >= 8 && |Emit(e, h.tail)| == 4
    ensures Compile(e, HeaderText(h), f).pos == e.headerSize
  {
    QtHeaderExact(h, a);
    MdatTail(h, a, e);
    hide Shipped, QtHeader, Compile, Emit, Count, FixedLen, HeaderOk, HeaderText, GapFor, Gap, Bare, Ascii;
    GapIs(e, h, maxFrames);
    HeaderAlwaysFits(669);
    assert GapFor(669, e.nframes, maxFrames, e.samplesPerChunk) >= 8;
    HeaderMeetsData(e, h, f);
  }
}
