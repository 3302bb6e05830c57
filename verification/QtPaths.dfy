/** The way from the start of the shipped template's header to its sample tables. */
module QtPaths {
  import opened Template
  import opened TemplateGrammar
  import opened TemplateAtoms
  import opened Boxes
  import opened MovPlayer
  import opened Sketches
  import opened QtSource

  /** The tag of an atom with this name. */
  function TagOf(l: Label): Tag {
    Ascii(LineOf(l))
  }

  lemma TagIs(l: Label)
    requires LengthOf(l) == 4
    ensures |LineOf(l)| == 4 && forall i :: 0 <= i < 4 ==> TagOf(l)[i] == LineOf(l)[i] as int
  {
  }

  /** Different names have different tags. */
  lemma TagsDiffer(l: Label, m: Label)
    requires LengthOf(l) == 4 && LengthOf(m) == 4
    ensures TagOf(l) == TagOf(m) ==> l == m
  {
    TagIs(l);
    TagIs(m);
    hide Ascii, TagOf;
    var s, t := LineOf(l), LineOf(m);
    assert TagOf(l) == TagOf(m) ==> s[1] == t[1];
    assert TagOf(l) == TagOf(m) ==> s[2] == t[2];
    assert TagOf(l) == TagOf(m) ==> s[3] == t[3];
    assert TagOf(l) == TagOf(m) ==> s[0] == t[0];
  }

  predicate NestedLabel(l: Label) {
    l == MOOV || l == TRAK || l == MDIA || l == MINF || l == STBL
  }

  lemma NestedTags()
    ensures Nested() == {TagOf(MOOV), TagOf(TRAK), TagOf(MDIA), TagOf(MINF), TagOf(STBL)}
  {
  }

  lemma NestedLabels(l: Label)
    requires LengthOf(l) == 4
    ensures TagOf(l) in Nested() <==> NestedLabel(l)
  {
    hide TagOf, Nested, LineOf;
    NestedTags();
    TagsDiffer(l, MOOV);
    TagsDiffer(l, TRAK);
    TagsDiffer(l, MDIA);
    TagsDiffer(l, MINF);
    TagsDiffer(l, STBL);
  }

  /** A sketch that begins with the name of an atom. */
  predicate Named(s: Sketch, l: Label) {
    s.Name? && s.word == l && LengthOf(l) == 4
  }

  predicate OnlyAtoms(s: Sketch) {
    AtomsOnly(TextOf(s), Nested())
  }

  function AtomsOf(e: Env, s: Sketch): Atoms
    requires EnvOk(e) && OnlyAtoms(s)
  {
    Tree(e, TextOf(s), Nested())
  }

  lemma TextUnfolds(body: Sketch, rest: Sketch)
    requires body.Name?
    ensures TextOf(Sub(body, rest)) == Atom(Quote(LineOf(body.word), Blank('\n', TextOf(body.rest))), Blank(' ', TextOf(rest)))
  {
  }

  /** The first atom with tag u, when an atom `tag` stands in front of the rest. */
  function FirstOf(e: Env, tag: Tag, inner: Text, rest: Text, u: Tag): Hit
    requires EnvOk(e) && AtomsOnly(rest, Nested()) && (tag in Nested() ==> AtomsOnly(inner, Nested()))
  {
    if tag != u then First(Tree(e, rest, Nested()), u)
    else if tag in Nested() then Kids(Tree(e, inner, Nested()))
    else Bytes(Emit(e, inner))
  }

  lemma AtomFirst(e: Env, line: string, inner: Text, rest: Text, u: Tag)
    requires EnvOk(e) && Literal(line) == line && |line| == 4
    ensures var x := Atom(Quote(line, Blank('\n', inner)), Blank(' ', rest));
      && (AtomsOnly(x, Nested()) <==> (Ascii(line) in Nested() ==> AtomsOnly(inner, Nested())) && AtomsOnly(rest, Nested()))
      && (AtomsOnly(x, Nested()) ==> First(Tree(e, x, Nested()), u) == FirstOf(e, Ascii(line), inner, rest, u))
  {
    hide Nested, Ascii, Literal;
  }

  /** An atom in front of others: there are only atoms, and which is the first with a tag. */
  lemma SubFirst(e: Env, l: Label, body: Sketch, rest: Sketch, u: Label)
    requires EnvOk(e) && Named(body, l) && OnlyAtoms(rest) && (NestedLabel(l) ==> OnlyAtoms(body.rest)) && LengthOf(u) == 4
    ensures OnlyAtoms(Sub(body, rest))
    ensures First(AtomsOf(e, Sub(body, rest)), TagOf(u))
         == if l != u then First(AtomsOf(e, rest), TagOf(u))
            else if NestedLabel(l) then Kids(AtomsOf(e, body.rest)) else Bytes(Emit(e, TextOf(body.rest)))
  {
    hide Nested, TextOf, Ascii, Literal, NestedLabel, LineOf, LengthOf, First, Tree, AtomsOnly, Emit;
    TextUnfolds(body, rest);
    LabelIs(l);
    LabelLiteral(l);
    NestedLabels(l);
    AtomFirst(e, LineOf(l), TextOf(body.rest), TextOf(rest), TagOf(u));
    if l != u {
      TagsDiffer(l, u);
    }
  }

  /** What the leaves of the shipped template begin with. */
  predicate Heads(a: Leaves) {
    && Named(a.mvhd, MVHD) && Named(a.tkhd, TKHD) && Named(a.mdhd, MDHD) && Named(a.mediaHdlr, HDLR)
    && Named(a.vmhd, VMHD) && Named(a.dataHdlr, HDLR) && Named(a.stsd, STSD) && Named(a.stts, STTS)
    && Named(a.stsc, STSC) && Named(a.stsz, STSZ) && Named(a.stco, STCO) && Named(a.trakUdta, UDTA)
  }

  lemma ShippedHeads(a: Leaves)
    requires Shipped(a)
    ensures Heads(a)
  {
    hide MvhdRest, TkhdRest, StsdRest;
  }

  lemma NoAtoms()
    ensures OnlyAtoms(Sketch.Done)
  {
  }

  /** The sample tables by their names. */
  function TableOf(a: Leaves, u: Label): Sketch {
    if u == STSD then a.stsd else if u == STTS then a.stts else if u == STSC then a.stsc
    else if u == STSZ then a.stsz else a.stco
  }

  lemma StblHas(e: Env, a: Leaves, u: Label)
    requires EnvOk(e) && Heads(a) && (u == STSD || u == STTS || u == STSC || u == STSZ || u == STCO)
    ensures OnlyAtoms(StblOf(a).rest)
    ensures First(AtomsOf(e, StblOf(a).rest), TagOf(u)) == Bytes(Emit(e, TextOf(TableOf(a, u).rest)))
  {
    hide Nested, TextOf, OnlyAtoms, AtomsOf, First, Emit, LineOf, TagOf;
    NoAtoms();
    SubFirst(e, STCO, a.stco, Sketch.Done, u);
    SubFirst(e, STSZ, a.stsz, Sub(a.stco, Sketch.Done), u);
    SubFirst(e, STSC, a.stsc, Sub(a.stsz, Sub(a.stco, Sketch.Done)), u);
    SubFirst(e, STTS, a.stts, Sub(a.stsc, Sub(a.stsz, Sub(a.stco, Sketch.Done))), u);
    SubFirst(e, STSD, a.stsd, Sub(a.stts, Sub(a.stsc, Sub(a.stsz, Sub(a.stco, Sketch.Done)))), u);
  }

  lemma MinfAtoms(e: Env, a: Leaves)
    requires EnvOk(e) && Heads(a)
    ensures OnlyAtoms(MinfOf(a).rest) && OnlyAtoms(StblOf(a).rest)
    ensures First(AtomsOf(e, MinfOf(a).rest), TagOf(STBL)) == Kids(AtomsOf(e, StblOf(a).rest))
  {
    hide Nested, TextOf, OnlyAtoms, AtomsOf, First, Emit, LineOf, TagOf;
    StblHas(e, a, STCO);
    NoAtoms();
    SubFirst(e, STBL, StblOf(a), Sketch.Done, STBL);
    SubFirst(e, DINF, DinfOf(a), Sub(StblOf(a), Sketch.Done), STBL);
    SubFirst(e, HDLR, a.dataHdlr, Sub(DinfOf(a), Sub(StblOf(a), Sketch.Done)), STBL);
    SubFirst(e, VMHD, a.vmhd, Sub(a.dataHdlr, Sub(DinfOf(a), Sub(StblOf(a), Sketch.Done))), STBL);
  }

  lemma MdiaAtoms(e: Env, a: Leaves)
    requires EnvOk(e) && Heads(a)
    ensures OnlyAtoms(MdiaOf(a).rest) && OnlyAtoms(MinfOf(a).rest)
    ensures First(AtomsOf(e, MdiaOf(a).rest), TagOf(MINF)) == Kids(AtomsOf(e, MinfOf(a).rest))
  {
    hide Nested, TextOf, OnlyAtoms, AtomsOf, First, Emit, LineOf, TagOf;
    MinfAtoms(e, a);
    NoAtoms();
    SubFirst(e, MINF, MinfOf(a), Sketch.Done, MINF);
    SubFirst(e, HDLR, a.mediaHdlr, Sub(MinfOf(a), Sketch.Done), MINF);
    SubFirst(e, MDHD, a.mdhd, Sub(a.mediaHdlr, Sub(MinfOf(a), Sketch.Done)), MINF);
  }

  lemma TrakAtoms(e: Env, a: Leaves)
    requires EnvOk(e) && Heads(a)
    ensures OnlyAtoms(TrakOf(a).rest) && OnlyAtoms(MdiaOf(a).rest)
    ensures First(AtomsOf(e, TrakOf(a).rest), TagOf(MDIA)) == Kids(AtomsOf(e, MdiaOf(a).rest))
  {
    hide Nested, TextOf, OnlyAtoms, AtomsOf, First, Emit, LineOf, TagOf;
    MdiaAtoms(e, a);
    NoAtoms();
    SubFirst(e, UDTA, a.trakUdta, Sketch.Done, MDIA);
    SubFirst(e, MDIA, MdiaOf(a), Sub(a.trakUdta, Sketch.Done), MDIA);
    SubFirst(e, TKHD, a.tkhd, Sub(MdiaOf(a), Sub(a.trakUdta, Sketch.Done)), MDIA);
  }

  lemma MoovAtoms(e: Env, a: Leaves)
    requires EnvOk(e) && Heads(a)
    ensures OnlyAtoms(MoovOf(a).rest) && OnlyAtoms(TrakOf(a).rest)
    ensures First(AtomsOf(e, MoovOf(a).rest), TagOf(TRAK)) == Kids(AtomsOf(e, TrakOf(a).rest))
  {
    hide Nested, TextOf, OnlyAtoms, AtomsOf, First, Emit, LineOf, TagOf;
    TrakAtoms(e, a);
    NoAtoms();
    SubFirst(e, UDTA, MoovUdtaOf(a), Sketch.Done, TRAK);
    SubFirst(e, TRAK, TrakOf(a), Sub(MoovUdtaOf(a), Sketch.Done), TRAK);
    SubFirst(e, MVHD, a.mvhd, Sub(TrakOf(a), Sub(MoovUdtaOf(a), Sketch.Done)), TRAK);
  }
}
