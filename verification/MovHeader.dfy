/**
  The header of a movie file: its two passes, the gap it has to fill, and where it ends.
 */
module MovHeader {
  import opened Bytes
  import opened BigEndian
  import opened SparseFile
  import opened Template
  import opened Literals
  import opened TemplateGrammar

  // ---------- Pass 2 rewrites what pass 1 wrote, for every text ----------

  /** f, written on top of `base`. */
  function Over(base: map<nat, Byte>, f: File): File {
    File(base + f.cells, f.pos)
  }

  lemma WriteOver(base: map<nat, Byte>, f: File, data: seq<Byte>)
    ensures Write(Over(base, f), data) == Over(base, Write(f, data))
  {
  }

  lemma SeekOver(base: map<nat, Byte>, f: File, pos: nat)
    ensures Seek(Over(base, f), pos) == Over(base, Seek(f, pos)) && Over(base, f).pos == f.pos
  {
  }

  lemma DataSizeOver(e: Env, base: map<nat, Byte>, f: File)
    requires EnvOk(e)
    ensures DataSize(e, Over(base, f)) == (DataSize(e, f).0, Over(base, DataSize(e, f).1))
  {
    hide Write, Encode, Overlay, Over;
    var gap := e.headerSize - f.pos - 8;
    SeekOver(base, f, 0);
    if gap >= 8 {
      var g := Write(f, Encode(gap, 4) + SKIP);
      WriteOver(base, f, Encode(gap, 4) + SKIP);
      SeekOver(base, g, f.pos + gap);
      WriteOver(base, Seek(g, f.pos + gap), Encode(Sum(e.sizes, e.nframes), 4));
    } else if gap <= 0 {
      WriteOver(base, f, Encode(Sum(e.sizes, e.nframes), 4));
    }
  }

  lemma SpecialOver(e: Env, name: string, base: map<nat, Byte>, f: File)
    requires EnvOk(e)
    ensures SpecialWord(e, name, Over(base, f)) == (SpecialWord(e, name, f).0, Over(base, SpecialWord(e, name, f).1))
  {
    hide DataSize, Plain;
    if IsPlain(name) {
      WriteOver(base, f, Plain(e, name));
    } else if name == "data_size" {
      DataSizeOver(e, base, f);
    }
  }

  /** The same parse on a file that held something before. */
  function Lifted(base: map<nat, Byte>, r: Outcome): Outcome {
    Outcome(r.ok, r.p, Over(base, r.f))
  }

  lemma {:induction false} ItemOver(e: Env, t: string, c: char, p: nat, base: map<nat, Byte>, f: File)
    requires EnvOk(e) && p < |t|
    ensures Item(e, t, c, p, Over(base, f)) == Lifted(base, Item(e, t, c, p, f))
    decreases Left(t, p), 1
  {
    hide Loop, Parse, ReadWord, SpecialWord, Literal, ReadHex, Over;
    if IsBlank(c) {
    } else if c == '!' {
      SpecialOver(e, ReadWord(t, p, 0).0, base, f);
    } else if c == '{' {
      ParseOver(e, t, p, base, f, false);
    } else if c == '#' {
    } else if c == '\'' {
      WriteOver(base, f, Ascii(Literal(t[p..p + LineRead(t, p)])));
    } else if IsHex(c) {
      WriteOver(base, f, Encode(ReadHex(t, c, p, 0, 1).0, ReadHex(t, c, p, 0, 1).1 / 2));
    }
  }

  lemma {:induction false} LoopOver(e: Env, t: string, c: char, p: nat, base: map<nat, Byte>, f: File)
    requires EnvOk(e)
    ensures Loop(e, t, c, p, Over(base, f)) == Lifted(base, Loop(e, t, c, p, f))
    decreases Left(t, p), 2
  {
    hide Item, Parse;
    if p < |t| && c != '}' {
      ItemOver(e, t, c, p, base, f);
      var r := Item(e, t, c, p, f);
      if r.ok {
        LoopOver(e, t, At(t, r.p), r.p + 1, base, r.f);
      }
    }
  }

  lemma {:induction false} ParseOver(e: Env, t: string, p: nat, base: map<nat, Byte>, f: File, top: bool)
    requires EnvOk(e) && p < |t|
    ensures Parse(e, t, p, Over(base, f), top) == Lifted(base, Parse(e, t, p, f, top))
    decreases Left(t, p), 0
  {
    hide Loop;
    OpenedOver(base, f, top);
    LoopOver(e, t, At(t, p), p + 1, base, Opened(f, top));
    var r := Loop(e, t, At(t, p), p + 1, Opened(f, top));
    ClosedOver(base, f.pos, r.f);
  }

  lemma OpenedOver(base: map<nat, Byte>, f: File, top: bool)
    ensures Opened(Over(base, f), top) == Over(base, Opened(f, top))
  {
    WriteOver(base, f, Encode(0, 4));
  }

  lemma ClosedOver(base: map<nat, Byte>, start: nat, f: File)
    ensures Closed(start, Over(base, f)) == Over(base, Closed(start, f))
  {
    hide Write, Encode, Over;
    SeekOver(base, f, start);
    WriteOver(base, Seek(f, start), Encode(f.pos - start, 4));
    SeekOver(base, Write(Seek(f, start), Encode(f.pos - start, 4)), f.pos);
  }

  lemma {:induction false} PassOver(e: Env, t: string, p: nat, base: map<nat, Byte>, f: File)
    requires EnvOk(e)
    ensures Pass(e, t, p, Over(base, f)) == Over(base, Pass(e, t, p, f))
    decreases Left(t, p)
  {
    hide Parse, Over;
    if p < |t| {
      ParseOver(e, t, p, base, f, true);
      var r := Parse(e, t, p, f, true);
      PassOver(e, t, r.p, base, r.f);
    }
  }

  /** With the start of the data given, the second pass rewrites exactly the bytes of the first: the compiled
      file is what one pass makes of it, for every text and a fixed clock. */
  lemma SecondPassChangesNothing(e: Env, t: string, f: File)
    requires EnvOk(e) && e.headerSize != 0
    ensures Compile(e, t, f) == Pass(e, t, 0, Seek(f, 0))
  {
    hide Pass;
    var empty := File(map[], 0);
    var g := Pass(e, t, 0, empty);
    Bottom(f.cells);
    PassOver(e, t, 0, f.cells, empty);
    var f1 := Over(f.cells, g);
    Bottom(f1.cells);
    PassOver(e, t, 0, f1.cells, empty);
    Layers(f.cells, g.cells, g.cells);
    assert g.cells + g.cells == g.cells;
  }

  lemma Bottom(m: map<nat, Byte>)
    ensures Over(m, File(map[], 0)) == File(m, 0)
  {
  }

  // ---------- Sizes ----------

  /** The bytes of a text apart from its sample tables. */
  function FixedLen(x: Text): nat {
    match x
    case End => 0
    case Blank(_, rest) => FixedLen(rest)
    case LongHex(digits, rest) => (|digits| + 1) / 2 + FixedLen(rest)
    case ShortHex(digits, _, rest) => (|digits| + 1) / 2 + FixedLen(rest)
    case Quote(line, rest) => |Literal(line)| + FixedLen(rest)
    case Comment(_, rest) => FixedLen(rest)
    case Special(name, _, rest) => (if IsTable(name) then 0 else NumberWidth(name)) + FixedLen(rest)
    case Atom(body, rest) => 4 + FixedLen(body) + FixedLen(rest)
  }

  /** How often the special `name` occurs. */
  function Count(x: Text, name: string): nat {
    match x
    case End => 0
    case Special(n, _, rest) => (if n == name then 1 else 0) + Count(rest, name)
    case Atom(body, rest) => Count(body, name) + Count(rest, name)
    case Blank(_, rest) => Count(rest, name)
    case LongHex(_, rest) => Count(rest, name)
    case ShortHex(_, _, rest) => Count(rest, name)
    case Quote(_, rest) => Count(rest, name)
    case Comment(_, rest) => Count(rest, name)
  }

  /** Blanks and comments have no size. */
  lemma {:induction false} SizesIgnoreLayout(x: Text, name: string)
    ensures FixedLen(Bare(x)) == FixedLen(x) && Count(Bare(x), name) == Count(x, name)
    decreases x
  {
    hide Literal;
    match x {
      case End =>
      case Atom(body, rest) =>
        SizesIgnoreLayout(body, name);
        SizesIgnoreLayout(rest, name);
      case Quote(line, rest) =>
        LiteralTwice(line);
        SizesIgnoreLayout(rest, name);
      case Blank(_, rest) => SizesIgnoreLayout(rest, name);
      case LongHex(_, rest) => SizesIgnoreLayout(rest, name);
      case ShortHex(_, _, rest) => SizesIgnoreLayout(rest, name);
      case Comment(_, rest) => SizesIgnoreLayout(rest, name);
      case Special(_, _, rest) => SizesIgnoreLayout(rest, name);
    }
  }

  function TablesLen(e: Env, sizes: nat, offsets: nat): nat
    requires EnvOk(e)
  {
    sizes * (4 * e.nframes) + offsets * (4 + 4 * ChunksBegun(e.nframes, e.samplesPerChunk))
  }

  /** The fixed bytes and the tables of a text. */
  function OutLen(e: Env, x: Text): nat
    requires EnvOk(e)
  {
    FixedLen(x) + TablesLen(e, Count(x, "sample_sizes"), Count(x, "chunk_offsets"))
  }

  /** The length of the output depends on the frame count only, not on the header size or the sizes in the tables. */
  lemma EmitLength(e: Env, x: Text, next: char)
    requires EnvOk(e) && WellFormed(x, next)
    ensures |Emit(e, x)| == FixedLen(x) + TablesLen(e, Count(x, "sample_sizes"), Count(x, "chunk_offsets"))
  {
    OutLength(e, x, next);
  }

  lemma {:induction false} OutLength(e: Env, x: Text, next: char)
    requires EnvOk(e) && WellFormed(x, next)
    ensures |Emit(e, x)| == OutLen(e, x)
    decreases x
  {
    hide OutLen, Encode, Plain, Literal, Ascii, Render, HexDigit, Value;
    OutLenUnfolds(e, x);
    match x {
      case End =>
      case Special(name, _, rest) =>
        OutLength(e, rest, next);
        SpecialOutLen(e, x);
      case Atom(body, rest) =>
        OutLength(e, body, '}');
        OutLength(e, rest, next);
        AtomOutLen(e, x);
      case Blank(_, rest) => OutLength(e, rest, next);
      case LongHex(_, rest) => OutLength(e, rest, next);
      case ShortHex(_, _, rest) => OutLength(e, rest, next);
      case Quote(_, rest) => OutLength(e, rest, next);
      case Comment(_, rest) => OutLength(e, rest, next);
    }
  }

  lemma OutLenUnfolds(e: Env, x: Text)
    requires EnvOk(e)
    ensures x.End? ==> OutLen(e, x) == 0
    ensures x.Blank? || x.Comment? ==> OutLen(e, x) == OutLen(e, x.rest)
    ensures x.LongHex? || x.ShortHex? ==> OutLen(e, x) == (|x.digits| + 1) / 2 + OutLen(e, x.rest)
    ensures x.Quote? ==> OutLen(e, x) == |Literal(x.line)| + OutLen(e, x.rest)
  {
    hide TablesLen, Literal;
    NoTables(e);
  }

  lemma SpecialOutLen(e: Env, x: Text)
    requires EnvOk(e) && x.Special?
    ensures OutLen(e, x) == |Plain(e, x.name)| + OutLen(e, x.rest)
  {
    hide TablesLen, Plain;
    SpecialLength(e, x.name, Count(x.rest, "sample_sizes"), Count(x.rest, "chunk_offsets"));
  }

  lemma AtomOutLen(e: Env, x: Text)
    requires EnvOk(e) && x.Atom?
    ensures OutLen(e, x) == 4 + OutLen(e, x.body) + OutLen(e, x.rest)
  {
    hide TablesLen;
    TablesAdd(e, Count(x.body, "sample_sizes"), Count(x.body, "chunk_offsets"),
              Count(x.rest, "sample_sizes"), Count(x.rest, "chunk_offsets"));
  }

  lemma NoTables(e: Env)
    requires EnvOk(e)
    ensures TablesLen(e, 0, 0) == 0
  {
  }

  lemma SpecialLength(e: Env, name: string, sizes: nat, offsets: nat)
    requires EnvOk(e)
    ensures |Plain(e, name)| + TablesLen(e, sizes, offsets)
         == (if IsTable(name) then 0 else NumberWidth(name))
            + TablesLen(e, sizes + (if name == "sample_sizes" then 1 else 0), offsets + (if name == "chunk_offsets" then 1 else 0))
  {
  }

  lemma TablesAdd(e: Env, s: nat, o: nat, s': nat, o': nat)
    requires EnvOk(e)
    ensures TablesLen(e, s, o) + TablesLen(e, s', o') == TablesLen(e, s + s', o + o')
  {
  }
}
