/** Templates without their layout, the text of one, and every text that lays it out. */
module Sketches {
  import opened Template
  import opened TemplateGrammar
  import opened Literals
  import opened MovHeader

  /** The literals of the template: atom types, codes and three component names. */
  datatype Label =
    | MOOV | MVHD | TRAK | TKHD | MDIA | MDHD | HDLR | MINF | VMHD | DINF | DREF | STBL | STSD | STTS | STSC | STSZ
    | STCO | UDTA | WLOC | MDAT | MHLR | VIDE | APPL | DHLR | ALIS | JPEG | VIDEO_HANDLER | ALIAS_HANDLER | PHOTO_JPEG

  function LineOf(l: Label): string {
    match l
    case MOOV => "moov" case MVHD => "mvhd" case TRAK => "trak" case TKHD => "tkhd" case MDIA => "mdia"
    case MDHD => "mdhd" case HDLR => "hdlr" case MINF => "minf" case VMHD => "vmhd" case DINF => "dinf"
    case DREF => "dref" case STBL => "stbl" case STSD => "stsd" case STTS => "stts" case STSC => "stsc"
    case STSZ => "stsz" case STCO => "stco" case UDTA => "udta" case WLOC => "WLOC" case MDAT => "mdat"
    case MHLR => "mhlr"
    case VIDE => "vide" case APPL => "appl" case DHLR => "dhlr" case ALIS => "alis" case JPEG => "jpeg"
    case VIDEO_HANDLER => "Apple Video Media Handler"
    case ALIAS_HANDLER => "Apple Alias Data Handler"
    case PHOTO_JPEG => "Photo - JPEG"
  }

  function LengthOf(l: Label): nat {
    match l
    case VIDEO_HANDLER => 25
    case ALIAS_HANDLER => 24
    case PHOTO_JPEG => 12
    case _ => 4
  }

  /** The numbers the compiler fills in. */
  datatype Field = TIME | TIMESCALE | DURATION | WIDTH | HEIGHT | NFRAMES | FRAME_DURATION | SAMPLES_CHUNK

  function NameOf(f: Field): string {
    match f
    case TIME => "time" case TIMESCALE => "timescale" case DURATION => "duration" case WIDTH => "width"
    case HEIGHT => "height" case NFRAMES => "nframes" case FRAME_DURATION => "frame_duration"
    case SAMPLES_CHUNK => "samples_chunk"
  }

  function WidthOf(f: Field): nat {
    if f == WIDTH || f == HEIGHT then 2 else 4
  }

  /** A template without its layout: numbers of the same width in a row, literals, specials and atoms. */
  datatype Sketch =
    | Done
    | Numbers(k: nat, values: seq<nat>, rest: Sketch)
    | Name(word: Label, rest: Sketch)
    | Slot(field: Field, rest: Sketch)
    | SizesTable(rest: Sketch)
    | OffsetsTable(rest: Sketch)
    | Sub(body: Sketch, rest: Sketch)

  function HexString(v: nat, k: nat): (s: string)
    ensures |s| == k && Digits(s)
    decreases k
  {
    if k == 0 then "" else HexString(v / 16, k - 1) + [HEX_STR[v % 16]]
  }

  function NumbersText(k: nat, values: seq<nat>, rest: Text): Text {
    if values == [] then rest else
      var digits := HexString(values[0], k);
      var more := NumbersText(k, values[1..], rest);
      if k == 8 then LongHex(digits, Blank(' ', more)) else ShortHex(digits, ' ', more)
  }

  /** The text with one blank behind each item. */
  function TextOf(s: Sketch): Text {
    match s
    case Done => End
    case Numbers(k, values, rest) => NumbersText(k, values, TextOf(rest))
    case Name(word, rest) => Quote(LineOf(word), Blank('\n', TextOf(rest)))
    case Slot(field, rest) => Special(NameOf(field), ' ', TextOf(rest))
    case SizesTable(rest) => Special("sample_sizes", ' ', TextOf(rest))
    case OffsetsTable(rest) => Special("chunk_offsets", ' ', TextOf(rest))
    case Sub(body, rest) => Atom(TextOf(body), Blank(' ', TextOf(rest)))
  }

  /** The bytes and the tables of each kind a sketch adds up to, and whether its numbers have 1 to 8 digits. */
  datatype Measure = Measure(ok: bool, n: nat, sizes: nat, offsets: nat)

  function MeasureOf(s: Sketch): Measure {
    match s
    case Done => Measure(true, 0, 0, 0)
    case Numbers(k, values, rest) =>
      var m := MeasureOf(rest);
      m.(ok := m.ok && 0 < k <= 8, n := m.n + |values| * ((k + 1) / 2))
    case Name(word, rest) =>
      var m := MeasureOf(rest);
      m.(n := m.n + LengthOf(word))
    case Slot(field, rest) =>
      var m := MeasureOf(rest);
      m.(n := m.n + WidthOf(field))
    case SizesTable(rest) =>
      var m := MeasureOf(rest);
      m.(sizes := m.sizes + 1)
    case OffsetsTable(rest) =>
      var m := MeasureOf(rest);
      m.(offsets := m.offsets + 1)
    case Sub(body, rest) =>
      var b, m := MeasureOf(body), MeasureOf(rest);
      Measure(b.ok && m.ok, 4 + b.n + m.n, b.sizes + m.sizes, b.offsets + m.offsets)
  }

  /** A well-formed plain text of n fixed bytes with so many tables of each kind. */
  predicate Exact(x: Text, next: char, n: nat, sizes: nat, offsets: nat) {
    && FixedLen(x) == n && Count(x, "sample_sizes") == sizes && Count(x, "chunk_offsets") == offsets
    && AllPlain(x) && WellFormed(x, next)
  }

  /** No comment, no line end, no blank at its end: the literal is the line. */
  predicate Clean(line: string) {
    && 0 < |line| < COM_STR_SIZE && line[|line| - 1] != ' ' && line[|line| - 1] != '\t'
    && forall i :: 0 <= i < |line| ==> line[i] != '\r' && line[i] != '#' && line[i] != '\n'
  }

  lemma LabelIs(l: Label)
    ensures Clean(LineOf(l)) && |LineOf(l)| == LengthOf(l)
  {
    if LengthOf(l) == 4 {
      TypeIs(l);
    } else {
      ComponentIs(l);
    }
  }

  lemma TypeIs(l: Label)
    requires LengthOf(l) == 4
    ensures Clean(LineOf(l)) && |LineOf(l)| == 4
  {
  }

  lemma ComponentIs(l: Label)
    requires LengthOf(l) != 4
    ensures Clean(LineOf(l)) && |LineOf(l)| == LengthOf(l)
  {
  }

  lemma FieldIs(f: Field)
    ensures Word(NameOf(f)) && !IsTable(NameOf(f)) && NumberWidth(NameOf(f)) == WidthOf(f) > 0
  {
  }

  lemma CleanLine(line: string)
    requires Clean(line)
    ensures Literal(line) == line
  {
    WordIsWritten(line, "", "");
    assert line + "" + "" == line;
  }

  lemma LabelLiteral(l: Label)
    ensures Literal(LineOf(l)) == LineOf(l)
  {
    hide LineOf;
    LabelIs(l);
    CleanLine(LineOf(l));
  }

  lemma {:induction false} NumbersExact(k: nat, values: seq<nat>, rest: Text, next: char, n: nat, sizes: nat, offsets: nat)
    requires 0 < k <= 8 && Exact(rest, next, n, sizes, offsets)
    ensures Exact(NumbersText(k, values, rest), next, |values| * ((k + 1) / 2) + n, sizes, offsets)
    decreases |values|
  {
    if values != [] {
      NumbersExact(k, values[1..], rest, next, n, sizes, offsets);
      OneMore(|values|, (k + 1) / 2);
    }
  }

  lemma OneMore(a: nat, b: nat)
    requires a > 0
    ensures a * b == (a - 1) * b + b
  {
  }

  lemma LineExact(line: string, rest: Text, next: char, n: nat, sizes: nat, offsets: nat)
    requires Clean(line) && Exact(rest, next, n, sizes, offsets)
    ensures Exact(Quote(line, Blank('\n', rest)), next, |line| + n, sizes, offsets)
  {
    CleanLine(line);
  }

  lemma SlotExact(field: Field, rest: Text, next: char, n: nat, sizes: nat, offsets: nat)
    requires Exact(rest, next, n, sizes, offsets)
    ensures Exact(Special(NameOf(field), ' ', rest), next, n + WidthOf(field), sizes, offsets)
  {
    hide NameOf, WidthOf, NumberWidth;
    FieldIs(field);
  }

  lemma TablesExact(rest: Text, next: char, n: nat, sizes: nat, offsets: nat)
    requires Exact(rest, next, n, sizes, offsets)
    ensures Exact(Special("sample_sizes", ' ', rest), next, n, sizes + 1, offsets)
    ensures Exact(Special("chunk_offsets", ' ', rest), next, n, sizes, offsets + 1)
  {
  }

  lemma SubExact(body: Text, rest: Text, next: char, b: Measure, m: Measure)
    requires Exact(body, '}', b.n, b.sizes, b.offsets) && Exact(rest, next, m.n, m.sizes, m.offsets)
    ensures Exact(Atom(body, Blank(' ', rest)), next, 4 + b.n + m.n, b.sizes + m.sizes, b.offsets + m.offsets)
  {
  }

  /** The text of a sketch is what the sketch was measured to be. */
  lemma {:induction false} SketchExact(s: Sketch, next: char)
    requires MeasureOf(s).ok
    ensures var m := MeasureOf(s); Exact(TextOf(s), next, m.n, m.sizes, m.offsets)
    decreases s
  {
    hide NumbersText, HexString, Exact, LineOf, LengthOf, NameOf, WidthOf, Clean;
    if s.Done? {
      EndExact(next);
    } else {
      SketchExact(s.rest, next);
      var x, m := TextOf(s.rest), MeasureOf(s.rest);
      match s {
        case Numbers(k, values, _) => NumbersExact(k, values, x, next, m.n, m.sizes, m.offsets);
        case Name(word, _) =>
          LabelIs(word);
          LineExact(LineOf(word), x, next, m.n, m.sizes, m.offsets);
        case Slot(field, _) => SlotExact(field, x, next, m.n, m.sizes, m.offsets);
        case SizesTable(_) => TablesExact(x, next, m.n, m.sizes, m.offsets);
        case OffsetsTable(_) => TablesExact(x, next, m.n, m.sizes, m.offsets);
        case Sub(body, _) =>
          SketchExact(body, '}');
          SubExact(TextOf(body), x, next, MeasureOf(body), m);
      }
    }
  }

  lemma EndExact(next: char)
    ensures Exact(End, next, 0, 0, 0)
  {
  }

  // ---------- Every way to write a sketch down ----------

  /** The text writes the items of the sketch in their order, with blanks, comments and line ends anywhere between
      them, any blank behind a short number or a special, and any comment behind a literal. */
  predicate Lays(x: Text, s: Sketch)
    decreases x, s
  {
    if s.Numbers? && s.values == [] then Lays(x, s.rest)
    else
      match x
      case End => s.Done?
      case Blank(_, rest) => Lays(rest, s)
      case Comment(_, rest) => Lays(rest, s)
      case LongHex(digits, rest) => s.Numbers? && s.k == 8 && Writes(digits, s) && Lays(rest, Behind(s))
      case ShortHex(digits, _, rest) => s.Numbers? && s.k != 8 && Writes(digits, s) && Lays(rest, Behind(s))
      case Quote(line, rest) => s.Name? && Spells(line, LineOf(s.word)) && Lays(rest, s.rest)
      case Special(name, _, rest) => Fills(name, s) && Lays(rest, s.rest)
      case Atom(body, rest) => s.Sub? && Lays(body, s.body) && Lays(rest, s.rest)
  }

  predicate Writes(digits: string, s: Sketch)
    requires s.Numbers? && s.values != []
  {
    digits == HexString(s.values[0], s.k)
  }

  function Behind(s: Sketch): Sketch
    requires s.Numbers? && s.values != []
  {
    Numbers(s.k, s.values[1..], s.rest)
  }

  predicate Fills(name: string, s: Sketch) {
    || (s.Slot? && name == NameOf(s.field)) || (s.SizesTable? && name == "sample_sizes")
    || (s.OffsetsTable? && name == "chunk_offsets")
  }

  lemma LabelSpelled(l: Label, line: string)
    ensures Spells(line, LineOf(l)) <==> Literal(line) == LineOf(l)
  {
    hide LineOf, Literal, Spells;
    LabelIs(l);
    SpelledClean(LineOf(l), line);
  }

  lemma SpelledClean(word: string, line: string)
    requires Clean(word)
    ensures Spells(line, word) <==> Literal(line) == word
  {
    hide Literal;
    LiteralIsUnique(line, word);
  }

  /** Exactly the texts with the items of the sketch lay it out. */
  lemma {:induction false} LaysExactly(x: Text, s: Sketch)
    ensures Lays(x, s) <==> Bare(x) == Bare(TextOf(s))
    decreases x, s
  {
    hide HexString, LineOf, NameOf, Literal, Spells;
    if s.Numbers? && s.values == [] {
      LaysExactly(x, s.rest);
    } else {
      match x {
        case End =>
        case Blank(_, rest) => LaysExactly(rest, s);
        case Comment(_, rest) => LaysExactly(rest, s);
        case LongHex(_, rest) => if s.Numbers? { LaysExactly(rest, Behind(s)); }
        case ShortHex(_, _, rest) => if s.Numbers? { LaysExactly(rest, Behind(s)); }
        case Quote(line, rest) =>
          if s.Name? {
            LabelSpelled(s.word, line);
            LabelLiteral(s.word);
            LaysExactly(rest, s.rest);
          }
        case Special(_, _, rest) => if s.Slot? || s.SizesTable? || s.OffsetsTable? { LaysExactly(rest, s.rest); }
        case Atom(body, rest) =>
          if s.Sub? {
            LaysExactly(body, s.body);
            LaysExactly(rest, s.rest);
          }
      }
    }
  }
}
