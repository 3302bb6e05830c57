/**
  A layout of the shipped template in the manner of src/qt_source: every item on a line of its own, a comment behind
  it, and a carriage return and a newline at the end of the line.
 */
module QtLayouts {
  import opened Template
  import opened TemplateGrammar
  import opened Literals
  import opened MovLayout
  import opened Sketches
  import opened QtSource

  /** A comment of one line that leaves room for an item in front of it. */
  predicate IsNote(note: string) {
    |note| <= 900 && forall i :: 0 <= i < |note| ==> note[i] != '\n'
  }

  function Noted(note: string, rest: Text): Text {
    Comment(" " + note + "\r", Blank('\n', rest))
  }

  function NotedLine(word: string, note: string): string {
    word + "  " + ("# " + note + "\r")
  }

  function NotedNumbers(k: nat, values: seq<nat>, note: string, rest: Text): Text {
    if values == [] then rest
    else
      var digits, more := HexString(values[0], k), Noted(note, NotedNumbers(k, values[1..], note, rest));
      if k == 8 then LongHex(digits, Blank(' ', more)) else ShortHex(digits, ' ', more)
  }

  /** Every item on its own line, with a comment. */
  function NotedText(s: Sketch, note: string): Text {
    match s
    case Done => End
    case Numbers(k, values, rest) => NotedNumbers(k, values, note, NotedText(rest, note))
    case Name(word, rest) => Quote(NotedLine(LineOf(word), note), Blank('\n', NotedText(rest, note)))
    case Slot(field, rest) => Special(NameOf(field), ' ', Noted(note, NotedText(rest, note)))
    case SizesTable(rest) => Special("sample_sizes", ' ', Noted(note, NotedText(rest, note)))
    case OffsetsTable(rest) => Special("chunk_offsets", ' ', Noted(note, NotedText(rest, note)))
    case Sub(body, rest) =>
      Blank('\t', Atom(NotedText(body, note), Blank('\r', Blank('\n', NotedText(rest, note)))))
  }

  /** The lines of a literal and of a number, as in lines 57 and 61 of src/qt_source. */
  lemma NotedLines(l: Label, v: nat, note: string)
    ensures Render(NotedText(Name(l, Done), note)) == "'" + LineOf(l) + "  # " + note + "\r\n"
    ensures Render(NotedText(Numbers(8, [v], Done), note)) == HexString(v, 8) + " # " + note + "\r\n"
  {
    hide HexString, LineOf;
    assert Render(Blank('\n', End)) == "\n";
    assert Render(Noted(note, End)) == "#" + (" " + note + "\r") + "\n";
    assert [v][1..] == [] && NotedNumbers(8, [], note, End) == End;
    assert Render(Blank(' ', Noted(note, End))) == " " + Render(Noted(note, End));
    assert NotedText(Numbers(8, [v], Done), note) == LongHex(HexString(v, 8), Blank(' ', Noted(note, End)));
  }

  predicate LaidOut(x: Text, s: Sketch, next: char) {
    Lays(x, s) && AllPlain(x) && WellFormed(x, next)
  }

  /** Blanks and comments may stand anywhere. */
  lemma {:induction false} LayoutSkipped(x: Text, s: Sketch)
    requires x.Blank? || x.Comment?
    ensures Lays(x, s) <==> Lays(x.rest, s)
    decreases s
  {
    if s.Numbers? && s.values == [] {
      LayoutSkipped(x, s.rest);
    }
  }

  lemma BlankKeeps(c: char, x: Text, s: Sketch, next: char)
    requires IsBlank(c) && LaidOut(x, s, next)
    ensures LaidOut(Blank(c, x), s, next)
  {
    hide Lays;
    LayoutSkipped(Blank(c, x), s);
  }

  lemma CommentKeeps(line: string, x: Text, s: Sketch, next: char)
    requires OneLine(line) && (Render(x) + [next])[0] == '\n' && LaidOut(x, s, next)
    ensures LaidOut(Comment(line, x), s, next)
  {
    hide Lays;
    LayoutSkipped(Comment(line, x), s);
  }

  lemma NotedKeeps(note: string, x: Text, s: Sketch, next: char)
    requires IsNote(note) && LaidOut(x, s, next)
    ensures LaidOut(Noted(note, x), s, next)
  {
    BlankKeeps('\n', x, s, next);
    CommentKeeps(" " + note + "\r", Blank('\n', x), s, next);
  }

  lemma {:induction false} NumbersLaidOut(k: nat, values: seq<nat>, note: string, x: Text, s: Sketch, next: char)
    requires IsNote(note) && 0 < k <= 8 && LaidOut(x, s, next)
    ensures LaidOut(NotedNumbers(k, values, note, x), Numbers(k, values, s), next)
    decreases |values|
  {
    hide HexString;
    if values != [] {
      var more, t := NotedNumbers(k, values[1..], note, x), Numbers(k, values[1..], s);
      NumbersLaidOut(k, values[1..], note, x, s, next);
      NotedKeeps(note, more, t, next);
      BlankKeeps(' ', Noted(note, more), t, next);
      hide Noted;
    }
  }

  lemma LineSpells(word: string, note: string)
    requires IsNote(note) && Clean(word) && |word| <= 25
    ensures Spells(NotedLine(word, note), word) && OneLine(NotedLine(word, note))
  {
    var line, rest := NotedLine(word, note), "# " + note + "\r";
    GapThenEnd("  ", rest);
    assert line[|word|..] == "  " + rest;
  }

  lemma NameLaidOut(l: Label, note: string, x: Text, s: Sketch, next: char)
    requires IsNote(note) && LaidOut(x, s, next)
    ensures LaidOut(Quote(NotedLine(LineOf(l), note), Blank('\n', x)), Name(l, s), next)
  {
    hide NotedLine, LineOf;
    LabelIs(l);
    LineSpells(LineOf(l), note);
    BlankKeeps('\n', x, s, next);
    hide Spells, Clean;
  }

  lemma SpecialLaidOut(name: string, note: string, x: Text, t: Sketch, next: char)
    requires IsNote(note) && Fills(name, t) && Word(name) && IsPlain(name) && LaidOut(x, t.rest, next)
    ensures LaidOut(Special(name, ' ', Noted(note, x)), t, next)
  {
    hide Noted, Word, IsPlain, NameOf;
    NotedKeeps(note, x, t.rest, next);
  }

  lemma SlotLaidOut(f: Field, note: string, x: Text, s: Sketch, next: char)
    requires IsNote(note) && LaidOut(x, s, next)
    ensures LaidOut(Special(NameOf(f), ' ', Noted(note, x)), Slot(f, s), next)
  {
    hide Noted, NameOf, NumberWidth, LaidOut;
    FieldIs(f);
    SpecialLaidOut(NameOf(f), note, x, Slot(f, s), next);
  }

  lemma TablesLaidOut(note: string, x: Text, s: Sketch, next: char)
    requires IsNote(note) && LaidOut(x, s, next)
    ensures LaidOut(Special("sample_sizes", ' ', Noted(note, x)), SizesTable(s), next)
    ensures LaidOut(Special("chunk_offsets", ' ', Noted(note, x)), OffsetsTable(s), next)
  {
    hide Noted, LaidOut;
    SpecialLaidOut("sample_sizes", note, x, SizesTable(s), next);
    SpecialLaidOut("chunk_offsets", note, x, OffsetsTable(s), next);
  }

  lemma SubLaidOut(x: Text, body: Sketch, y: Text, s: Sketch, next: char)
    requires LaidOut(x, body, '}') && LaidOut(y, s, next)
    ensures LaidOut(Blank('\t', Atom(x, Blank('\r', Blank('\n', y)))), Sub(body, s), next)
  {
    BlankKeeps('\n', y, s, next);
    BlankKeeps('\r', Blank('\n', y), s, next);
    BlankKeeps('\t', Atom(x, Blank('\r', Blank('\n', y))), Sub(body, s), next);
  }

  lemma {:induction false} NotedLays(s: Sketch, note: string, next: char)
    requires IsNote(note) && MeasureOf(s).ok
    ensures LaidOut(NotedText(s, note), s, next)
    decreases s
  {
    hide NotedNumbers, NotedLine, Noted, LaidOut, IsNote;
    if s.Done? {
      NothingLaidOut(next);
    } else {
      NotedLays(s.rest, note, next);
      var x := NotedText(s.rest, note);
      match s {
        case Numbers(k, values, rest) => NumbersLaidOut(k, values, note, x, rest, next);
        case Name(word, rest) => NameLaidOut(word, note, x, rest, next);
        case Slot(field, rest) => SlotLaidOut(field, note, x, rest, next);
        case SizesTable(rest) => TablesLaidOut(note, x, rest, next);
        case OffsetsTable(rest) => TablesLaidOut(note, x, rest, next);
        case Sub(body, rest) =>
          NotedLays(body, note, '}');
          SubLaidOut(NotedText(body, note), body, x, rest, next);
      }
    }
  }

  lemma NothingLaidOut(next: char)
    ensures LaidOut(End, Done, next)
  {
  }

  function NotedHeader(a: Leaves, note: string): Header {
    Header(NotedText(Movie(a), note), '\r', NotedText(DataName(), note), '\n')
  }

  /** The template with a comment behind every item and both line end characters is one of its layouts. */
  lemma NotedIsShipped(a: Leaves, note: string)
    requires Shipped(a) && IsNote(note)
    ensures ShippedHeader(NotedHeader(a, note), a)
  {
    ShippedMeasured(a);
    hide Shipped, Measured, NotedText, MoovOf, IsNote;
    MoovMeasured(a);
    SubMeasure(MoovOf(a), Done);
    NotedLays(Movie(a), note, '!');
    NotedLays(DataName(), note, '\n');
    hide Lays, WellFormed, AllPlain;
  }
}
