/**
  Template texts the compiler does not understand: where it stops, what the file holds then, and the limits of
  its words and lines.
 */
module TemplateErrors {
  import opened Bytes
  import opened BigEndian
  import opened SparseFile
  import opened Template
  import opened TemplateGrammar
  import opened MovHeader
  import opened MovFile

  // ---------- Words and lines of any length ----------

  /** A word ends at a blank, a line end or a NUL; the character it ends with is used up, and so is the 256th. */
  lemma {:induction false} WordIs(t: string, p: nat, i: nat, n: nat)
    requires p + n < |t| && i + n <= 255
    requires forall j :: p <= j < p + n ==> t[j] !in [' ', '\t', '\n', '\r', '\0']
    requires i + n == 255 || t[p + n] in [' ', '\t', '\n', '\r', '\0'] || p + n + 1 == |t|
    ensures ReadWord(t, p, i) == (t[p..p + n], p + n + 1)
    decreases n
  {
    if n > 0 {
      WordIs(t, p + 1, i + 1, n - 1);
      assert [t[p]] + t[p + 1..p + n] == t[p..p + n];
    }
  }

  /** A line ends before its newline or before the last character of the text; of more than 1023 characters only
      1023 are read. */
  lemma {:induction false} LineIs(t: string, p: nat, n: nat)
    requires p + n < |t| && (t[p + n] == '\n' || p + n + 1 == |t|)
    requires forall j :: p <= j < p + n ==> t[j] != '\n'
    ensures LineLength(t, p) == n && LineRead(t, p) == if n <= 1023 then n else 1023
    decreases n
  {
    if n > 0 {
      LineIs(t, p + 1, n - 1);
    }
  }

  // ---------- Where the compiler stops ----------

  const ITEM_STARTS := " \t\n\r!{#'0123456789abcdef"

  const SPECIALS := {"mdata", "height", "width", "nframes", "timescale", "duration", "frame_duration", "samples_chunk",
                     "sample_sizes", "chunk_offsets", "data_size", "time"}

  /** A character that no item begins with stops it at once. */
  lemma UnknownCharacter(e: Env, t: string, c: char, p: nat, f: File)
    requires EnvOk(e) && p < |t| && c !in ITEM_STARTS
    ensures Item(e, t, c, p, f) == Outcome(false, p, f)
  {
    assert ITEM_STARTS[0] == ' ' && ITEM_STARTS[1] == '\t' && ITEM_STARTS[2] == '\n' && ITEM_STARTS[3] == '\r';
    assert ITEM_STARTS[4] == '!' && ITEM_STARTS[5] == '{' && ITEM_STARTS[6] == '#' && ITEM_STARTS[7] == '\'';
    HexStarts(c);
  }

  lemma HexStarts(c: char)
    ensures IsHex(c) ==> c in ITEM_STARTS
  {
    if '0' <= c <= '9' {
      assert ITEM_STARTS[8 + (c as int - '0' as int)] == c;
    } else if 'a' <= c <= 'f' {
      assert ITEM_STARTS[18 + (c as int - 'a' as int)] == c;
    }
  }

  /** It accepts the twelve specials only, and the data length only if there is no gap or room for a skip atom. */
  lemma SpecialAccepted(e: Env, name: string, f: File)
    requires EnvOk(e)
    ensures SpecialWord(e, name, f).0 <==>
              name in SPECIALS && (name == "data_size" ==> !(0 < e.headerSize - f.pos - 8 < 8))
    ensures !SpecialWord(e, name, f).0 ==> SpecialWord(e, name, f).1 == f
  {
  }

  // ---------- What the file holds then ----------

  /** Everything before the output position is as it was. */
  predicate Kept(f: File, g: File) {
    && f.pos <= g.pos
    && forall i :: 0 <= i < f.pos ==> (i in g.cells <==> i in f.cells) && (i in f.cells ==> g.cells[i] == f.cells[i])
  }

  lemma KeptOn(f: File, g: File, h: File)
    requires Kept(f, g) && Kept(g, h)
    ensures Kept(f, h)
  {
  }

  lemma KeptWrite(f: File, data: seq<Byte>)
    ensures Kept(f, Write(f, data))
  {
  }

  lemma KeptSpecial(e: Env, name: string, f: File)
    requires EnvOk(e)
    ensures Kept(f, SpecialWord(e, name, f).1)
  {
    hide IsPlain, Plain, Encode, Sum;
    if IsPlain(name) {
      KeptWrite(f, Plain(e, name));
    }
  }

  /** Filling in a length changes nothing in front of it, and puts the length there. */
  lemma KeptClosed(f: File, g: File)
    requires f.pos + 4 <= g.pos && Kept(f, g)
    ensures Kept(f, Closed(f.pos, g)) && HasAt(Closed(f.pos, g).cells, f.pos, Encode(g.pos - f.pos, 4))
    ensures Closed(f.pos, g).pos == g.pos
  {
    hide Encode;
  }

  lemma {:induction false} ItemKeeps(e: Env, t: string, c: char, p: nat, f: File)
    requires EnvOk(e) && p < |t|
    ensures Kept(f, Item(e, t, c, p, f).f)
    decreases Left(t, p), 2
  {
    hide Loop, Parse, ReadWord, SpecialWord, Literal, ReadHex, Write, LineRead;
    if IsBlank(c) {
    } else if c == '!' {
      KeptSpecial(e, ReadWord(t, p, 0).0, f);
    } else if c == '{' {
      ParseKeeps(e, t, p, f, false);
    } else if c == '#' {
    } else if c == '\'' {
      KeptWrite(f, Ascii(Literal(t[p..p + LineRead(t, p)])));
    } else if IsHex(c) {
      KeptWrite(f, Encode(ReadHex(t, c, p, 0, 1).0, ReadHex(t, c, p, 0, 1).1 / 2));
    }
  }

  lemma {:induction false} LoopKeeps(e: Env, t: string, c: char, p: nat, f: File)
    requires EnvOk(e)
    ensures Kept(f, Loop(e, t, c, p, f).f)
    decreases Left(t, p), 3
  {
    hide Item, Parse, Kept;
    if p < |t| && c != '}' {
      ItemKeeps(e, t, c, p, f);
      var r := Item(e, t, c, p, f);
      if r.ok {
        LoopKeeps(e, t, At(t, r.p), r.p + 1, r.f);
        KeptOn(f, r.f, Loop(e, t, At(t, r.p), r.p + 1, r.f).f);
      }
    } else {
      KeptHere(f);
    }
  }

  lemma KeptHere(f: File)
    ensures Kept(f, f)
  {
  }

  lemma {:induction false} ParseKeeps(e: Env, t: string, p: nat, f: File, top: bool)
    requires EnvOk(e) && p < |t|
    ensures Kept(f, Parse(e, t, p, f, top).f)
    decreases Left(t, p), 1
  {
    LoopKeeps(e, t, At(t, p), p + 1, Opened(f, top));
    if !top {
      LengthOrZero(e, t, p, f);
    }
  }

  /** An atom that is understood to its end begins with its length; one that is not begins with a zero. */
  lemma {:induction false} LengthOrZero(e: Env, t: string, p: nat, f: File)
    requires EnvOk(e) && p < |t|
    ensures var r := Parse(e, t, p, f, false);
      && Kept(f, r.f) && f.pos + 4 <= r.f.pos
      && HasAt(r.f.cells, f.pos, Encode(if r.ok then r.f.pos - f.pos else 0, 4))
    decreases Left(t, p), 0
  {
    hide Encode, Loop, Write, Closed, HasAt, Kept;
    var o := Opened(f, false);
    var r := Loop(e, t, At(t, p), p + 1, o);
    LoopKeeps(e, t, At(t, p), p + 1, o);
    KeptWrite(f, Encode(0, 4));
    KeptOn(f, o, r.f);
    WriteAdvances(f, Encode(0, 4));
    ZeroKept(f, Encode(0, 4), r.f);
    KeptClosed(f, r.f);
  }

  lemma WriteAdvances(f: File, data: seq<Byte>)
    ensures Write(f, data).pos == f.pos + |data|
  {
  }

  lemma ZeroKept(f: File, data: seq<Byte>, g: File)
    requires Kept(Write(f, data), g)
    ensures HasAt(g.cells, f.pos, data) && f.pos + |data| <= g.pos
  {
  }

  lemma {:induction false} PassKeeps(e: Env, t: string, p: nat, f: File)
    requires EnvOk(e)
    ensures Kept(f, Pass(e, t, p, f))
    decreases Left(t, p)
  {
    hide Parse, Kept;
    if p < |t| {
      var r := Parse(e, t, p, f, true);
      ParseKeeps(e, t, p, f, true);
      PassKeeps(e, t, r.p, r.f);
      KeptOn(f, r.f, Pass(e, t, r.p, r.f));
    } else {
      KeptHere(f);
    }
  }

  /** A template whose first atom is not understood to its end gives a file that begins with a zero length, so
      that no reader gets past it. */
  lemma BrokenHeader(e: Env, t: string, f: File)
    requires EnvOk(e) && e.headerSize != 0 && |t| > 1 && t[0] == '{' && !Item(e, t, '{', 1, Seek(f, 0)).ok
    ensures HasAt(Compile(e, t, f).cells, 0, [0, 0, 0, 0])
  {
    var f0 := Seek(f, 0);
    SecondPassChangesNothing(e, t, f);
    LengthOrZero(e, t, 1, f0);
    var r := Item(e, t, '{', 1, f0);
    FirstItemFails(e, t, f0);
    PassKeeps(e, t, r.p, r.f);
    EncodeZero();
    hide Pass, Compile, Item;
  }

  lemma EncodeZero()
    ensures Encode(0, 4) == [0, 0, 0, 0]
  {
  }

  lemma FirstItemFails(e: Env, t: string, f: File)
    requires EnvOk(e) && |t| > 1 && t[0] == '{' && !Item(e, t, '{', 1, f).ok
    ensures Item(e, t, '{', 1, f) == Parse(e, t, 1, f, false)
    ensures var r := Item(e, t, '{', 1, f); Pass(e, t, 0, f) == Pass(e, t, r.p, r.f)
  {
    var r := Item(e, t, '{', 1, f);
    assert Loop(e, t, '{', 1, f) == r;
    assert Parse(e, t, 0, f, true) == r;
  }

  lemma UnknownInside(e: Env, t: string, x: Text, c: char, f: File)
    requires EnvOk(e) && WellFormed(x, c) && AllPlain(x) && c !in ITEM_STARTS && c != '}'
    requires Stands(t, 1, Render(x)) && 2 + |Render(x)| < |t| && t[1 + |Render(x)|] == c
    ensures !Parse(e, t, 1, f, false).ok
  {
    var m, o := 1 + |Render(x)|, Opened(f, false);
    var g := Write(o, Emit(e, x));
    hide Loop, Item, Parse, Write, Emit, WellFormed, AllPlain, Render, Stands, Opened;
    Compiles(e, t, 1, x, o);
    StopsAt(e, t, c, m + 1, g);
    ParseFails(e, t, f);
  }

  lemma ParseFails(e: Env, t: string, f: File)
    requires EnvOk(e) && |t| > 1 && !Loop(e, t, t[1], 2, Opened(f, false)).ok
    ensures !Parse(e, t, 1, f, false).ok
  {
    hide Loop, Opened;
  }

  lemma StopsAt(e: Env, t: string, c: char, p: nat, f: File)
    requires EnvOk(e) && p < |t| && c !in ITEM_STARTS && c != '}'
    ensures Loop(e, t, c, p, f) == Outcome(false, p, f)
  {
    UnknownCharacter(e, t, c, p, f);
    hide Item;
  }

  /** One unknown character anywhere in the first atom is enough, if anything follows it. */
  lemma UnknownSpoils(e: Env, x: Text, c: char, more: string, f: File)
    requires EnvOk(e) && e.headerSize != 0 && WellFormed(x, c) && AllPlain(x)
    requires c !in ITEM_STARTS && c != '}' && more != ""
    ensures HasAt(Compile(e, ['{'] + Render(x) + [c] + more, f).cells, 0, [0, 0, 0, 0])
  {
    hide Compile, Parse, Item, WellFormed, AllPlain, HasAt, Render;
    var t, n := ['{'] + Render(x) + [c] + more, |Render(x)|;
    assert t[1..1 + n] == Render(x) && t[1 + n] == c;
    UnknownInside(e, t, x, c, Seek(f, 0));
    AtomItem(e, t, Seek(f, 0));
    BrokenHeader(e, t, f);
  }

  lemma AtomItem(e: Env, t: string, f: File)
    requires EnvOk(e) && |t| > 1
    ensures Item(e, t, '{', 1, f) == Parse(e, t, 1, f, false)
  {
  }

  /** Outside of all atoms the compiler only skips it, and goes on. */
  lemma UnknownSkipped(e: Env, c: char, x: Text, last: char, f: File)
    requires EnvOk(e) && c !in ITEM_STARTS && WellFormed(x, last) && AllPlain(x)
    ensures Pass(e, [c] + Render(x) + [last], 0, f) == Write(f, Emit(e, x))
  {
    var t := [c] + Render(x) + [last];
    var m := 1 + |Render(x)|;
    assert t[1..m] == Render(x) && t[m] == last;
    UnknownCharacter(e, t, c, 1, f);
    Compiles(e, t, 1, x, f);
    hide Render, Emit, Item, Write, WellFormed, AllPlain;
    assert Parse(e, t, 0, f, true).p == 1 && Parse(e, t, 0, f, true).f == f;
    assert Loop(e, t, last, m + 1, Write(f, Emit(e, x))) == Outcome(true, m + 1, Write(f, Emit(e, x)));
    var g := Write(f, Emit(e, x));
    assert Parse(e, t, 1, f, true) == Outcome(true, m + 1, g);
    hide Parse;
    assert Pass(e, t, m + 1, g) == g;
    assert Pass(e, t, 1, f) == Pass(e, t, m + 1, g);
  }
}
