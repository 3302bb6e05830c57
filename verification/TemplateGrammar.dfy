/**
  Well-formed templates by their structure: how one is written, the bytes it stands for, and the theorem
  that the compiler turns the first into the second.
 */
module TemplateGrammar {
  import opened Bytes
  import opened BigEndian
  import opened SparseFile
  import opened Template
  import opened Literals

  /** A template text, item by item.  Numbers of fewer than eight digits carry the blank that ends them. */
  datatype Text =
    | End
    | Blank(c: char, rest: Text)
    | LongHex(digits: string, rest: Text)
    | ShortHex(digits: string, delim: char, rest: Text)
    | Quote(line: string, rest: Text)
    | Comment(line: string, rest: Text)
    | Special(name: string, delim: char, rest: Text)
    | Atom(body: Text, rest: Text)

  function Render(x: Text): string {
    match x
    case End => ""
    case Blank(c, rest) => [c] + Render(rest)
    case LongHex(digits, rest) => digits + Render(rest)
    case ShortHex(digits, delim, rest) => digits + [delim] + Render(rest)
    case Quote(line, rest) => ['\''] + line + Render(rest)
    case Comment(line, rest) => ['#'] + line + Render(rest)
    case Special(name, delim, rest) => ['!'] + name + [delim] + Render(rest)
    case Atom(body, rest) => ['{'] + Render(body) + ['}'] + Render(rest)
  }

  predicate Digits(s: string) {
    forall i :: 0 <= i < |s| ==> IsHex(s[i])
  }

  predicate OneLine(s: string) {
    |s| < COM_STR_SIZE && forall i :: 0 <= i < |s| ==> s[i] != '\n'
  }

  predicate Word(s: string) {
    |s| <= 255 && forall i :: 0 <= i < |s| ==> !EndsWord(s[i])
  }

  /** Well formed when the character `next` follows: quotes and comments run to the end of their line. */
  predicate WellFormed(x: Text, next: char) {
    match x
    case End => true
    case Blank(c, rest) => IsBlank(c) && WellFormed(rest, next)
    case LongHex(digits, rest) => |digits| == 8 && Digits(digits) && WellFormed(rest, next)
    case ShortHex(digits, delim, rest) =>
      0 < |digits| < 8 && Digits(digits) && IsBlank(delim) && WellFormed(rest, next)
    case Quote(line, rest) => OneLine(line) && (Render(rest) + [next])[0] == '\n' && WellFormed(rest, next)
    case Comment(line, rest) => OneLine(line) && (Render(rest) + [next])[0] == '\n' && WellFormed(rest, next)
    case Special(name, delim, rest) => Word(name) && IsBlank(delim) && WellFormed(rest, next)
    case Atom(body, rest) => WellFormed(body, '}') && WellFormed(rest, next)
  }

  /** All specials are known and none of them looks at the output position. */
  predicate AllPlain(x: Text) {
    match x
    case End => true
    case Special(name, _, rest) => IsPlain(name) && AllPlain(rest)
    case Atom(body, rest) => AllPlain(body) && AllPlain(rest)
    case Blank(_, rest) => AllPlain(rest)
    case LongHex(_, rest) => AllPlain(rest)
    case ShortHex(_, _, rest) => AllPlain(rest)
    case Quote(_, rest) => AllPlain(rest)
    case Comment(_, rest) => AllPlain(rest)
  }

  /** The number the digits write, behind the digits read before. */
  function Value(d: nat, digits: string): nat
    requires Digits(digits)
    decreases |digits|
  {
    if digits == "" then d else Value(16 * d + HexDigit(digits[0]), digits[1..])
  }

  function HexBytes(digits: string): seq<Byte>
    requires Digits(digits)
  {
    Encode(Value(0, digits), (|digits| + 1) / 2)
  }

  /** The bytes a text stands for: an atom is its content behind the length of the whole. */
  function Emit(e: Env, x: Text): seq<Byte>
    requires EnvOk(e)
  {
    match x
    case End => []
    case Blank(_, rest) => Emit(e, rest)
    case LongHex(digits, rest) => (if Digits(digits) then HexBytes(digits) else []) + Emit(e, rest)
    case ShortHex(digits, _, rest) => (if Digits(digits) then HexBytes(digits) else []) + Emit(e, rest)
    case Quote(line, rest) => Ascii(Literal(line)) + Emit(e, rest)
    case Comment(_, rest) => Emit(e, rest)
    case Special(name, _, rest) => Plain(e, name) + Emit(e, rest)
    case Atom(body, rest) => Encode(4 + |Emit(e, body)|, 4) + Emit(e, body) + Emit(e, rest)
  }

  /** Without blanks and comments, and with one kind of delimiter. */
  function Bare(x: Text): Text {
    match x
    case End => End
    case Blank(_, rest) => Bare(rest)
    case LongHex(digits, rest) => LongHex(digits, Bare(rest))
    case ShortHex(digits, _, rest) => ShortHex(digits, ' ', Bare(rest))
    case Quote(line, rest) => Quote(Literal(line), Bare(rest))
    case Comment(_, rest) => Bare(rest)
    case Special(name, _, rest) => Special(name, ' ', Bare(rest))
    case Atom(body, rest) => Atom(Bare(body), Bare(rest))
  }

  lemma {:induction false} EmitIgnoresLayout(e: Env, x: Text)
    requires EnvOk(e)
    ensures Emit(e, Bare(x)) == Emit(e, x)
    decreases x
  {
    hide Plain, Encode, HexBytes, Ascii, Literal;
    match x {
      case End =>
      case Atom(body, rest) =>
        EmitIgnoresLayout(e, body);
        EmitIgnoresLayout(e, rest);
      case Quote(line, rest) =>
        LiteralTwice(line);
        EmitIgnoresLayout(e, rest);
      case Blank(_, rest) => EmitIgnoresLayout(e, rest);
      case LongHex(_, rest) => EmitIgnoresLayout(e, rest);
      case ShortHex(_, _, rest) => EmitIgnoresLayout(e, rest);
      case Comment(_, rest) => EmitIgnoresLayout(e, rest);
      case Special(_, _, rest) => EmitIgnoresLayout(e, rest);
    }
  }

  /** Layout and comments do not matter: templates with the same items stand for the same bytes. */
  lemma SameItemsSameBytes(e: Env, x: Text, y: Text)
    requires EnvOk(e) && Bare(x) == Bare(y)
    ensures Emit(e, x) == Emit(e, y)
  {
    EmitIgnoresLayout(e, x);
    EmitIgnoresLayout(e, y);
  }

  /** s stands in t at q. */
  predicate Stands(t: string, q: nat, s: string) {
    q + |s| <= |t| && t[q..q + |s|] == s
  }

  lemma StandsParts(t: string, q: nat, a: string, b: string)
    requires Stands(t, q, a + b)
    ensures Stands(t, q, a) && Stands(t, q + |a|, b)
  {
    assert t[q..q + |a|] == (a + b)[..|a|];
    assert t[q + |a|..q + |a| + |b|] == (a + b)[|a|..];
  }

  lemma StandsAt(t: string, q: nat, s: string, i: nat)
    requires Stands(t, q, s) && i < |s|
    ensures t[q + i] == s[i]
  {
  }

  // ---------- Words, lines, numbers ----------

  lemma {:induction false} ReadsWord(t: string, p: nat, i: nat, name: string)
    requires Stands(t, p, name) && p + |name| < |t| && EndsWord(t[p + |name|])
    requires Word(name) && i + |name| <= 255
    ensures ReadWord(t, p, i) == (name, p + |name| + 1)
    decreases |name|
  {
    if name != "" {
      StandsAt(t, p, name, 0);
      assert name == [name[0]] + name[1..];
      StandsParts(t, p, [name[0]], name[1..]);
      ReadsWord(t, p + 1, i + 1, name[1..]);
    }
  }

  lemma {:induction false} ReadsLine(t: string, p: nat, line: string)
    requires Stands(t, p, line) && p + |line| < |t| && t[p + |line|] == '\n'
    requires forall i :: 0 <= i < |line| ==> line[i] != '\n'
    ensures LineLength(t, p) == |line|
    decreases |line|
  {
    if line != "" {
      StandsAt(t, p, line, 0);
      assert line == [line[0]] + line[1..];
      StandsParts(t, p, [line[0]], line[1..]);
      ReadsLine(t, p + 1, line[1..]);
    }
  }

  /** The digits from position p - 1 on, when l - 1 digits were read before. */
  lemma {:induction false} ReadsHex(t: string, p: nat, digits: string, d: nat, l: nat)
    requires p > 0 && Stands(t, p - 1, digits) && digits != "" && Digits(digits)
    requires 1 <= l && l + |digits| <= 9 && p - 1 + |digits| < |t|
    requires l + |digits| < 9 ==> !IsHex(t[p - 1 + |digits|])
    ensures ReadHex(t, digits[0], p, d, l)
         == (Value(d, digits), l + |digits|, if l + |digits| < 9 then p + |digits| else p - 1 + |digits|)
    decreases |digits|
  {
    assert digits == [digits[0]] + digits[1..];
    StandsParts(t, p - 1, [digits[0]], digits[1..]);
    var d1 := 16 * d + HexDigit(digits[0]);
    if |digits| > 1 {
      StandsAt(t, p, digits[1..], 0);
      ReadsHex(t, p + 1, digits[1..], d1, l + 1);
    } else {
      assert digits[1..] == "";
    }
  }

  // ---------- The compiler on well-formed text ----------

  /** A number of fewer than eight digits uses up the character behind it, whatever that is. */
  lemma CompilesHex(e: Env, t: string, q: nat, digits: string, f: File)
    requires EnvOk(e) && Stands(t, q, digits) && 0 < |digits| <= 8 && Digits(digits) && q + |digits| < |t|
    requires |digits| < 8 ==> !IsHex(t[q + |digits|])
    ensures Item(e, t, t[q], q + 1, f)
         == Outcome(true, q + |digits| + (if |digits| < 8 then 1 else 0), Write(f, HexBytes(digits)))
  {
    StandsAt(t, q, digits, 0);
    ReadsHex(t, q + 1, digits, 0, 1);
  }

  lemma CompilesLine(e: Env, t: string, q: nat, line: string, f: File)
    requires EnvOk(e) && q + 1 + |line| < |t| && Stands(t, q + 1, line) && OneLine(line) && t[q + 1 + |line|] == '\n'
    ensures t[q] == '\'' ==>
      Item(e, t, t[q], q + 1, f) == Outcome(true, q + 1 + |line|, Write(f, Ascii(Literal(line))))
    ensures t[q] == '#' ==> Item(e, t, t[q], q + 1, f) == Outcome(true, q + 1 + |line|, f)
  {
    ReadsLine(t, q + 1, line);
  }

  lemma CompilesWord(e: Env, t: string, q: nat, name: string, f: File)
    requires EnvOk(e) && q + 1 + |name| < |t| && t[q] == '!' && Stands(t, q + 1, name) && Word(name)
    requires IsBlank(t[q + 1 + |name|])
    ensures Item(e, t, t[q], q + 1, f)
         == Outcome(SpecialWord(e, name, f).0, q + |name| + 2, SpecialWord(e, name, f).1)
  {
    ReadsWord(t, q + 1, 0, name);
  }

  /** The content of an atom, when the loop reaches the closing brace behind it. */
  lemma CompilesAtom(e: Env, t: string, q: nat, n: nat, content: seq<Byte>, f: File)
    requires EnvOk(e) && q + n + 1 < |t| && t[q] == '{' && t[q + 1 + n] == '}'
    requires Loop(e, t, t[q + 1], q + 2, Write(f, Encode(0, 4)))
          == Loop(e, t, t[q + 1 + n], q + 2 + n, Write(Write(f, Encode(0, 4)), content))
    ensures Item(e, t, t[q], q + 1, f) == Outcome(true, q + 2 + n, Write(f, Encode(4 + |content|, 4) + content))
  {
    var g := Write(Write(f, Encode(0, 4)), content);
    assert Loop(e, t, '}', q + 2 + n, g) == Outcome(true, q + 2 + n, g);
    ParseStep(e, t, q + 1, f, Outcome(true, q + 2 + n, g));
    WriteTwice(f, Encode(0, 4), content);
    PatchFront(f, Encode(0, 4), content, Encode(4 + |content|, 4));
  }

  lemma ParseStep(e: Env, t: string, p: nat, f: File, r: Outcome)
    requires EnvOk(e) && p < |t| && r.ok && r == Loop(e, t, t[p], p + 1, Write(f, Encode(0, 4)))
    ensures Parse(e, t, p, f, false) == r.(f := Closed(f.pos, r.f))
  {
  }

  /** One round of the loop. */
  lemma Steps(e: Env, t: string, q: nat, r: Outcome, f: File)
    requires EnvOk(e) && q + 1 < |t| && t[q] != '}' && r == Item(e, t, t[q], q + 1, f) && r.ok
    ensures Loop(e, t, t[q], q + 1, f) == Loop(e, t, At(t, r.p), r.p + 1, r.f)
  {
  }

  /** x stands at q, well formed for the character behind it. */
  predicate Placed(t: string, q: nat, x: Text) {
    && Stands(t, q, Render(x)) && q + |Render(x)| < |t|
    && WellFormed(x, t[q + |Render(x)|]) && AllPlain(x)
  }

  /** The loop crosses x and puts out the bytes it stands for. */
  predicate Crossed(e: Env, t: string, q: nat, x: Text, f: File)
    requires EnvOk(e) && q + |Render(x)| < |t|
  {
    var m := q + |Render(x)|;
    Loop(e, t, t[q], q + 1, f) == Loop(e, t, t[m], m + 1, Write(f, Emit(e, x)))
  }

  /** An item of n characters that put out `a`, and then the rest. */
  lemma Continues(e: Env, t: string, q: nat, n: nat, x: Text, rest: Text, f: File, a: seq<Byte>)
    requires EnvOk(e) && n > 0 && q + n + |Render(rest)| < |t| && t[q] != '}'
    requires Item(e, t, t[q], q + 1, f) == Outcome(true, q + n, Write(f, a))
    requires Crossed(e, t, q + n, rest, Write(f, a))
    requires |Render(x)| == n + |Render(rest)| && Emit(e, x) == a + Emit(e, rest)
    ensures Crossed(e, t, q, x, f)
  {
    hide Item, Parse, Loop, Render, Emit;
    Steps(e, t, q, Outcome(true, q + n, Write(f, a)), f);
    WriteTwice(f, a, Emit(e, rest));
  }

  /** Where a well-formed plain text stands, the compiler crosses it and puts out the bytes it stands for. */
  lemma {:induction false} Compiles(e: Env, t: string, q: nat, x: Text, f: File)
    requires EnvOk(e) && Placed(t, q, x)
    ensures Crossed(e, t, q, x, f)
    decreases x, 1
  {
    match x {
      case End => WriteNothing(f);
      case Blank(_, _) => CrossesBlank(e, t, q, x, f);
      case LongHex(_, _) => CrossesLongHex(e, t, q, x, f);
      case ShortHex(_, _, _) => CrossesShortHex(e, t, q, x, f);
      case Quote(_, _) => CrossesQuote(e, t, q, x, f);
      case Comment(_, _) => CrossesComment(e, t, q, x, f);
      case Special(_, _, _) => CrossesSpecial(e, t, q, x, f);
      case Atom(_, _) => CrossesAtom(e, t, q, x, f);
    }
  }

  lemma {:induction false} CrossesBlank(e: Env, t: string, q: nat, x: Text, f: File)
    requires EnvOk(e) && Placed(t, q, x) && x.Blank?
    ensures Crossed(e, t, q, x, f)
    decreases x, 0
  {
    hide Item, Parse, Loop, Render, WellFormed, AllPlain, Emit;
    RestWellFormed(x, t[q + |Render(x)|]);
    BlankUnfolds(e, x, t[q + |Render(x)|]);
    StandsParts(t, q, [x.c], Render(x.rest));
    StandsAt(t, q, [x.c], 0);
    CompilesBlank(e, t, q, f);
    Compiles(e, t, q + 1, x.rest, f);
    assert [] + Emit(e, x.rest) == Emit(e, x.rest);
    Continues(e, t, q, 1, x, x.rest, f, []);
  }

  lemma CompilesBlank(e: Env, t: string, q: nat, f: File)
    requires EnvOk(e) && q + 1 < |t| && IsBlank(t[q])
    ensures Item(e, t, t[q], q + 1, f) == Outcome(true, q + 1, Write(f, [])) && Write(f, []) == f
  {
  }

  lemma {:induction false} CrossesLongHex(e: Env, t: string, q: nat, x: Text, f: File)
    requires EnvOk(e) && Placed(t, q, x) && x.LongHex?
    ensures Crossed(e, t, q, x, f)
    decreases x, 0
  {
    hide Item, Parse, Loop, Render, WellFormed, AllPlain, Emit, HexBytes, Stands;
    RestWellFormed(x, t[q + |Render(x)|]);
    HexUnfolds(e, x, t[q + |Render(x)|]);
    StandsParts(t, q, x.digits, Render(x.rest));
    StandsAt(t, q, x.digits, 0);
    CompilesHex(e, t, q, x.digits, f);
    Compiles(e, t, q + 8, x.rest, Write(f, HexBytes(x.digits)));
    Continues(e, t, q, 8, x, x.rest, f, HexBytes(x.digits));
  }

  lemma {:induction false} CrossesShortHex(e: Env, t: string, q: nat, x: Text, f: File)
    requires EnvOk(e) && Placed(t, q, x) && x.ShortHex?
    ensures Crossed(e, t, q, x, f)
    decreases x, 0
  {
    hide Item, Parse, Loop, Render, WellFormed, AllPlain, Emit, HexBytes, Stands;
    RestWellFormed(x, t[q + |Render(x)|]);
    HexUnfolds(e, x, t[q + |Render(x)|]);
    var n := |x.digits| + 1;
    CompilesShortHex(e, t, q, x.digits, x.delim, Render(x.rest), f);
    Compiles(e, t, q + n, x.rest, Write(f, HexBytes(x.digits)));
    Continues(e, t, q, n, x, x.rest, f, HexBytes(x.digits));
  }

  lemma {:induction false} CrossesQuote(e: Env, t: string, q: nat, x: Text, f: File)
    requires EnvOk(e) && Placed(t, q, x) && x.Quote?
    ensures Crossed(e, t, q, x, f)
    decreases x, 0
  {
    hide Item, Parse, Loop, Render, WellFormed, AllPlain, Emit, Literal, Ascii;
    var a := Ascii(Literal(x.line));
    RestWellFormed(x, t[q + |Render(x)|]);
    QuoteUnfolds(e, x, t[q + |Render(x)|]);
    LineEnds(t, q, '\'', x.line, x.rest);
    CompilesLine(e, t, q, x.line, f);
    Compiles(e, t, q + 1 + |x.line|, x.rest, Write(f, a));
    Continues(e, t, q, 1 + |x.line|, x, x.rest, f, a);
  }

  lemma {:induction false} CrossesComment(e: Env, t: string, q: nat, x: Text, f: File)
    requires EnvOk(e) && Placed(t, q, x) && x.Comment?
    ensures Crossed(e, t, q, x, f)
    decreases x, 0
  {
    hide Item, Parse, Loop, Render, WellFormed, AllPlain, Emit;
    RestWellFormed(x, t[q + |Render(x)|]);
    CommentUnfolds(e, x, t[q + |Render(x)|]);
    LineEnds(t, q, '#', x.line, x.rest);
    CompilesLine(e, t, q, x.line, f);
    WriteNothing(f);
    Compiles(e, t, q + 1 + |x.line|, x.rest, f);
    assert [] + Emit(e, x.rest) == Emit(e, x.rest);
    Continues(e, t, q, 1 + |x.line|, x, x.rest, f, []);
  }

  lemma {:induction false} CrossesSpecial(e: Env, t: string, q: nat, x: Text, f: File)
    requires EnvOk(e) && Placed(t, q, x) && x.Special?
    ensures Crossed(e, t, q, x, f)
    decreases x, 0
  {
    hide Item, Parse, Loop, ReadWord, Plain, Number, Render, WellFormed, AllPlain, Emit, Stands, IsPlain;
    var n := |x.name| + 2;
    RestWellFormed(x, t[q + |Render(x)|]);
    SpecialUnfolds(e, x, t[q + |Render(x)|], f);
    WordStands(t, q, x.name, x.delim, Render(x.rest));
    CompilesWord(e, t, q, x.name, f);
    Compiles(e, t, q + n, x.rest, Write(f, Plain(e, x.name)));
    Continues(e, t, q, n, x, x.rest, f, Plain(e, x.name));
  }

  lemma {:induction false} CrossesAtom(e: Env, t: string, q: nat, x: Text, f: File)
    requires EnvOk(e) && Placed(t, q, x) && x.Atom?
    ensures Crossed(e, t, q, x, f)
    decreases x, 0
  {
    hide Item, Parse, Loop, Render, WellFormed, AllPlain, Emit, Stands;
    var n := |Render(x.body)|;
    var content := Emit(e, x.body);
    var a := Encode(4 + |content|, 4) + content;
    AtomPlaced(t, q, x);
    AtomBytes(e, x);
    Compiles(e, t, q + 1, x.body, Write(f, Encode(0, 4)));
    AtomCrossed(e, t, q, n, x.body, content, f);
    Compiles(e, t, q + n + 2, x.rest, Write(f, a));
    Continues(e, t, q, n + 2, x, x.rest, f, a);
  }

  lemma AtomCrossed(e: Env, t: string, q: nat, n: nat, body: Text, content: seq<Byte>, f: File)
    requires EnvOk(e) && n == |Render(body)| && content == Emit(e, body)
    requires q + n + 2 < |t| && t[q] == '{' && t[q + 1 + n] == '}'
    requires Crossed(e, t, q + 1, body, Write(f, Encode(0, 4)))
    ensures Item(e, t, t[q], q + 1, f) == Outcome(true, q + 2 + n, Write(f, Encode(4 + |content|, 4) + content))
  {
    hide Item, Parse, Loop, Render, Emit;
    CompilesAtom(e, t, q, n, content, f);
  }

  lemma AtomPlaced(t: string, q: nat, x: Text)
    requires Placed(t, q, x) && x.Atom?
    ensures var n := |Render(x.body)|;
      && q + n + 2 + |Render(x.rest)| < |t| && t[q] == '{' && t[q + 1 + n] == '}'
      && Placed(t, q + 1, x.body) && Placed(t, q + n + 2, x.rest)
      && |Render(x)| == n + 2 + |Render(x.rest)|
  {
    hide Render, Stands, WellFormed, AllPlain;
    RestWellFormed(x, t[q + |Render(x)|]);
    AtomRendered(x);
    AtomStands(t, q, Render(x.body), Render(x.rest));
  }

  lemma AtomRendered(x: Text)
    requires x.Atom?
    ensures Render(x) == ['{'] + Render(x.body) + ['}'] + Render(x.rest)
  {
  }

  lemma RestWellFormed(x: Text, next: char)
    requires !x.End? && WellFormed(x, next) && AllPlain(x)
    ensures WellFormed(x.rest, next) && AllPlain(x.rest)
    ensures x.Atom? ==> WellFormed(x.body, '}') && AllPlain(x.body)
  {
  }

  lemma HexUnfolds(e: Env, x: Text, next: char)
    requires EnvOk(e) && (x.LongHex? || x.ShortHex?) && WellFormed(x, next)
    ensures Digits(x.digits) && Emit(e, x) == HexBytes(x.digits) + Emit(e, x.rest)
    ensures x.LongHex? ==> |x.digits| == 8 && Render(x) == x.digits + Render(x.rest)
    ensures x.ShortHex? ==>
              0 < |x.digits| < 8 && IsBlank(x.delim) && Render(x) == x.digits + [x.delim] + Render(x.rest)
  {
  }

  lemma QuoteUnfolds(e: Env, x: Text, next: char)
    requires EnvOk(e) && x.Quote? && WellFormed(x, next)
    ensures Render(x) == ['\''] + x.line + Render(x.rest) && Emit(e, x) == Ascii(Literal(x.line)) + Emit(e, x.rest)
    ensures OneLine(x.line) && (Render(x.rest) + [next])[0] == '\n'
  {
  }

  lemma SpecialUnfolds(e: Env, x: Text, next: char, f: File)
    requires EnvOk(e) && x.Special? && WellFormed(x, next) && AllPlain(x)
    ensures Render(x) == ['!'] + x.name + [x.delim] + Render(x.rest) && Emit(e, x) == Plain(e, x.name) + Emit(e, x.rest)
    ensures Word(x.name) && IsBlank(x.delim) && SpecialWord(e, x.name, f) == (true, Write(f, Plain(e, x.name)))
  {
  }

  lemma CommentUnfolds(e: Env, x: Text, next: char)
    requires EnvOk(e) && x.Comment? && WellFormed(x, next) && AllPlain(x)
    ensures Render(x) == ['#'] + x.line + Render(x.rest) && Emit(e, x) == Emit(e, x.rest)
    ensures OneLine(x.line) && (Render(x.rest) + [next])[0] == '\n'
  {
  }

  lemma BlankUnfolds(e: Env, x: Text, next: char)
    requires EnvOk(e) && x.Blank? && WellFormed(x, next) && AllPlain(x)
    ensures Render(x) == [x.c] + Render(x.rest) && Emit(e, x) == Emit(e, x.rest) && IsBlank(x.c)
  {
  }

  lemma AtomBytes(e: Env, x: Text)
    requires EnvOk(e) && x.Atom?
    ensures Emit(e, x) == Encode(4 + |Emit(e, x.body)|, 4) + Emit(e, x.body) + Emit(e, x.rest)
  {
  }

  lemma CompilesShortHex(e: Env, t: string, q: nat, digits: string, delim: char, rest: string, f: File)
    requires EnvOk(e) && Stands(t, q, digits + [delim] + rest) && q + |digits| + 1 + |rest| < |t|
    requires 0 < |digits| < 8 && Digits(digits) && IsBlank(delim)
    ensures Item(e, t, t[q], q + 1, f) == Outcome(true, q + |digits| + 1, Write(f, HexBytes(digits)))
    ensures Stands(t, q + |digits| + 1, rest) && t[q] == digits[0]
  {
    hide Item, HexBytes, Stands, ReadHex;
    StandsParts(t, q, digits + [delim], rest);
    StandsParts(t, q, digits, [delim]);
    StandsAt(t, q + |digits|, [delim], 0);
    StandsAt(t, q, digits, 0);
    CompilesHex(e, t, q, digits, f);
  }

  lemma LineEnds(t: string, q: nat, mark: char, line: string, rest: Text)
    requires Stands(t, q, [mark] + line + Render(rest)) && q + 1 + |line| + |Render(rest)| < |t|
    requires (Render(rest) + [t[q + 1 + |line| + |Render(rest)|]])[0] == '\n'
    ensures t[q] == mark && Stands(t, q + 1, line) && t[q + 1 + |line|] == '\n' && Stands(t, q + 1 + |line|, Render(rest))
  {
    hide Render, Stands;
    StandsParts(t, q, [mark] + line, Render(rest));
    StandsParts(t, q, [mark], line);
    StandsAt(t, q, [mark], 0);
    if Render(rest) != "" {
      StandsAt(t, q + 1 + |line|, Render(rest), 0);
    }
  }

  lemma WordStands(t: string, q: nat, name: string, delim: char, rest: string)
    requires Stands(t, q, ['!'] + name + [delim] + rest)
    ensures t[q] == '!' && Stands(t, q + 1, name) && t[q + 1 + |name|] == delim && Stands(t, q + 2 + |name|, rest)
  {
    StandsParts(t, q, ['!'] + name + [delim], rest);
    StandsParts(t, q, ['!'] + name, [delim]);
    StandsParts(t, q, ['!'], name);
    StandsAt(t, q, ['!'], 0);
    StandsAt(t, q + 1 + |name|, [delim], 0);
  }

  lemma AtomStands(t: string, q: nat, body: string, rest: string)
    requires Stands(t, q, ['{'] + body + ['}'] + rest)
    ensures var n := |body|;
      t[q] == '{' && Stands(t, q + 1, body) && t[q + 1 + n] == '}' && Stands(t, q + n + 2, rest)
  {
    StandsParts(t, q, ['{'] + body + ['}'], rest);
    StandsParts(t, q, ['{'] + body, ['}']);
    StandsParts(t, q, ['{'], body);
    StandsAt(t, q, ['{'], 0);
    StandsAt(t, q + 1 + |body|, ['}'], 0);
  }

  /** One pass over a whole template file: the text and one more character, a newline in practice. */
  lemma PassEmits(e: Env, x: Text, last: char, f: File)
    requires EnvOk(e) && WellFormed(x, last) && AllPlain(x)
    ensures Pass(e, Render(x) + [last], 0, f) == Write(f, Emit(e, x))
  {
    var t := Render(x) + [last];
    assert t[0..0 + |Render(x)|] == Render(x);
    Compiles(e, t, 0, x, f);
    OnePass(e, t, f, Outcome(true, |t|, Write(f, Emit(e, x))));
  }

  /** A pass whose first call of parse uses the text up. */
  lemma OnePass(e: Env, t: string, f: File, r: Outcome)
    requires EnvOk(e) && t != "" && r == Loop(e, t, t[0], 1, f) && r.p >= |t|
    ensures Pass(e, t, 0, f) == r.f
  {
  }
}
