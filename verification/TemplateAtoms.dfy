/** The atom tree of a template, and the theorem that a reader of the compiled file recovers it. */
module TemplateAtoms {
  import opened BigEndian
  import opened SparseFile
  import opened Template
  import opened Literals
  import opened TemplateGrammar
  import opened Boxes

  /** The tag an atom begins with, and what follows it. */
  datatype Heading = Heading(tag: Tag, rest: Text) | Untagged

  function Head(x: Text): (h: Heading)
    ensures h.Heading? ==> |h.tag| == 4 && h.rest < x
  {
    match x
    case Blank(_, rest) => Head(rest)
    case Comment(_, rest) => Head(rest)
    case Quote(line, rest) => if |Literal(line)| == 4 then Heading(Ascii(Literal(line)), rest) else Untagged
    case _ => Untagged
  }

  /** Nothing but tagged atoms here and in every atom with a tag in `nested`. */
  predicate AtomsOnly(x: Text, nested: set<Tag>) {
    match x
    case End => true
    case Blank(_, rest) => AtomsOnly(rest, nested)
    case Comment(_, rest) => AtomsOnly(rest, nested)
    case Atom(body, rest) =>
      var h := Head(body);
      && h.Heading?
      && (h.tag in nested ==> AtomsOnly(h.rest, nested))
      && AtomsOnly(rest, nested)
    case _ => false
  }

  /** The atoms a template describes. */
  function Tree(e: Env, x: Text, nested: set<Tag>): Atoms
    requires EnvOk(e) && AtomsOnly(x, nested)
  {
    match x
    case End => Nil
    case Blank(_, rest) => Tree(e, rest, nested)
    case Comment(_, rest) => Tree(e, rest, nested)
    case Atom(body, rest) =>
      var h := Head(body);
      if h.tag in nested then Container(h.tag, Tree(e, h.rest, nested), Tree(e, rest, nested))
      else Data(h.tag, Emit(e, h.rest), Tree(e, rest, nested))
  }

  lemma {:induction false} HeadIgnoresLayout(x: Text)
    ensures Head(Bare(x)) == match Head(x) case Heading(tag, rest) => Heading(tag, Bare(rest)) case Untagged => Untagged
    decreases x
  {
    hide Literal, Ascii;
    match x {
      case Blank(_, rest) => HeadIgnoresLayout(rest);
      case Comment(_, rest) => HeadIgnoresLayout(rest);
      case Quote(line, _) => LiteralTwice(line);
      case _ =>
    }
  }

  /** Blanks and comments do not change the atoms. */
  lemma {:induction false} TreeIgnoresLayout(e: Env, x: Text, nested: set<Tag>)
    requires EnvOk(e)
    ensures AtomsOnly(Bare(x), nested) <==> AtomsOnly(x, nested)
    ensures AtomsOnly(x, nested) ==> Tree(e, Bare(x), nested) == Tree(e, x, nested)
    decreases x
  {
    hide Literal, Ascii, Head, Emit;
    match x {
      case Blank(_, rest) => TreeIgnoresLayout(e, rest, nested);
      case Comment(_, rest) => TreeIgnoresLayout(e, rest, nested);
      case Atom(body, rest) =>
        HeadIgnoresLayout(body);
        TreeIgnoresLayout(e, rest, nested);
        if Head(body).Heading? {
          EmitIgnoresLayout(e, Head(body).rest);
          TreeIgnoresLayout(e, Head(body).rest, nested);
        }
      case _ =>
    }
  }

  lemma {:induction false} HeadEmits(e: Env, x: Text)
    requires EnvOk(e) && Head(x).Heading?
    ensures Emit(e, x) == Head(x).tag + Emit(e, Head(x).rest)
    decreases x
  {
    match x {
      case Blank(_, rest) => HeadEmits(e, rest);
      case Comment(_, rest) => HeadEmits(e, rest);
      case Quote(_, _) =>
    }
  }

  /** The bytes a template stands for are its atoms, each behind its own length. */
  lemma {:induction false} EmitIsSerialized(e: Env, x: Text, nested: set<Tag>)
    requires EnvOk(e) && AtomsOnly(x, nested)
    ensures Serialize(Tree(e, x, nested)) == Emit(e, x) && Proper(Tree(e, x, nested), nested)
    decreases x
  {
    hide Literal, Ascii, Head, Encode;
    match x {
      case End =>
      case Blank(_, rest) => EmitIsSerialized(e, rest, nested);
      case Comment(_, rest) => EmitIsSerialized(e, rest, nested);
      case Atom(body, rest) =>
        var h := Head(body);
        HeadEmits(e, body);
        EmitIsSerialized(e, rest, nested);
        if h.tag in nested {
          EmitIsSerialized(e, h.rest, nested);
        }
    }
  }

  /** A pass over any well-formed template of tagged atoms writes bytes from which a walker that goes by the
      lengths alone recovers the atoms of the template. */
  lemma WalkerRecoversTemplate(e: Env, x: Text, last: char, f: File, nested: set<Tag>)
    requires EnvOk(e) && WellFormed(x, last) && AllPlain(x) && AtomsOnly(x, nested)
    requires |Emit(e, x)| < 0x1_0000_0000
    ensures Pass(e, Render(x) + [last], 0, f) == Write(f, Emit(e, x))
    ensures Walk(Emit(e, x), nested) == Parsed(Tree(e, x, nested))
  {
    hide Pass, Render, WellFormed, AllPlain, AtomsOnly, Tree, Emit, Walk, Serialize;
    PassEmits(e, x, last, f);
    EmitIsSerialized(e, x, nested);
    WalkSerialize(Tree(e, x, nested), nested);
  }
}
