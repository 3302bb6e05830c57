/** What the compiler puts at a given offset of an atom of the template. */
module SketchOffsets {
  import opened Bytes
  import opened BigEndian
  import opened Template
  import opened TemplateGrammar
  import opened Sketches
  import opened QtTables

  /** What is left of a sketch without its first `at` bytes, if an item begins there; else Done. */
  function Drop(s: Sketch, at: nat): Sketch {
    match s
    case Done => Done
    case Numbers(k, values, rest) =>
      var w := (k + 1) / 2;
      if at >= |values| * w then Drop(rest, at - |values| * w)
      else if at % w == 0 && at / w < |values| then Numbers(k, values[at / w..], rest) else Done
    case Name(word, rest) =>
      if at >= LengthOf(word) then Drop(rest, at - LengthOf(word)) else if at == 0 then s else Done
    case Slot(field, rest) =>
      if at >= WidthOf(field) then Drop(rest, at - WidthOf(field)) else if at == 0 then s else Done
    case _ => if at == 0 then s else Done
  }

  /** Behind the first row of numbers, literal or special. */
  lemma StepOver(s: Sketch, at: nat, n: nat)
    requires s.Numbers? || s.Name? || s.Slot?
    requires s.Numbers? ==> n == |s.values| * ((s.k + 1) / 2)
    requires s.Name? ==> n == LengthOf(s.word)
    requires s.Slot? ==> n == WidthOf(s.field)
    requires at >= n
    ensures Drop(s, at) == Drop(s.rest, at - n)
  {
    hide LengthOf, WidthOf;
  }

  /** At the start of an item. */
  lemma StartsHere(s: Sketch)
    requires (s.Name? && LengthOf(s.word) > 0) || s.Slot? || (s.Numbers? && s.values != [] && s.k > 0)
    ensures Drop(s, 0) == s
  {
    if s.Numbers? {
      assert s.values[0..] == s.values;
      Positive(|s.values|, (s.k + 1) / 2);
    }
  }

  lemma Positive(a: nat, b: nat)
    requires a > 0 && b > 0
    ensures a * b > 0
  {
  }

  /** The bytes a sketch stands for. */
  function Out(e: Env, s: Sketch): seq<Byte>
    requires EnvOk(e)
  {
    Emit(e, TextOf(s))
  }

  /** From `at` on, `s` stands for what `t` stands for. */
  predicate Leads(e: Env, s: Sketch, at: nat, t: Sketch)
    requires EnvOk(e)
  {
    at <= |Out(e, s)| && Out(e, s)[at..] == Out(e, t)
  }

  lemma LeadsOn(e: Env, s: Sketch, at: nat, t: Sketch, more: nat, u: Sketch)
    requires EnvOk(e) && Leads(e, s, at, t) && Leads(e, t, more, u)
    ensures Leads(e, s, at + more, u)
  {
    hide Out;
    assert Out(e, s)[at..][more..] == Out(e, s)[at + more..];
  }

  lemma FrontOff(e: Env, front: seq<Byte>, s: Sketch, t: Sketch)
    requires EnvOk(e) && Out(e, s) == front + Out(e, t)
    ensures Leads(e, s, |front|, t)
  {
  }

  lemma OneNumberOn(e: Env, k: nat, values: seq<nat>, rest: Sketch)
    requires EnvOk(e) && 0 < k <= 8 && values != []
    ensures Leads(e, Numbers(k, values, rest), (k + 1) / 2, Numbers(k, values[1..], rest))
  {
    hide HexString, Value, Encode;
    var more := TextOf(Numbers(k, values[1..], rest));
    assert Emit(e, Blank(' ', more)) == Emit(e, more);
    FrontOff(e, HexBytes(HexString(values[0], k)), Numbers(k, values, rest), Numbers(k, values[1..], rest));
  }

  lemma {:induction false} RowOn(e: Env, k: nat, values: seq<nat>, n: nat, rest: Sketch)
    requires EnvOk(e) && 0 < k <= 8 && n <= |values|
    ensures Leads(e, Numbers(k, values, rest), n * ((k + 1) / 2), Numbers(k, values[n..], rest))
    decreases n
  {
    hide Out;
    if n == 0 {
      assert values[0..] == values;
    } else {
      OneNumberOn(e, k, values, rest);
      RowOn(e, k, values[1..], n - 1, rest);
      assert values[1..][n - 1..] == values[n..];
      LeadsOn(e, Numbers(k, values, rest), (k + 1) / 2, Numbers(k, values[1..], rest),
              (n - 1) * ((k + 1) / 2), Numbers(k, values[n..], rest));
      Distributes(n, (k + 1) / 2);
    }
  }

  lemma Distributes(n: nat, w: nat)
    requires n > 0
    ensures w + (n - 1) * w == n * w
  {
  }

  lemma WholeRowOn(e: Env, k: nat, values: seq<nat>, rest: Sketch)
    requires EnvOk(e) && 0 < k <= 8
    ensures Leads(e, Numbers(k, values, rest), |values| * ((k + 1) / 2), rest)
  {
    RowOn(e, k, values, |values|, rest);
    assert values[|values|..] == [];
    NoNumber(e, k, rest);
  }

  lemma NameOn(e: Env, l: Label, rest: Sketch)
    requires EnvOk(e)
    ensures Leads(e, Name(l, rest), LengthOf(l), rest) && LengthOf(l) <= |Out(e, Name(l, rest))|
    ensures Out(e, Name(l, rest))[..LengthOf(l)] == Ascii(LineOf(l))
  {
    hide LineOf, Literal, LengthOf;
    LabelIs(l);
    LabelLiteral(l);
    assert Emit(e, Blank('\n', TextOf(rest))) == Emit(e, TextOf(rest));
    FrontOff(e, Ascii(LineOf(l)), Name(l, rest), rest);
  }

  lemma SlotOn(e: Env, f: Field, rest: Sketch)
    requires EnvOk(e)
    ensures Leads(e, Slot(f, rest), WidthOf(f), rest) && WidthOf(f) <= |Out(e, Slot(f, rest))|
    ensures Out(e, Slot(f, rest))[..WidthOf(f)] == Encode(Template.Number(e, NameOf(f)).0, WidthOf(f))
  {
    hide NameOf, Encode, Template.Number, NumberWidth, WidthOf;
    FieldIs(f);
    FrontOff(e, Encode(Template.Number(e, NameOf(f)).0, WidthOf(f)), Slot(f, rest), rest);
  }

  lemma Cancel(at: nat, w: nat)
    requires w > 0 && at % w == 0
    ensures at / w * w == at
  {
  }

  lemma InRowOn(e: Env, k: nat, values: seq<nat>, rest: Sketch, at: nat)
    requires EnvOk(e) && 0 < k <= 8
    requires var w := (k + 1) / 2; at % w == 0 && at / w < |values|
    ensures Leads(e, Numbers(k, values, rest), at, Numbers(k, values[at / ((k + 1) / 2)..], rest))
  {
    hide Leads;
    RowOn(e, k, values, at / ((k + 1) / 2), rest);
    Cancel(at, (k + 1) / 2);
  }

  lemma BehindRow(e: Env, k: nat, values: seq<nat>, rest: Sketch, at: nat, u: Sketch)
    requires EnvOk(e) && 0 < k <= 8
    requires var n := |values| * ((k + 1) / 2); at >= n && Leads(e, rest, at - n, u)
    ensures Leads(e, Numbers(k, values, rest), at, u)
  {
    hide Leads;
    var n := |values| * ((k + 1) / 2);
    WholeRowOn(e, k, values, rest);
    LeadsOn(e, Numbers(k, values, rest), n, rest, at - n, u);
  }

  lemma BehindName(e: Env, l: Label, rest: Sketch, at: nat, u: Sketch)
    requires EnvOk(e) && at >= LengthOf(l) && Leads(e, rest, at - LengthOf(l), u)
    ensures Leads(e, Name(l, rest), at, u)
  {
    hide Leads, LengthOf, LineOf, Out, Ascii;
    NameOn(e, l, rest);
    LeadsOn(e, Name(l, rest), LengthOf(l), rest, at - LengthOf(l), u);
  }

  lemma BehindSlot(e: Env, f: Field, rest: Sketch, at: nat, u: Sketch)
    requires EnvOk(e) && at >= WidthOf(f) && Leads(e, rest, at - WidthOf(f), u)
    ensures Leads(e, Slot(f, rest), at, u)
  {
    hide Leads, WidthOf, NameOf, Out, Encode, Template.Number;
    SlotOn(e, f, rest);
    LeadsOn(e, Slot(f, rest), WidthOf(f), rest, at - WidthOf(f), u);
  }

  lemma LeadsToItself(e: Env, s: Sketch)
    requires EnvOk(e)
    ensures Leads(e, s, 0, s)
  {
  }

  /** Dropping items drops their bytes. */
  lemma {:induction false} DropLeads(e: Env, s: Sketch, at: nat)
    requires EnvOk(e) && MeasureOf(s).ok && !Drop(s, at).Done?
    ensures Leads(e, s, at, Drop(s, at))
    decreases s
  {
    hide Leads, LengthOf, WidthOf;
    LeadsToItself(e, s);
    match s {
      case Numbers(k, values, rest) =>
        var n := |values| * ((k + 1) / 2);
        if at >= n {
          DropLeads(e, rest, at - n);
          BehindRow(e, k, values, rest, at, Drop(s, at));
        } else {
          InRowOn(e, k, values, rest, at);
        }
      case Name(word, rest) =>
        if at >= LengthOf(word) {
          DropLeads(e, rest, at - LengthOf(word));
          BehindName(e, word, rest, at, Drop(s, at));
        }
      case Slot(field, rest) =>
        if at >= WidthOf(field) {
          DropLeads(e, rest, at - WidthOf(field));
          BehindSlot(e, field, rest, at, Drop(s, at));
        }
      case _ =>
    }
  }

  lemma SliceAt(s: seq<Byte>, at: nat, n: nat)
    requires at <= |s| && n <= |s[at..]|
    ensures at + n <= |s| && s[at..at + n] == s[at..][..n]
  {
  }

  /** A special at an offset: its number. */
  lemma SlotAt(e: Env, s: Sketch, at: nat, f: Field)
    requires EnvOk(e) && MeasureOf(s).ok && Drop(s, at).Slot? && Drop(s, at).field == f
    ensures at + WidthOf(f) <= |Out(e, s)|
    ensures Decode(Out(e, s)[at..at + WidthOf(f)]) == Template.Number(e, NameOf(f)).0 % Limit(WidthOf(f))
  {
    hide Out, NameOf, WidthOf, Template.Number, MeasureOf, Drop;
    DropLeads(e, s, at);
    SlotOn(e, f, Drop(s, at).rest);
    SliceAt(Out(e, s), at, WidthOf(f));
    DecodeTruncates(Template.Number(e, NameOf(f)).0, WidthOf(f));
  }

  /** A number at an offset. */
  lemma NumberAt(e: Env, s: Sketch, at: nat, k: nat, v: nat)
    requires EnvOk(e) && MeasureOf(s).ok && v < Pow16(k) && v < Limit((k + 1) / 2) && 0 < k <= 8
    requires var t := Drop(s, at); t.Numbers? && t.k == k && t.values != [] && t.values[0] == v
    ensures at + (k + 1) / 2 <= |Out(e, s)| && Decode(Out(e, s)[at..at + (k + 1) / 2]) == v
  {
    hide MeasureOf, Pow16, Limit, Encode, Decode;
    var t, w := Drop(s, at), (k + 1) / 2;
    DropLeads(e, s, at);
    hide Drop;
    NumberEmits(e, k, t.values, t.rest);
    SliceAt(Out(e, s), at, w);
    DecodeEncode(v, w);
    hide Emit, TextOf;
  }

  /** A literal at an offset. */
  lemma NameAt(e: Env, s: Sketch, at: nat, l: Label)
    requires EnvOk(e) && MeasureOf(s).ok && Drop(s, at).Name? && Drop(s, at).word == l
    ensures at + LengthOf(l) <= |Out(e, s)| && Out(e, s)[at..at + LengthOf(l)] == Ascii(LineOf(l))
  {
    hide Out, LineOf, LengthOf, MeasureOf, Drop;
    DropLeads(e, s, at);
    NameOn(e, l, Drop(s, at).rest);
    SliceAt(Out(e, s), at, LengthOf(l));
  }
}
