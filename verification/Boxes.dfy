/**
  Atoms as a reader of the file sees them: a length, a tag and a content that is data or again atoms, as in
  section 4.2 of ISO/IEC 14496-12, and a walker that finds its way by the lengths alone.
 */
module Boxes {
  import opened Bytes
  import opened BigEndian

  type Tag = seq<Byte>

  /** A list of atoms. */
  datatype Atoms =
    | Nil
    | Data(tag: Tag, bytes: seq<Byte>, rest: Atoms)
    | Container(tag: Tag, kids: Atoms, rest: Atoms)

  /** One atom: its length, which counts itself and the tag, the tag, the content. */
  function Framed(tag: Tag, content: seq<Byte>): seq<Byte> {
    Encode(4 + |tag + content|, 4) + (tag + content)
  }

  function Serialize(b: Atoms): seq<Byte> {
    match b
    case Nil => []
    case Data(tag, bytes, rest) => Framed(tag, bytes) + Serialize(rest)
    case Container(tag, kids, rest) => Framed(tag, Serialize(kids)) + Serialize(rest)
  }

  datatype Found = Parsed(list: Atoms) | Malformed

  /** The walker: `nested` says which tags hold atoms. */
  function Walk(s: seq<Byte>, nested: set<Tag>): Found
    decreases |s|
  {
    if s == [] then Parsed(Nil)
    else if |s| < 8 then Malformed
    else
      var n := Decode(s[..4]);
      if n < 8 || n > |s| then Malformed
      else
        var tag, content, rest := s[4..8], s[8..n], Walk(s[n..], nested);
        if rest.Malformed? then Malformed
        else if tag !in nested then Parsed(Data(tag, content, rest.list))
        else
          var kids := Walk(content, nested);
          if kids.Malformed? then Malformed else Parsed(Container(tag, kids.list, rest.list))
  }

  /** Tags of four bytes, and containers just where `nested` says so. */
  predicate Proper(b: Atoms, nested: set<Tag>) {
    match b
    case Nil => true
    case Data(tag, _, rest) => |tag| == 4 && tag !in nested && Proper(rest, nested)
    case Container(tag, kids, rest) => |tag| == 4 && tag in nested && Proper(kids, nested) && Proper(rest, nested)
  }

  lemma FramedParts(tag: Tag, content: seq<Byte>, rest: seq<Byte>)
    requires |tag| == 4 && 8 + |content| < 0x1_0000_0000
    ensures var s := Framed(tag, content) + rest; var n := 8 + |content|;
      && |s| == n + |rest| && Decode(s[..4]) == n && s[4..8] == tag && s[8..n] == content && s[n..] == rest
  {
    Limit4();
    DecodeEncode(8 + |content|, 4);
    hide Encode, Decode;
    FourParts(Encode(8 + |content|, 4), tag, content, rest);
  }

  lemma FourParts(head: seq<Byte>, tag: Tag, content: seq<Byte>, rest: seq<Byte>)
    requires |head| == |tag| == 4
    ensures var s := head + (tag + content) + rest; var n := 8 + |content|;
      && |s| == n + |rest| && s[..4] == head && s[4..8] == tag && s[8..n] == content && s[n..] == rest
  {
    var s, n := head + (tag + content) + rest, 8 + |content|;
    assert s[4..8] == tag;
    assert forall i :: 0 <= i < |content| ==> s[8 + i] == content[i];
    assert s[8..n] == content;
  }

  /** What the walker finds is what was serialized. */
  lemma {:induction false} WalkSerialize(b: Atoms, nested: set<Tag>)
    requires Proper(b, nested) && |Serialize(b)| < 0x1_0000_0000
    ensures Walk(Serialize(b), nested) == Parsed(b)
    decreases b
  {
    hide Framed, Encode, Decode;
    match b {
      case Nil =>
      case Data(tag, bytes, rest) =>
        assert |Framed(tag, bytes)| == 8 + |bytes| by { FramedLength(tag, bytes); }
        FramedParts(tag, bytes, Serialize(rest));
        WalkSerialize(rest, nested);
      case Container(tag, kids, rest) =>
        assert |Framed(tag, Serialize(kids))| == 8 + |Serialize(kids)| by { FramedLength(tag, Serialize(kids)); }
        FramedParts(tag, Serialize(kids), Serialize(rest));
        WalkSerialize(kids, nested);
        WalkSerialize(rest, nested);
    }
  }

  lemma FramedLength(tag: Tag, content: seq<Byte>)
    requires |tag| == 4
    ensures |Framed(tag, content)| == 8 + |content|
  {
  }

  /** Only what the walker finds was there: it skips nothing and reads nothing twice. */
  lemma {:induction false} SerializeWalk(s: seq<Byte>, nested: set<Tag>)
    requires Walk(s, nested).Parsed?
    ensures Serialize(Walk(s, nested).list) == s && Proper(Walk(s, nested).list, nested)
    decreases |s|
  {
    hide Framed, Encode, Decode;
    if s != [] {
      var n := Decode(s[..4]);
      SerializeWalk(s[n..], nested);
      if s[4..8] in nested {
        SerializeWalk(s[8..n], nested);
      }
      FramedBack(s, n);
    }
  }

  lemma FramedBack(s: seq<Byte>, n: nat)
    requires 8 <= n <= |s| && n == Decode(s[..4])
    ensures Framed(s[4..8], s[8..n]) + s[n..] == s
  {
    EncodeDecode(s[..4]);
    assert s[4..8] + s[8..n] == s[4..n];
    assert s == s[..4] + s[4..n] + s[n..];
  }
}
