/** The whole movie file to a reader that goes by the lengths of the atoms alone, and where it comes to grief. */
module WholeFile {
  import opened Bytes
  import opened BigEndian
  import opened SparseFile
  import opened Template
  import opened TemplateGrammar
  import opened TemplateAtoms
  import opened Boxes
  import opened MovLayout
  import opened MovFile
  import opened MovPlayer
  import opened QtSource
  import opened MovReader

  /** The first n bytes of the file; what was never written reads as zero. */
  function FileBytes(cells: map<nat, Byte>, n: nat): (s: seq<Byte>)
    ensures |s| == n
  {
    seq(n, i requires 0 <= i => if i in cells then cells[i] else 0)
  }

  lemma FileHas(cells: map<nat, Byte>, n: nat, at: nat, data: seq<Byte>)
    requires HasAt(cells, at, data) && at + |data| <= n
    ensures FileBytes(cells, n)[at..at + |data|] == data
  {
  }

  // ---------- Walking on behind atoms ----------

  function Join(a: Atoms, b: Atoms): Atoms {
    match a
    case Nil => b
    case Data(tag, bytes, rest) => Data(tag, bytes, Join(rest, b))
    case Container(tag, kids, rest) => Container(tag, kids, Join(rest, b))
  }

  /** Atoms in front of whatever the walker makes of the rest. */
  function Prefixed(a: Atoms, w: Found): Found {
    if w.Malformed? then Malformed else Parsed(Join(a, w.list))
  }

  lemma JoinOne(tag: Tag, bytes: seq<Byte>, b: Atoms)
    ensures Join(Data(tag, bytes, Nil), b) == Data(tag, bytes, b)
  {
    assert Join(Nil, b) == b;
  }

  /** The walker at one atom. */
  lemma WalkOne(tag: Tag, content: seq<Byte>, s: seq<Byte>, nested: set<Tag>)
    requires |tag| == 4 && 8 + |content| < 0x1_0000_0000
    ensures var w, kids := Walk(s, nested), Walk(content, nested);
      Walk(Framed(tag, content) + s, nested)
      == if w.Malformed? then Malformed
         else if tag !in nested then Parsed(Data(tag, content, w.list))
         else if kids.Malformed? then Malformed else Parsed(Container(tag, kids.list, w.list))
  {
    FramedParts(tag, content, s);
    hide Framed, Decode;
  }

  lemma WalkData(tag: Tag, bytes: seq<Byte>, s: seq<Byte>, nested: set<Tag>)
    requires |tag| == 4 && tag !in nested && 8 + |bytes| < 0x1_0000_0000
    ensures Walk(Framed(tag, bytes) + s, nested) == Prefixed(Data(tag, bytes, Nil), Walk(s, nested))
  {
    hide Framed, Walk, Join;
    WalkOne(tag, bytes, s, nested);
    if Walk(s, nested).Parsed? {
      JoinOne(tag, bytes, Walk(s, nested).list);
    }
  }

  /** The walker crosses serialized atoms and goes on behind them. */
  lemma {:induction false} WalkOn(a: Atoms, s: seq<Byte>, nested: set<Tag>)
    requires Proper(a, nested) && |Serialize(a)| < 0x1_0000_0000
    ensures Walk(Serialize(a) + s, nested) == Prefixed(a, Walk(s, nested))
    decreases a
  {
    hide Framed, Walk;
    match a {
      case Nil => assert [] + s == s;
      case Data(tag, bytes, rest) =>
        FramedLength(tag, bytes);
        WalkOn(rest, s, nested);
        WalkOne(tag, bytes, Serialize(rest) + s, nested);
        assert Serialize(a) + s == Framed(tag, bytes) + (Serialize(rest) + s);
      case Container(tag, kids, rest) =>
        FramedLength(tag, Serialize(kids));
        WalkOn(rest, s, nested);
        WalkSerialize(kids, nested);
        WalkOne(tag, Serialize(kids), Serialize(rest) + s, nested);
        assert Serialize(a) + s == Framed(tag, Serialize(kids)) + (Serialize(rest) + s);
    }
  }

  // ---------- The data atom and what it leaves over ----------

  /** What the walker makes of the last eight bytes of the file. */
  lemma WalkEight(t: seq<Byte>, nested: set<Tag>)
    requires |t| == 8
    ensures Walk(t, nested).Malformed? <==> Decode(t[..4]) != 8
    ensures Decode(t[..4]) == 8 ==>
      Walk(t, nested) == Parsed(if t[4..] in nested then Container(t[4..], Nil, Nil) else Data(t[4..], [], Nil))
  {
    hide Decode;
    if Decode(t[..4]) == 8 {
      assert t[8..] == [] && t[8..8] == [] && t[4..8] == t[4..];
    }
  }

  /** A data atom whose length does not count its own eight bytes, in front of its data. */
  lemma WalkShort(tag: Tag, data: seq<Byte>, nested: set<Tag>)
    requires |tag| == 4 && tag !in nested && |data| < 0x1_0000_0000
    ensures Walk(Encode(|data|, 4) + tag + data, nested)
         == if |data| < 8 then Malformed
            else Prefixed(Data(tag, data[..|data| - 8], Nil), Walk(data[|data| - 8..], nested))
  {
    if |data| < 8 {
      TooShort(tag, data, nested);
    } else {
      hide Encode, Walk, Prefixed;
      assert data == data[..|data| - 8] + data[|data| - 8..];
      WalkUnder(tag, data[..|data| - 8], data[|data| - 8..], nested);
    }
  }

  lemma WalkUnder(tag: Tag, front: seq<Byte>, back: seq<Byte>, nested: set<Tag>)
    requires |tag| == 4 && tag !in nested && |front| + 8 < 0x1_0000_0000
    ensures Walk(Encode(|front| + 8, 4) + tag + (front + back), nested)
         == Prefixed(Data(tag, front, Nil), Walk(back, nested))
  {
    hide Encode, Walk, Prefixed;
    assert 4 + |tag + front| == |front| + 8;
    assert Framed(tag, front) == Encode(|front| + 8, 4) + (tag + front);
    hide Framed;
    Regrouped(Encode(|front| + 8, 4), tag, front, back);
    WalkData(tag, front, back, nested);
  }

  lemma Regrouped(a: seq<Byte>, b: seq<Byte>, c: seq<Byte>, d: seq<Byte>)
    ensures a + b + (c + d) == a + (b + c) + d
  {
  }

  lemma TooShort(tag: Tag, data: seq<Byte>, nested: set<Tag>)
    requires |tag| == 4 && |data| < 8
    ensures Walk(Encode(|data|, 4) + tag + data, nested) == Malformed
  {
    Limit4();
    DecodeEncode(|data|, 4);
    hide Encode, Decode;
    assert (Encode(|data|, 4) + tag + data)[..4] == Encode(|data|, 4);
  }

  // ---------- The recorded file ----------

  lemma {:induction false} FramesJoined(cells: map<nat, Byte>, start: nat, frames: seq<seq<Byte>>, k: nat, n: nat)
    requires k <= |frames| && start + Before(frames, k) <= n
    requires forall i :: 0 <= i < k ==> InPlace(cells, start, frames, i)
    ensures FileBytes(cells, n)[start..start + Before(frames, k)] == Concat(frames[..k])
    decreases k
  {
    if k > 0 {
      hide HasAt, FileBytes;
      assert InPlace(cells, start, frames, k - 1);
      FramesJoined(cells, start, frames, k - 1, n);
      FileHas(cells, n, start + Before(frames, k - 1), frames[k - 1]);
      ConcatAppend(frames[..k - 1], [frames[k - 1]]);
      ConcatOne(frames[k - 1]);
      assert frames[..k] == frames[..k - 1] + [frames[k - 1]];
      var s, m := FileBytes(cells, n), start + Before(frames, k - 1);
      assert s[start..m] + s[m..m + |frames[k - 1]|] == s[start..m + |frames[k - 1]|];
    }
  }

  lemma DataThere(e: Env, h: Header, f: File, frames: seq<seq<Byte>>)
    requires EnvOk(e) && Fits(e, HeaderText(h), h)
    requires Recorded(f, e.headerSize, frames) && SizesOf(e.sizes, frames) && e.nframes == |frames|
    ensures e.headerSize <= f.pos && |Concat(frames)| == Sum(e.sizes, e.nframes) == f.pos - e.headerSize
    ensures FileBytes(Compile(e, HeaderText(h), f).cells, f.pos)[e.headerSize..] == Concat(frames)
  {
    hide Compile, HeaderText, Fits, HasAt, SizesOf, Indexed, FileBytes;
    var cells := Compile(e, HeaderText(h), f).cells;
    forall i | 0 <= i < |frames|
      ensures InPlace(cells, e.headerSize, frames, i)
    {
      FramesAreIndexed(e, h, f, frames, i);
      IndexedIsWritten(e, frames, i);
    }
    FramesJoined(cells, e.headerSize, frames, |frames|, f.pos);
    SumIsBefore(e.sizes, frames, |frames|);
    assert frames[..|frames|] == frames;
    assert FileBytes(cells, f.pos)[e.headerSize..f.pos] == FileBytes(cells, f.pos)[e.headerSize..];
  }

  /** A file is its pieces. */
  lemma FourPieces(s: seq<Byte>, moov: seq<Byte>, skip: seq<Byte>, gap: nat, head: seq<Byte>, data: seq<Byte>)
    requires |skip| == |head| == 8 && gap >= 8 && |s| == |moov| + gap + 8 + |data|
    requires s[..|moov|] == moov && s[|moov|..|moov| + 8] == skip
    requires s[|moov| + gap..|moov| + gap + 8] == head && s[|moov| + gap + 8..] == data
    ensures s == moov + (skip + s[|moov| + 8..|moov| + gap] + (head + data))
  {
    var m := |moov|;
    assert s[m..m + gap] == s[m..m + 8] + s[m + 8..m + gap];
    assert s[m + gap..] == s[m + gap..m + gap + 8] + s[m + gap + 8..];
    assert s[m..] == s[m..m + gap] + s[m + gap..];
    assert s == s[..m] + s[m..];
  }

  lemma SkipFramed(gap: nat, room: seq<Byte>)
    requires gap == 8 + |room|
    ensures Framed(Ascii("skip"), room) == Encode(gap, 4) + Ascii("skip") + room
  {
    hide Encode, Ascii;
    assert 4 + |Ascii("skip") + room| == gap;
  }

  lemma OuterTags()
    ensures Ascii("skip") !in Nested() && Ascii("mdat") !in Nested()
  {
    assert Ascii("skip")[1] == 0x6b && Ascii("mdat")[2] == 0x61;
    assert Ascii("moov")[1] == 0x6f && Ascii("trak")[1] == 0x72 && Ascii("mdia")[1] == 0x64 && Ascii("minf")[1] == 0x69;
    assert Ascii("stbl")[1] == 0x74 && Ascii("mdia")[2] == 0x69 && Ascii("moov")[2] == 0x6f && Ascii("trak")[2] == 0x61;
    assert Ascii("minf")[2] == 0x6e && Ascii("stbl")[2] == 0x62 && Ascii("mdat")[0] == 0x6d && Ascii("trak")[0] == 0x74;
  }

  /** The file in its pieces: the movie atom, the skip atom, and the data atom that is too short. */
  lemma FileIs(h: Header, a: Leaves, e: Env, maxFrames: nat, f: File, frames: seq<seq<Byte>>)
    requires EnvOk(e) && 1 <= e.nframes == |frames| <= maxFrames && ShippedHeader(h, a)
    requires e.headerSize == FrameDataStart(maxFrames, e.samplesPerChunk)
    requires Recorded(f, e.headerSize, frames) && SizesOf(e.sizes, frames)
    ensures var s := FileBytes(Compile(e, HeaderText(h), f).cells, f.pos);
            var m, data := |Emit(e, h.body)|, Concat(frames);
      && m + 16 <= e.headerSize <= f.pos && |data| == f.pos - e.headerSize
      && s == Emit(e, h.body) + (Framed(Ascii("skip"), s[m + 8..e.headerSize - 8])
                                 + (Encode(|data|, 4) + Ascii("mdat") + data))
  {
    hide ShippedHeader, Compile, Emit, HeaderText, Encode, HasAt, Ascii, Recorded, Sum, FileBytes, Framed, Concat, HeaderOk;
    TopLevelAtoms(h, a, e, maxFrames, f, frames);
    ShippedFits(h, a, e, maxFrames, f);
    DataThere(e, h, f, frames);
    var cells := Compile(e, HeaderText(h), f).cells;
    var s, moov, data := FileBytes(cells, f.pos), Emit(e, h.body), Concat(frames);
    var gap := e.headerSize - 8 - |moov|;
    FileHas(cells, f.pos, 0, moov);
    FileHas(cells, f.pos, |moov|, Encode(gap, 4) + Ascii("skip"));
    FileHas(cells, f.pos, |moov| + gap, Encode(|data|, 4) + Ascii("mdat"));
    FourPieces(s, moov, Encode(gap, 4) + Ascii("skip"), gap, Encode(|data|, 4) + Ascii("mdat"), data);
    SkipFramed(gap, s[|moov| + 8..|moov| + gap]);
  }

  lemma ShippedFits(h: Header, a: Leaves, e: Env, maxFrames: nat, f: File)
    requires EnvOk(e) && 1 <= e.nframes <= maxFrames && ShippedHeader(h, a)
    requires e.headerSize == FrameDataStart(maxFrames, e.samplesPerChunk)
    ensures Fits(e, HeaderText(h), h)
  {
    QtHeaderAlwaysFits(h, a, e, maxFrames, f);
    ShippedIsOk(h, a);
  }

  /** The atom a reader takes the last eight bytes for. */
  function LastAtom(tag: Tag): Atoms {
    if tag in Nested() then Container(tag, Nil, Nil) else Data(tag, [], Nil)
  }

  /** A reader that goes by the lengths from the first byte of the file to the last comes out of the data atom
      eight bytes early, and fails, if and only if these eight bytes do not happen to begin with the number eight:
      only then does it see the movie atom, the skip atom, the data atom without the end of the last frame, and
      one atom more. */
  lemma WholeFileWalk(h: Header, a: Leaves, e: Env, maxFrames: nat, f: File, frames: seq<seq<Byte>>)
    requires EnvOk(e) && 1 <= e.nframes == |frames| <= maxFrames && ShippedHeader(h, a) && f.pos < 0x1_0000_0000
    requires e.headerSize == FrameDataStart(maxFrames, e.samplesPerChunk)
    requires Recorded(f, e.headerSize, frames) && SizesOf(e.sizes, frames)
    ensures var s := FileBytes(Compile(e, HeaderText(h), f).cells, f.pos);
            var m, data := |Emit(e, h.body)|, Concat(frames);
            var n := |data|;
      && m + 16 <= e.headerSize <= |s| && AtomsOnly(h.body, Nested())
      && (Walk(s, Nested()).Malformed? <==> n < 8 || Decode(data[n - 8..n - 4]) != 8)
      && (Walk(s, Nested()).Parsed? ==>
            Walk(s, Nested()).list
            == Join(Tree(e, h.body, Nested()),
                    Data(Ascii("skip"), s[m + 8..e.headerSize - 8],
                         Data(Ascii("mdat"), data[..n - 8], LastAtom(data[n - 4..])))))
  {
    hide ShippedHeader, Compile, Emit, HeaderText, Encode, Decode, Ascii, Recorded, FileBytes, Framed, Concat, Tree;
    hide Serialize, Walk, AtomsOnly, Nested;
    FileIs(h, a, e, maxFrames, f, frames);
    PathToTables(h, a, e);
    EmitIsSerialized(e, h.body, Nested());
    OuterTags();
    var s := FileBytes(Compile(e, HeaderText(h), f).cells, f.pos);
    var m, data := |Emit(e, h.body)|, Concat(frames);
    WalkPieces(Tree(e, h.body, Nested()), s[m + 8..e.headerSize - 8], data);
  }

  lemma WalkPieces(tree: Atoms, room: seq<Byte>, data: seq<Byte>)
    requires Proper(tree, Nested()) && |Serialize(tree)| + |room| + 16 + |data| < 0x1_0000_0000
    ensures var n := |data|;
            var w := Walk(Serialize(tree) + (Framed(Ascii("skip"), room) + (Encode(n, 4) + Ascii("mdat") + data)), Nested());
      && (w.Malformed? <==> n < 8 || Decode(data[n - 8..n - 4]) != 8)
      && (w.Parsed? ==> w.list == Join(tree, Data(Ascii("skip"), room,
                                                  Data(Ascii("mdat"), data[..n - 8], LastAtom(data[n - 4..])))))
  {
    hide Encode, Decode, Ascii, Framed, Serialize, Walk, Nested, Join;
    OuterTags();
    var n := |data|;
    var rest := Encode(n, 4) + Ascii("mdat") + data;
    WalkOn(tree, Framed(Ascii("skip"), room) + rest, Nested());
    WalkData(Ascii("skip"), room, rest, Nested());
    WalkShort(Ascii("mdat"), data, Nested());
    if n >= 8 {
      var eight := data[n - 8..];
      assert eight[..4] == data[n - 8..n - 4] && eight[4..] == data[n - 4..];
      WalkEight(eight, Nested());
      if Decode(eight[..4]) == 8 {
        JoinOne(Ascii("mdat"), data[..n - 8], LastAtom(data[n - 4..]));
        JoinOne(Ascii("skip"), room, Data(Ascii("mdat"), data[..n - 8], LastAtom(data[n - 4..])));
      }
    }
  }
}
