/** The contents of the sample tables the shipped template describes, as the player reads them. */
module QtTables {
  import opened Bytes
  import opened BigEndian
  import opened Template
  import opened TemplateGrammar
  import opened MovFile
  import opened MovPlayer
  import opened Sketches

  function Pow16(k: nat): (p: nat)
    ensures p > 0
  {
    if k == 0 then 1 else 16 * Pow16(k - 1)
  }

  /** A number is written digit by digit, the most significant one first. */
  lemma {:induction false} DigitAt(v: nat, k: nat, i: nat)
    requires i < k
    ensures HexString(v, k)[i] == "0123456789abcdef"[v / Pow16(k - 1 - i) % 16]
    decreases k
  {
    assert Pow16(0) == 1 && (i < k - 1 ==> Pow16(k - 1 - i) == 16 * Pow16(k - 2 - i));
    hide Pow16;
    if i < k - 1 {
      DigitAt(v / 16, k - 1, i);
      DivideTwice(v, Pow16(k - 2 - i));
    }
  }

  lemma DivideTwice(v: nat, p: nat)
    requires p > 0
    ensures v / (16 * p) == v / 16 / p
  {
    var q := v / 16 / p;
    DivMul(v / 16, p);
    assert q * (16 * p) == 16 * (q * p);
    Quotient(v, 16 * p, q);
  }

  lemma HexDigitOf(n: nat)
    requires n < 16
    ensures IsHex(HEX_STR[n]) && HexDigit(HEX_STR[n]) == n
  {
  }

  lemma {:induction false} HexValue(d: nat, v: nat, k: nat)
    requires v < Pow16(k)
    ensures Value(d, HexString(v, k)) == d * Pow16(k) + v
    decreases k
  {
    if k > 0 {
      var high, p := v / 16, Pow16(k - 1);
      HexValue(d, high, k - 1);
      HexDigitOf(v % 16);
      ValueAppend(d, HexString(high, k - 1), HEX_STR[v % 16]);
      hide Value, HexDigit, Pow16;
      Sixteen(d, p, v);
    }
  }

  lemma Sixteen(d: nat, p: nat, v: nat)
    ensures 16 * (d * p + v / 16) + v % 16 == d * (16 * p) + v
  {
  }

  lemma {:induction false} ValueAppend(d: nat, s: string, c: char)
    requires Digits(s) && IsHex(c)
    ensures Digits(s + [c]) && Value(d, s + [c]) == 16 * Value(d, s) + HexDigit(c)
    decreases |s|
  {
    if s == "" {
      assert s + [c] == [c] && [c][1..] == "";
    } else {
      assert (s + [c])[1..] == s[1..] + [c];
      ValueAppend(16 * d + HexDigit(s[0]), s[1..], c);
    }
  }

  /** A number of the template, written in k digits, is put out in half as many bytes. */
  lemma NumberEmits(e: Env, k: nat, values: seq<nat>, rest: Sketch)
    requires EnvOk(e) && 0 < k <= 8 && values != [] && values[0] < Pow16(k)
    ensures Emit(e, TextOf(Numbers(k, values, rest)))
         == Encode(values[0], (k + 1) / 2) + Emit(e, TextOf(Numbers(k, values[1..], rest)))
  {
    hide Encode, Value, HexString, Pow16;
    HexValue(0, values[0], k);
  }

  lemma Pow16AtLeast(k: nat)
    requires k > 0
    ensures Pow16(k) >= 16
  {
  }

  /** A single small number. */
  lemma OneNumber(e: Env, k: nat, v: nat, rest: Sketch)
    requires EnvOk(e) && 0 < k <= 8 && v < 16
    ensures Emit(e, TextOf(Numbers(k, [v], rest))) == Encode(v, (k + 1) / 2) + Emit(e, TextOf(rest))
  {
    Pow16AtLeast(k);
    NumberEmits(e, k, [v], rest);
    assert [v][1..] == [];
    NoNumber(e, k, rest);
  }

  lemma NoNumber(e: Env, k: nat, rest: Sketch)
    requires EnvOk(e)
    ensures Emit(e, TextOf(Numbers(k, [], rest))) == Emit(e, TextOf(rest))
  {
  }

  lemma TwoNumbers(e: Env, k: nat, v: nat, w: nat, rest: Sketch)
    requires EnvOk(e) && 0 < k <= 8 && v < 16 && w < 16
    ensures Emit(e, TextOf(Numbers(k, [v, w], rest)))
         == Encode(v, (k + 1) / 2) + (Encode(w, (k + 1) / 2) + Emit(e, TextOf(rest)))
  {
    Pow16AtLeast(k);
    NumberEmits(e, k, [v, w], rest);
    assert [v, w][1..] == [w];
    OneNumber(e, k, w, rest);
  }

  lemma SliceBehind(front: seq<Byte>, rest: seq<Byte>, i: nat, n: nat)
    requires i + n <= |rest|
    ensures (front + rest)[|front| + i..|front| + i + n] == rest[i..i + n]
  {
  }

  /** A four-byte number behind `front`. */
  lemma NumberIs(front: seq<Byte>, v: nat, rest: seq<Byte>)
    requires v < 0x1_0000_0000
    ensures Number32(front + (Encode(v, 4) + rest), |front|) == v
    ensures front + (Encode(v, 4) + rest) == (front + Encode(v, 4)) + rest
  {
    hide Encode, Decode;
    Limit4();
    DecodeEncode(v, 4);
    FieldBehind(front, Encode(v, 4) + rest, 0);
    assert (Encode(v, 4) + rest)[..4] == Encode(v, 4);
  }

  lemma {:induction false} TableEntry(values: seq<int>, k: nat)
    requires k < |values|
    ensures Table(values)[4 * k..4 * k + 4] == Encode(values[k], 4)
    decreases |values|
  {
    hide Encode;
    var n := |values| - 1;
    var front, last := Table(values[..n]), Encode(values[n], 4);
    assert Table(values) == front + last;
    hide Table;
    if k < n {
      TableEntry(values[..n], k);
      assert (front + last)[4 * k..4 * k + 4] == front[4 * k..4 * k + 4];
    }
  }

  /** An entry of a table behind `front`: the low 32 bits of the number. */
  lemma EntryIs(front: seq<Byte>, values: seq<int>, k: nat)
    requires k < |values|
    ensures Number32(front + Table(values), |front| + 4 * k) == values[k] % 0x1_0000_0000
  {
    hide Encode, Decode, Table;
    Limit4();
    DecodeTruncates(values[k], 4);
    TableEntry(values, k);
    FieldBehind(front, Table(values), 4 * k);
  }

  lemma FieldBehind(front: seq<Byte>, rest: seq<Byte>, i: nat)
    requires i + 4 <= |rest|
    ensures Number32(front + rest, |front| + i) == Decode(rest[i..i + 4])
  {
    hide Decode;
    SliceBehind(front, rest, i, 4);
  }

  /** The content of the chunk offset atom, as the template describes it. */
  lemma StcoBytes(e: Env, inner: Sketch)
    requires EnvOk(e) && inner == Numbers(2, [0], Numbers(6, [0], OffsetsTable(Sketch.Done)))
    ensures Emit(e, TextOf(inner))
         == (Encode(0, 1) + Encode(0, 3)) + (Encode(DeclaredChunks(e), 4) + Table(ChunkOffsets(e)))
  {
    hide Emit, TextOf;
    OneNumber(e, 2, 0, Numbers(6, [0], OffsetsTable(Sketch.Done)));
    OneNumber(e, 6, 0, OffsetsTable(Sketch.Done));
    TableEmits(e);
  }

  lemma TableEmits(e: Env)
    requires EnvOk(e)
    ensures Emit(e, TextOf(OffsetsTable(Sketch.Done))) == Encode(DeclaredChunks(e), 4) + Table(ChunkOffsets(e))
    ensures Emit(e, TextOf(SizesTable(Sketch.Done))) == Table(SampleSizes(e))
  {
    hide Encode, Table, ChunkOffsets, SampleSizes, DeclaredChunks;
  }

  /** Behind its version and flags the chunk offset atom has the number of chunks and the low 32 bits of their
      offsets. */
  lemma StcoRead(e: Env, inner: Sketch, s: seq<Byte>)
    requires EnvOk(e) && inner == Numbers(2, [0], Numbers(6, [0], OffsetsTable(Sketch.Done)))
    requires s == Emit(e, TextOf(inner)) && e.nframes > 0 && e.nframes < 0x1_0000_0000
    ensures |s| == 8 + 4 * |ChunkOffsets(e)| && Number32(s, 4) == |ChunkOffsets(e)|
    ensures forall k :: 0 <= k < |ChunkOffsets(e)| ==> Number32(s, 8 + 4 * k) == ChunkOffsets(e)[k] % 0x1_0000_0000
  {
    hide Emit, TextOf, Encode, Table, Number32, ChunkOffsets;
    var v := ChunkOffsets(e);
    StcoBytes(e, inner);
    DeclaredIffListed(e);
    ChunksAtMost(e.nframes, e.samplesPerChunk);
    var front := Encode(0, 1) + Encode(0, 3);
    NumberIs(front, |v|, Table(v));
    forall k | 0 <= k < |v|
      ensures Number32(s, 8 + 4 * k) == v[k] % 0x1_0000_0000
    {
      EntryIs(front + Encode(|v|, 4), v, k);
    }
  }

  lemma SlotEmits(e: Env, rest: Sketch)
    requires EnvOk(e)
    ensures Emit(e, TextOf(Slot(NFRAMES, rest))) == Encode(e.nframes, 4) + Emit(e, TextOf(rest))
    ensures Emit(e, TextOf(Slot(SAMPLES_CHUNK, rest))) == Encode(e.samplesPerChunk, 4) + Emit(e, TextOf(rest))
  {
    hide Encode;
  }

  lemma StszBytes(e: Env, inner: Sketch)
    requires EnvOk(e)
    requires inner == Numbers(2, [0], Numbers(6, [0], Numbers(8, [0], Slot(NFRAMES, SizesTable(Sketch.Done)))))
    ensures Emit(e, TextOf(inner))
         == (Encode(0, 1) + Encode(0, 3)) + (Encode(0, 4) + (Encode(e.nframes, 4) + Table(SampleSizes(e))))
  {
    hide Emit, TextOf, Encode, Table, SampleSizes;
    OneNumber(e, 2, 0, inner.rest);
    OneNumber(e, 6, 0, inner.rest.rest);
    OneNumber(e, 8, 0, inner.rest.rest.rest);
    SlotEmits(e, SizesTable(Sketch.Done));
    TableEmits(e);
  }

  /** The sample size atom: no common size, the number of samples, their sizes. */
  lemma StszRead(e: Env, inner: Sketch, s: seq<Byte>)
    requires EnvOk(e) && e.nframes < 0x1_0000_0000
    requires inner == Numbers(2, [0], Numbers(6, [0], Numbers(8, [0], Slot(NFRAMES, SizesTable(Sketch.Done)))))
    requires s == Emit(e, TextOf(inner)) && forall i :: 0 <= i < e.nframes ==> e.sizes[i] < 0x1_0000_0000
    ensures |s| == 12 + 4 * e.nframes && Number32(s, 4) == 0 && Number32(s, 8) == e.nframes
    ensures forall i :: 0 <= i < e.nframes ==> Number32(s, 12 + 4 * i) == e.sizes[i]
  {
    hide Emit, TextOf, Encode, Table, Number32;
    var v := SampleSizes(e);
    StszBytes(e, inner);
    var front := Encode(0, 1) + Encode(0, 3);
    NumberIs(front, 0, Encode(e.nframes, 4) + Table(v));
    NumberIs(front + Encode(0, 4), e.nframes, Table(v));
    forall i | 0 <= i < e.nframes
      ensures Number32(s, 12 + 4 * i) == e.sizes[i]
    {
      EntryIs(front + Encode(0, 4) + Encode(e.nframes, 4), v, i);
    }
  }

  lemma StscBytes(e: Env, inner: Sketch)
    requires EnvOk(e)
    requires inner == Numbers(2, [0], Numbers(6, [0], Numbers(8, [1, 1],
                      Slot(SAMPLES_CHUNK, Numbers(8, [1], Sketch.Done)))))
    ensures Emit(e, TextOf(inner)) == (Encode(0, 1) + Encode(0, 3))
         + (Encode(1, 4) + (Encode(1, 4) + (Encode(e.samplesPerChunk, 4) + (Encode(1, 4) + []))))
  {
    hide Emit, TextOf, Encode;
    OneNumber(e, 2, 0, inner.rest);
    OneNumber(e, 6, 0, inner.rest.rest);
    TwoNumbers(e, 8, 1, 1, inner.rest.rest.rest);
    SlotEmits(e, Numbers(8, [1], Sketch.Done));
    OneNumber(e, 8, 1, Sketch.Done);
    NothingEmits(e);
  }

  lemma NothingEmits(e: Env)
    requires EnvOk(e)
    ensures Emit(e, TextOf(Sketch.Done)) == []
  {
  }

  /** The sample-to-chunk atom: one entry for all chunks from the first on. */
  lemma StscRead(e: Env, inner: Sketch, s: seq<Byte>)
    requires EnvOk(e) && e.samplesPerChunk < 0x1_0000_0000
    requires inner == Numbers(2, [0], Numbers(6, [0], Numbers(8, [1, 1],
                      Slot(SAMPLES_CHUNK, Numbers(8, [1], Sketch.Done)))))
    requires s == Emit(e, TextOf(inner))
    ensures |s| == 20 && Number32(s, 4) == 1 && Number32(s, 8) == 1 && Number32(s, 12) == e.samplesPerChunk
  {
    hide Emit, TextOf, Encode, Number32;
    StscBytes(e, inner);
    var front := Encode(0, 1) + Encode(0, 3);
    NumberIs(front, 1, Encode(1, 4) + (Encode(e.samplesPerChunk, 4) + (Encode(1, 4) + [])));
    NumberIs(front + Encode(1, 4), 1, Encode(e.samplesPerChunk, 4) + (Encode(1, 4) + []));
    NumberIs(front + Encode(1, 4) + Encode(1, 4), e.samplesPerChunk, Encode(1, 4) + []);
  }

  lemma ChunksAtMost(n: nat, c: nat)
    requires c > 0
    ensures ChunksBegun(n, c) <= n
  {
    DivMul(n + c - 1, c);
    MulMonotone(1, c, n);
    assert (n + 1) * c == n * c + c;
    if n < ChunksBegun(n, c) {
      MulMonotone(n + 1, ChunksBegun(n, c), c);
      assert false;
    }
  }
}
