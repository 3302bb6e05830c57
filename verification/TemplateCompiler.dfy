/** The header compiler with its cursor and its output offset, as camogm_mov.c moves them. */
module TemplateCompiler {
  import opened Bytes
  import opened BigEndian
  import opened SparseFile
  import opened Template

  class Compiler {
    const iFile: string
    var env: Env
    var iPos: nat
    var cells: map<nat, Byte>
    var oPos: nat

    ghost predicate Valid()
      reads this
    {
      EnvOk(env)
    }

    function Out(): File
      reads this
    {
      File(cells, oPos)
    }

    constructor (iFile: string, env: Env, file: File)
      requires EnvOk(env)
      ensures Valid() && this.iFile == iFile && this.env == env && iPos == 0 && Out() == file
    {
      this.iFile, this.env, iPos, cells, oPos := iFile, env, 0, file.cells, file.pos;
    }

    method WriteOut(data: seq<Byte>)
      modifies this`cells, this`oPos
      ensures Out() == Write(old(Out()), data)
    {
      cells := cells + Overlay(oPos, data);
      oPos := oPos + |data|;
    }

    method PutBigEndian(d: int, l: nat)
      requires l <= 4
      modifies this`cells, this`oPos
      ensures Out() == Write(old(Out()), Encode(d, l))
    {
      EncodeFour(d, l);
      var od: seq<Byte> := [d / 16777216 % 256, d / 65536 % 256, d / 256 % 256, d % 256];
      if l != 0 {
        WriteOut(od[4 - l..]);
      } else {
        WriteNothing(Out());
      }
    }

    /** The next entry of a table that is being written behind `head`. */
    method PutEntry(value: int, ghost head: File, ghost all: seq<int>, ghost k: nat)
      requires k < |all| && all[k] == value && Out() == Write(head, Table(all[..k]))
      modifies this`cells, this`oPos
      ensures Out() == Write(head, Table(all[..k + 1]))
    {
      TableNext(all, k);
      WriteTwice(head, Table(all[..k]), Encode(value, 4));
      PutBigEndian(value, 4);
    }

    method PutSampleSizes()
      requires Valid()
      modifies this`cells, this`oPos
      ensures Out() == Write(old(Out()), Table(SampleSizes(env)))
    {
      var i := 0;
      ghost var all, head := SampleSizes(env), Out();
      WriteNothing(head);
      while i < env.nframes
        invariant 0 <= i <= env.nframes && Out() == Write(head, Table(all[..i]))
      {
        PutEntry(env.sizes[i], head, all, i);
        i := i + 1;
      }
      assert all[..i] == all;
    }

    /** The chunk table by one walk over the frames: j counts them within a chunk, l is their total size. */
    method PutChunkTable()
      requires Valid()
      modifies this`cells, this`oPos
      ensures Out() == Write(old(Out()), Table(ChunkOffsets(env)))
    {
      var l, j, i := 0, 0, 0;
      ghost var all, k, head := ChunkOffsets(env), 0, Out();
      WriteNothing(head);
      ChunkCount(0, 0, 0, env.samplesPerChunk);
      while i < env.nframes
        invariant 0 <= i <= env.nframes && k <= |all|
        invariant l == Sum(env.sizes, i) && InChunk(i, j, k, env.samplesPerChunk)
        invariant Out() == Write(head, Table(all[..k]))
      {
        ChunkStep(i, j, k, env.nframes, env.samplesPerChunk);
        if j == 0 {
          PutEntry(env.headerSize + l, head, all, k);
          k := k + 1;
        }
        j := j + 1;
        if j >= env.samplesPerChunk {
          j := 0;
        }
        l := l + env.sizes[i];
        i := i + 1;
      }
      assert k == |all| && all[..k] == all;
    }

    method PutChunkOffsets()
      requires Valid()
      modifies this`cells, this`oPos
      ensures Out() == Write(old(Out()), Encode(DeclaredChunks(env), 4) + Table(ChunkOffsets(env)))
    {
      WriteTwice(Out(), Encode(DeclaredChunks(env), 4), Table(ChunkOffsets(env)));
      PutBigEndian(DeclaredChunks(env), 4);
      PutChunkTable();
    }

    /** The gap between the header and the frames becomes a skip atom; then the length of the frames. */
    method PutDataSize() returns (ok: bool)
      requires Valid()
      modifies this`cells, this`oPos
      ensures (ok, Out()) == DataSize(env, old(Out()))
    {
      hide Encode, Sum;
      var gap := env.headerSize - oPos - 8;
      if gap > 0 {
        if gap < 8 {
          return false;
        }
        WriteTwice(Out(), Encode(gap, 4), SKIP);
        PutBigEndian(gap, 4);
        WriteOut(SKIP);
        oPos := oPos + gap - 8;
      }
      var l := SumSizes();
      PutBigEndian(l, 4);
      ok := true;
    }

    method SumSizes() returns (l: nat)
      requires Valid()
      ensures l == Sum(env.sizes, env.nframes)
    {
      l := 0;
      var i := 0;
      while i < env.nframes
        invariant 0 <= i <= env.nframes && l == Sum(env.sizes, i)
      {
        l := l + env.sizes[i];
        i := i + 1;
      }
    }

    /** The word loop of parse_special. */
    method ReadName() returns (str: string)
      modifies this`iPos
      ensures (str, iPos) == ReadWord(iFile, old(iPos), 0)
    {
      var i := 0;
      var c := At(iFile, iPos);
      iPos := iPos + 1;
      str := "";
      assert "" + ReadWord(iFile, iPos - 1, 0).0 == ReadWord(iFile, iPos - 1, 0).0;
      while !EndsWord(c) && i < 255 && iPos < |iFile|
        invariant i <= 255 && iPos > 0 && c == At(iFile, iPos - 1)
        invariant var (word, q) := ReadWord(iFile, iPos - 1, i);
          ReadWord(iFile, old(iPos), 0) == (str + word, q)
        decreases |iFile| - iPos
      {
        ghost var word := ReadWord(iFile, iPos, i + 1).0;
        assert str + ([c] + word) == str + [c] + word;
        str := str + [c];
        i := i + 1;
        c := At(iFile, iPos);
        iPos := iPos + 1;
      }
      assert str + "" == str;
    }

    /** The specials that are one number. */
    method NumberFor(str: string) returns (d: int, l: nat)
      ensures (d, l) == Number(env, str)
    {
      if str == "mdata" {
        return env.headerSize, 4;
      }
      if str == "height" {
        return env.height, 2;
      }
      if str == "width" {
        return env.width, 2;
      }
      if str == "nframes" {
        return env.nframes, 4;
      }
      if str == "timescale" {
        return env.timescale, 4;
      }
      if str == "duration" {
        return env.nframes * env.sampleDur, 4;
      }
      if str == "frame_duration" {
        return env.sampleDur, 4;
      }
      if str == "samples_chunk" {
        return env.samplesPerChunk, 4;
      }
      if str == "time" {
        return env.now + 2082801600, 4;
      }
      return 0, 0;
    }

    method PutTable(str: string)
      requires Valid() && IsTable(str)
      modifies this`cells, this`oPos
      ensures Out() == Write(old(Out()), TableBytes(env, str))
    {
      if str == "sample_sizes" {
        PutSampleSizes();
      } else {
        PutChunkOffsets();
      }
    }

    method PutSpecial(str: string) returns (ok: bool)
      requires Valid()
      modifies this`cells, this`oPos
      ensures (ok, Out()) == SpecialWord(env, str, old(Out()))
    {
      ok := true;
      NumberWidthIs(env, str);
      var d, l := NumberFor(str);
      if IsTable(str) {
        PutTable(str);
      } else if l > 0 {
        PutBigEndian(d, l);
      } else if str == "data_size" {
        ok := PutDataSize();
      } else {
        ok := false;
      }
    }

    method ParseSpecial() returns (ok: bool)
      requires Valid()
      modifies this`iPos, this`cells, this`oPos
      ensures var (word, q) := ReadWord(iFile, old(iPos), 0);
        iPos == q && (ok, Out()) == SpecialWord(env, word, old(Out()))
    {
      var str := ReadName();
      ok := PutSpecial(str);
    }

    /** sfgets */
    method SfGets() returns (str: string)
      requires iPos < |iFile|
      modifies this`iPos
      ensures iPos == old(iPos) + LineRead(iFile, old(iPos)) && str == iFile[old(iPos)..iPos]
    {
      var eol := iPos;
      while iFile[eol] != '\n' && eol + 1 < |iFile|
        invariant iPos <= eol < |iFile| && LineLength(iFile, iPos) == eol - iPos + LineLength(iFile, eol)
        decreases |iFile| - eol
      {
        eol := eol + 1;
      }
      var l := eol - iPos;
      if l >= COM_STR_SIZE {
        l := COM_STR_SIZE - 1;
      }
      str := iFile[iPos..iPos + l];
      iPos := iPos + l;
    }

    /** The do-while over hexadecimal digits. */
    method ReadNumber(first: char) returns (d: nat, l: nat)
      requires IsHex(first)
      modifies this`iPos
      ensures (d, l, iPos) == ReadHex(iFile, first, old(iPos), 0, 1)
    {
      var c := first;
      var more := true;
      d, l := 0, 1;
      while more
        invariant 1 <= l <= 9 && (more ==> l <= 8 && IsHex(c))
        invariant ReadHex(iFile, first, old(iPos), 0, 1) == if more then ReadHex(iFile, c, iPos, d, l) else (d, l, iPos)
        decreases 9 - l, more
      {
        d := 16 * d + HexDigit(c);
        l := l + 1;
        more := false;
        if iPos < |iFile| && l <= 8 {
          c := At(iFile, iPos);
          iPos := iPos + 1;
          more := IsHex(c);
        }
      }
    }

    /** What parse does with one character. */
    method ParseItem(c: char) returns (ok: bool)
      requires Valid() && iPos < |iFile|
      modifies this`iPos, this`cells, this`oPos
      ensures Outcome(ok, iPos, Out()) == Item(env, iFile, c, old(iPos), old(Out()))
      decreases Left(iFile, iPos), 1
    {
      ok := true;
      if !IsBlank(c) {
        if c == '!' {
          ok := ParseSpecial();
        } else if c == '{' {
          ok := Parse(false);
        } else if c == '#' {
          var _ := SfGets();
        } else if c == '\'' {
          var comStr := SfGets();
          WriteOut(Ascii(Literal(comStr)));
        } else if IsHex(c) {
          var d, l := ReadNumber(c);
          PutBigEndian(d, l / 2);
        } else {
          ok := false;
        }
      }
    }

    /** The loop of parse. */
    method ParseContent(first: char) returns (ok: bool)
      requires Valid()
      modifies this`iPos, this`cells, this`oPos
      ensures Outcome(ok, iPos, Out()) == Loop(env, iFile, first, old(iPos), old(Out()))
      decreases Left(iFile, iPos), 2
    {
      var c := first;
      ghost var spec := Loop(env, iFile, c, iPos, Out());
      while iPos < |iFile| && c != '}'
        invariant iPos >= old(iPos) && Loop(env, iFile, c, iPos, Out()) == spec
        decreases Left(iFile, iPos)
      {
        ok := ParseItem(c);
        if !ok {
          return;
        }
        c := At(iFile, iPos);
        iPos := iPos + 1;
      }
      ok := true;
    }

    /** parse */
    method Parse(top: bool) returns (ok: bool)
      requires Valid() && iPos < |iFile|
      modifies this`iPos, this`cells, this`oPos
      ensures Outcome(ok, iPos, Out()) == Template.Parse(env, iFile, old(iPos), old(Out()), top)
      decreases Left(iFile, iPos), 0
    {
      var c := At(iFile, iPos);
      iPos := iPos + 1;
      var outStart := oPos;
      if !top {
        PutBigEndian(0, 4);
      }
      ok := ParseContent(c);
      ghost var r := Outcome(ok, iPos, Out());
      ParseIs(env, iFile, old(iPos), old(Out()), top, r);
      if ok && !top {
        FillLength(outStart);
      }
    }

    /** Writes the length of what has been put out since outStart there, and returns to the end. */
    method FillLength(outStart: nat)
      modifies this`cells, this`oPos
      ensures Out() == Closed(outStart, old(Out()))
    {
      var outEnd: int := oPos;
      oPos := outStart;
      PutBigEndian(outEnd - outStart, 4);
      oPos := outEnd;
    }

    method RunPass()
      requires Valid()
      modifies this`iPos, this`cells, this`oPos
      ensures Out() == Pass(env, iFile, 0, Seek(old(Out()), 0))
    {
      iPos, oPos := 0, 0;
      ghost var spec := Pass(env, iFile, 0, Out());
      while iPos < |iFile|
        invariant Pass(env, iFile, iPos, Out()) == spec
        decreases Left(iFile, iPos)
      {
        var _ := Parse(true);
      }
    }

    /** quicktime_template_parser */
    method CompileTemplate()
      requires Valid()
      modifies this
      ensures Valid() && Out() == Compile(old(env), iFile, old(Out()))
    {
      RunPass();
      if env.headerSize == 0 {
        env := env.(headerSize := oPos);
      }
      RunPass();
    }
  }

  lemma ParseIs(e: Env, t: string, p: nat, f: File, top: bool, r: Outcome)
    requires EnvOk(e) && p < |t| && r == Loop(e, t, At(t, p), p + 1, Opened(f, top))
    ensures Template.Parse(e, t, p, f, top) == if top || !r.ok then r else r.(f := Closed(f.pos, r.f))
  {
  }

  /** Frame i is the j-th of its chunk, and k chunks have begun before it. */
  predicate InChunk(i: nat, j: nat, k: nat, c: nat) {
    c > 0 && j < c && k == ChunksBegun(i, c) && i == k * c - (if j == 0 then 0 else c - j)
  }

  lemma TableNext(v: seq<int>, i: nat)
    requires i < |v|
    ensures Table(v[..i + 1]) == Table(v[..i]) + Encode(v[i], 4)
  {
    assert v[..i + 1][..i] == v[..i];
  }

  lemma ChunkCount(i: nat, j: nat, k: nat, c: nat)
    requires c > 0 && j < c && i == k * c - (if j == 0 then 0 else c - j)
    ensures InChunk(i, j, k, c)
  {
    Quotient(i + c - 1, c, k);
  }

  /** One frame further: a new chunk begins exactly when j is 0. */
  lemma ChunkStep(i: nat, j: nat, k: nat, n: nat, c: nat)
    requires i < n && InChunk(i, j, k, c)
    ensures var k' := if j == 0 then k + 1 else k; var j' := if j + 1 >= c then 0 else j + 1;
      InChunk(i + 1, j', k', c) && k' <= ChunksBegun(n, c)
    ensures j == 0 ==> i == k * c
  {
    var k' := if j == 0 then k + 1 else k;
    var j' := if j + 1 >= c then 0 else j + 1;
    assert (k + 1) * c == k * c + c;
    ChunkCount(i + 1, j', k', c);
    ChunksGrow(i + 1, n, c);
  }

  lemma ChunksGrow(a: nat, b: nat, c: nat)
    requires c > 0 && a <= b
    ensures ChunksBegun(a, c) <= ChunksBegun(b, c)
  {
    DivMul(a + c - 1, c);
    DivMul(b + c - 1, c);
    var p, q := ChunksBegun(a, c), ChunksBegun(b, c);
    if q < p {
      MulMonotone(q + 1, p, c);
    }
  }
}
