/**
  The QuickTime header compiler on values: what parse does to the output file for any template text, well
  formed or not.  TemplateCompiler.dfy does the same with a cursor, loops and recursion.
 */
module Template {
  import opened Bytes
  import opened BigEndian
  import opened SparseFile

  /** The globals parse_special reads; `sizes` is the frame length table, `now` the clock. */
  datatype Env = Env(width: int, height: int, nframes: nat, sampleDur: int, samplesPerChunk: nat,
                     timescale: int, sizes: seq<nat>, headerSize: nat, now: int)

  predicate EnvOk(e: Env) {
    e.samplesPerChunk >= 1 && |e.sizes| >= e.nframes
  }

  const HEX_STR := "0123456789abcdef"
  const COM_STR_SIZE := 1024

  predicate IsHex(c: char) {
    '0' <= c <= '9' || 'a' <= c <= 'f'
  }

  function HexDigit(c: char): nat
    requires IsHex(c)
  {
    if c <= '9' then (c as int) - ('0' as int) else (c as int) - ('a' as int) + 10
  }

  predicate IsBlank(c: char) {
    c == ' ' || c == '\t' || c == '\n' || c == '\r'
  }

  function Ascii(s: string): (b: seq<Byte>)
    ensures |b| == |s|
  {
    seq<Byte>(|s|, i requires 0 <= i < |s| => (s[i] as int) % 256)
  }

  /** iFile[p]; the text ends with a NUL. */
  function At(t: string, p: nat): char {
    if p < |t| then t[p] else '\0'
  }

  // ---------- Sample tables ----------

  function Sum(sizes: seq<nat>, n: nat): nat
    requires n <= |sizes|
  {
    if n == 0 then 0 else Sum(sizes, n - 1) + sizes[n - 1]
  }

  function Table(values: seq<int>): (b: seq<Byte>)
    ensures |b| == 4 * |values|
  {
    if values == [] then [] else Table(values[..|values| - 1]) + Encode(values[|values| - 1], 4)
  }

  function SampleSizes(e: Env): (v: seq<int>)
    requires EnvOk(e)
    ensures |v| == e.nframes
  {
    seq(e.nframes, i requires 0 <= i < e.nframes => e.sizes[i])
  }

  /** C division. */
  function Truncated(a: int, b: nat): int
    requires b > 0
  {
    if a >= 0 then a / b else -(-a / b)
  }

  /** The number of chunks the table declares. */
  function DeclaredChunks(e: Env): int
    requires EnvOk(e)
  {
    Truncated(e.nframes - 1, e.samplesPerChunk) + 1
  }

  /** The number of chunks the frames before frame n begin. */
  function ChunksBegun(n: nat, perChunk: nat): nat
    requires perChunk > 0
  {
    (n + perChunk - 1) / perChunk
  }

  lemma ChunkStartsBefore(k: nat, n: nat, perChunk: nat)
    requires perChunk > 0 && k < ChunksBegun(n, perChunk)
    ensures k * perChunk < n
  {
    var q := ChunksBegun(n, perChunk);
    DivMul(n + perChunk - 1, perChunk);
    MulMonotone(k + 1, q, perChunk);
  }

  lemma DivMul(a: nat, b: nat)
    requires b > 0
    ensures (a / b) * b <= a < (a / b) * b + b
  {
  }

  lemma MulMonotone(a: nat, b: nat, c: nat)
    requires a <= b
    ensures a * c <= b * c
  {
  }

  lemma Quotient(a: nat, b: nat, q: nat)
    requires b > 0 && q * b <= a < q * b + b
    ensures a / b == q
  {
    DivMul(a, b);
    if a / b < q {
      MulMonotone(a / b + 1, q, b);
    } else if a / b > q {
      MulMonotone(q + 1, a / b, b);
    }
  }

  /** Where chunk k begins: behind all samples of the chunks before it. */
  function ChunkOffset(e: Env, k: nat): nat
    requires EnvOk(e) && k < ChunksBegun(e.nframes, e.samplesPerChunk)
  {
    ChunkStartsBefore(k, e.nframes, e.samplesPerChunk);
    e.headerSize + Sum(e.sizes, k * e.samplesPerChunk)
  }

  function ChunkOffsets(e: Env): (v: seq<int>)
    requires EnvOk(e)
    ensures |v| == ChunksBegun(e.nframes, e.samplesPerChunk)
  {
    var m := ChunksBegun(e.nframes, e.samplesPerChunk);
    seq(m, k requires 0 <= k < m => ChunkOffset(e, k))
  }

  // ---------- parse_special ----------

  /** The specials that are one number, and its width in bytes; width 0 means it is none of them. */
  function Number(e: Env, name: string): (r: (int, nat))
    ensures r.1 <= 4
  {
    if name == "mdata" then (e.headerSize, 4)
    else if name == "height" then (e.height, 2)
    else if name == "width" then (e.width, 2)
    else if name == "nframes" then (e.nframes, 4)
    else if name == "timescale" then (e.timescale, 4)
    else if name == "duration" then (e.nframes * e.sampleDur, 4)
    else if name == "frame_duration" then (e.sampleDur, 4)
    else if name == "samples_chunk" then (e.samplesPerChunk, 4)
    else if name == "time" then (e.now + 2082801600, 4)
    else (0, 0)
  }

  function NumberWidth(name: string): nat {
    if name == "height" || name == "width" then 2
    else if name == "mdata" || name == "nframes" || name == "timescale" || name == "duration" || name == "time"
            || name == "frame_duration" || name == "samples_chunk" then 4
    else 0
  }

  lemma NumberWidthIs(e: Env, name: string)
    ensures Number(e, name).1 == NumberWidth(name)
  {
  }

  predicate IsTable(name: string) {
    name == "sample_sizes" || name == "chunk_offsets"
  }

  /** The specials that do not look at the output position. */
  predicate IsPlain(name: string) {
    IsTable(name) || NumberWidth(name) > 0
  }

  function TableBytes(e: Env, name: string): seq<Byte>
    requires EnvOk(e)
  {
    if name == "sample_sizes" then Table(SampleSizes(e)) else Encode(DeclaredChunks(e), 4) + Table(ChunkOffsets(e))
  }

  function Plain(e: Env, name: string): seq<Byte>
    requires EnvOk(e)
  {
    if IsTable(name) then TableBytes(e, name) else Encode(Number(e, name).0, NumberWidth(name))
  }

  const SKIP: seq<Byte> := [0x73, 0x6b, 0x69, 0x70]

  /** What a parser function did: its result, and cursor and file behind it. */
  datatype Outcome = Outcome(ok: bool, p: nat, f: File)

  /** The skip atom that spans a gap of at least 8 bytes, and the length of the data. */
  function DataSize(e: Env, f: File): (bool, File)
    requires EnvOk(e)
  {
    var gap := e.headerSize - f.pos - 8;
    if 0 < gap < 8 then (false, f)
    else
      var g := if gap > 0 then Seek(Write(f, Encode(gap, 4) + SKIP), f.pos + gap) else f;
      (true, Write(g, Encode(Sum(e.sizes, e.nframes), 4)))
  }

  function SpecialWord(e: Env, name: string, f: File): (bool, File)
    requires EnvOk(e)
  {
    if IsPlain(name) then (true, Write(f, Plain(e, name)))
    else if name == "data_size" then DataSize(e, f)
    else (false, f)
  }

  predicate EndsWord(c: char) {
    IsBlank(c) || c == '\0'
  }

  /** The word after an exclamation mark, at most 255 characters, and the position behind what ended it. */
  function ReadWord(t: string, p: nat, i: nat): (r: (string, nat))
    ensures r.1 > p
    decreases if p < |t| then |t| - p else 0
  {
    var c := At(t, p);
    if EndsWord(c) || i >= 255 || p + 1 >= |t| then ("", p + 1)
    else
      var (word, q) := ReadWord(t, p + 1, i + 1);
      ([c] + word, q)
  }

  // ---------- Lines and numbers ----------

  /** The number of characters before the next newline, or before the last character if there is none. */
  function LineLength(t: string, p: nat): nat
    requires p < |t|
    decreases |t| - p
  {
    if t[p] == '\n' || p + 1 == |t| then 0 else 1 + LineLength(t, p + 1)
  }

  /** sfgets: what it copies. */
  function LineRead(t: string, p: nat): (n: nat)
    requires p < |t|
    ensures p + n < |t|
  {
    LineShort(t, p);
    var l := LineLength(t, p);
    if l >= COM_STR_SIZE then COM_STR_SIZE - 1 else l
  }

  lemma {:induction false} LineShort(t: string, p: nat)
    requires p < |t|
    ensures p + LineLength(t, p) < |t|
    decreases |t| - p
  {
    if t[p] != '\n' && p + 1 != |t| {
      LineShort(t, p + 1);
    }
  }

  /** Up to the first carriage return or comment. */
  function CutLine(s: string): string {
    if s == "" || s[0] == '\r' || s[0] == '#' then "" else [s[0]] + CutLine(s[1..])
  }

  /** Without trailing blanks; the first character stays whatever it is. */
  function TrimEnd(s: string): string {
    if |s| > 1 && (s[|s| - 1] == ' ' || s[|s| - 1] == '\t') then TrimEnd(s[..|s| - 1]) else s
  }

  /** The literal a quote introduces. */
  function Literal(line: string): string {
    TrimEnd(CutLine(line))
  }

  /** The hexadecimal loop: value, one more than the number of digits, and the position behind what was read. */
  function ReadHex(t: string, c: char, p: nat, d: nat, l: nat): (r: (nat, nat, nat))
    requires IsHex(c) && 1 <= l <= 8
    ensures r.2 >= p && 2 <= r.1 <= 9
    decreases 9 - l
  {
    var d1, l1 := 16 * d + HexDigit(c), l + 1;
    if p < |t| && l1 <= 8 then
      if IsHex(At(t, p)) then ReadHex(t, At(t, p), p + 1, d1, l1) else (d1, l1, p + 1)
    else (d1, l1, p)
  }

  // ---------- parse ----------

  function Left(t: string, p: nat): nat {
    if p < |t| then |t| - p else 0
  }

  /** One round of the loop of parse, for the character c read at p - 1. */
  function Item(e: Env, t: string, c: char, p: nat, f: File): (r: Outcome)
    requires EnvOk(e) && p < |t|
    ensures r.p >= p
    decreases Left(t, p), 1
  {
    if IsBlank(c) then Outcome(true, p, f)
    else if c == '!' then
      var (word, q) := ReadWord(t, p, 0);
      var (ok, g) := SpecialWord(e, word, f);
      Outcome(ok, q, g)
    else if c == '{' then Parse(e, t, p, f, false)
    else if c == '#' then Outcome(true, p + LineRead(t, p), f)
    else if c == '\'' then
      var q := p + LineRead(t, p);
      Outcome(true, q, Write(f, Ascii(Literal(t[p..q]))))
    else if IsHex(c) then
      var (d, l, q) := ReadHex(t, c, p, 0, 1);
      Outcome(true, q, Write(f, Encode(d, l / 2)))
    else Outcome(false, p, f)
  }

  /** The loop of parse. */
  function Loop(e: Env, t: string, c: char, p: nat, f: File): (r: Outcome)
    requires EnvOk(e)
    ensures r.p >= p
    decreases Left(t, p), 2
  {
    if p >= |t| || c == '}' then Outcome(true, p, f)
    else
      var r := Item(e, t, c, p, f);
      if r.ok then Loop(e, t, At(t, r.p), r.p + 1, r.f) else r
  }

  /** parse: an atom, whose length is filled in behind its end, or with `top` just its content. */
  function Parse(e: Env, t: string, p: nat, f: File, top: bool): (r: Outcome)
    requires EnvOk(e) && p < |t|
    ensures r.p > p
    decreases Left(t, p), 0
  {
    var r := Loop(e, t, At(t, p), p + 1, Opened(f, top));
    if top || !r.ok then r else r.(f := Closed(f.pos, r.f))
  }

  /** The place of the length, to be filled in. */
  function Opened(f: File, top: bool): File {
    if top then f else Write(f, Encode(0, 4))
  }

  /** The length of what was put out from `start` on, put there. */
  function Closed(start: nat, f: File): File {
    Seek(Write(Seek(f, start), Encode(f.pos - start, 4)), f.pos)
  }

  /** One pass: parse at the top level until the text is used up, whatever it returns. */
  function Pass(e: Env, t: string, p: nat, f: File): File
    requires EnvOk(e)
    decreases Left(t, p)
  {
    if p >= |t| then f
    else
      var r := Parse(e, t, p, f, true);
      Pass(e, t, r.p, r.f)
  }

  /** quicktime_template_parser: pass 1, the header size if it was not given, pass 2. */
  function Compile(e: Env, t: string, f: File): File
    requires EnvOk(e)
  {
    var f1 := Pass(e, t, 0, Seek(f, 0));
    var e2 := if e.headerSize == 0 then e.(headerSize := f1.pos) else e;
    Pass(e2, t, 0, Seek(f1, 0))
  }
}
