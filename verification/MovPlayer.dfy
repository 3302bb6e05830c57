/**
  A player that knows nothing but the file: it walks the atoms by their lengths and reads the sample tables,
  sections 8.7.3 to 8.7.5 of ISO/IEC 14496-12.
 */
module MovPlayer {
  import opened Bytes
  import opened BigEndian
  import opened Template
  import opened Boxes
  import opened MovFile

  /** The atoms that hold atoms on the way to the sample tables. */
  function Nested(): set<Tag> {
    {Ascii("moov"), Ascii("trak"), Ascii("mdia"), Ascii("minf"), Ascii("stbl")}
  }

  datatype Hit = Bytes(bytes: seq<Byte>) | Kids(kids: Atoms) | Missing

  /** The first atom with a tag. */
  function First(b: Atoms, tag: Tag): Hit {
    match b
    case Nil => Missing
    case Data(t, bytes, rest) => if t == tag then Bytes(bytes) else First(rest, tag)
    case Container(t, kids, rest) => if t == tag then Kids(kids) else First(rest, tag)
  }

  /** The atoms at the end of a path of names. */
  function Inside(b: Atoms, path: seq<string>): Hit
    decreases |path|
  {
    if path == [] then Kids(b)
    else
      var h := First(b, Ascii(path[0]));
      if h.Kids? then Inside(h.kids, path[1..]) else Missing
  }

  function Number32(s: seq<Byte>, at: nat): nat
    requires at + 4 <= |s|
  {
    Decode(s[at..at + 4])
  }

  datatype Tables = Tables(stsc: seq<Byte>, stsz: seq<Byte>, stco: seq<Byte>) | NoTables

  /** The contents of the three sample tables of a file that begins with `s`. */
  function TablesIn(s: seq<Byte>): Tables {
    var w := Walk(s, Nested());
    if w.Malformed? then NoTables
    else
      var stbl := Inside(w.list, ["moov", "trak", "mdia", "minf", "stbl"]);
      if !stbl.Kids? then NoTables
      else
        var c, z, o := First(stbl.kids, Ascii("stsc")), First(stbl.kids, Ascii("stsz")), First(stbl.kids, Ascii("stco"));
        if c.Bytes? && z.Bytes? && o.Bytes? then Tables(c.bytes, z.bytes, o.bytes) else NoTables
  }

  /** All chunks alike, sizes of their own for all samples, and the tables as long as they declare. */
  predicate Usable(t: Tables) {
    && t.Tables? && |t.stsc| == 20 && |t.stsz| >= 12 && |t.stco| >= 8
    && Number32(t.stsc, 4) == 1 && Number32(t.stsc, 8) == 1 && Number32(t.stsc, 12) > 0
    && Number32(t.stsz, 4) == 0 && |t.stsz| == 12 + 4 * Number32(t.stsz, 8)
    && |t.stco| == 8 + 4 * Number32(t.stco, 4)
    && Number32(t.stco, 4) == ChunksBegun(Number32(t.stsz, 8), Number32(t.stsc, 12))
  }

  function Samples(t: Tables): nat
    requires Usable(t)
  {
    Number32(t.stsz, 8)
  }

  function SampleSize(t: Tables, i: nat): nat
    requires Usable(t) && i < Samples(t)
  {
    Number32(t.stsz, 12 + 4 * i)
  }

  /** The sizes of the samples first..last - 1. */
  function SizesFrom(t: Tables, first: nat, last: nat): nat
    requires Usable(t) && first <= last <= Samples(t)
    decreases last
  {
    if first == last then 0 else SizesFrom(t, first, last - 1) + SampleSize(t, last - 1)
  }

  function PerChunk(t: Tables): (c: nat)
    requires Usable(t)
    ensures c > 0
  {
    Number32(t.stsc, 12)
  }

  function Chunks(t: Tables): nat
    requires Usable(t)
  {
    Number32(t.stco, 4)
  }

  function ChunkStart(t: Tables, k: nat): nat
    requires Usable(t) && k < Chunks(t)
  {
    Number32(t.stco, 8 + 4 * k)
  }

  lemma ChunkOfSample(t: Tables, i: nat, c: nat)
    requires Usable(t) && i < Samples(t) && c == PerChunk(t)
    ensures i / c < Chunks(t) && 0 <= i / c * c <= i
  {
    hide Number32, ChunksBegun;
    ChunkOfFrame(i, Samples(t), c);
  }

  /** The chunk sample i is in. */
  function ChunkOf(t: Tables, i: nat): (k: nat)
    requires Usable(t) && i < Samples(t)
    ensures k < Chunks(t) && 0 <= k * PerChunk(t) <= i
  {
    var c := PerChunk(t);
    ChunkOfSample(t, i, c);
    i / c
  }

  /** Sample i: behind the samples before it in its chunk. */
  function SampleOffset(t: Tables, i: nat): nat
    requires Usable(t) && i < Samples(t)
  {
    var k := ChunkOf(t, i);
    ChunkStart(t, k) + SizesFrom(t, k * PerChunk(t), i)
  }
}
