/** A file under lseek and write: the cells that were written, and the offset. */
module SparseFile {
  import opened Bytes

  datatype File = File(cells: map<nat, Byte>, pos: nat)

  /** The n offsets from `at` on. */
  function Span(at: nat, n: nat): (s: set<nat>)
    ensures forall i :: i in s <==> at <= i < at + n
  {
    if n == 0 then {} else Span(at, n - 1) + {at + n - 1}
  }

  /** `data` placed at `at`. */
  function Overlay(at: nat, data: seq<Byte>): map<nat, Byte> {
    map i | i in Span(at, |data|) :: data[i - at]
  }

  function Write(f: File, data: seq<Byte>): File {
    File(f.cells + Overlay(f.pos, data), f.pos + |data|)
  }

  function Seek(f: File, pos: nat): File {
    f.(pos := pos)
  }

  lemma OverlayJoin(at: nat, a: seq<Byte>, b: seq<Byte>)
    ensures Overlay(at, a) + Overlay(at + |a|, b) == Overlay(at, a + b)
  {
  }

  lemma WriteNothing(f: File)
    ensures Write(f, []) == f
  {
  }

  lemma WriteTwice(f: File, a: seq<Byte>, b: seq<Byte>)
    ensures Write(Write(f, a), b) == Write(f, a + b)
  {
    OverlayJoin(f.pos, a, b);
    Layers(f.cells, Overlay(f.pos, a), Overlay(f.pos + |a|, b));
  }

  lemma Layers(a: map<nat, Byte>, b: map<nat, Byte>, c: map<nat, Byte>)
    ensures a + b + c == a + (b + c)
  {
  }

  /** Going back to overwrite the first bytes of a write, then returning to its end. */
  lemma PatchFront(f: File, a: seq<Byte>, b: seq<Byte>, c: seq<Byte>)
    requires |a| == |c|
    ensures Seek(Write(Seek(Write(f, a + b), f.pos), c), f.pos + |a| + |b|) == Write(f, c + b)
  {
    var g := f.cells + Overlay(f.pos, a + b) + Overlay(f.pos, c);
    var h := f.cells + Overlay(f.pos, c + b);
    assert g.Keys == h.Keys;
    forall i | i in g
      ensures g[i] == h[i]
    {
      if f.pos <= i < f.pos + |c| {
        assert g[i] == c[i - f.pos] == (c + b)[i - f.pos];
      }
    }
    assert g == h;
  }
}
