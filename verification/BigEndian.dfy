/** Fixed-width big-endian numbers, as putBigEndian writes them. */
module BigEndian {
  import opened Bytes

  /** The low n bytes of d, most significant first; a negative d counts in two's complement. */
  function Encode(d: int, n: nat): (s: seq<Byte>)
    ensures |s| == n
    decreases n
  {
    if n == 0 then [] else Encode(d / 256, n - 1) + [d % 256]
  }

  function Decode(s: seq<Byte>): (d: nat) {
    if s == [] then 0 else
      var low: nat := s[|s| - 1];
      256 * Decode(s[..|s| - 1]) + low
  }

  function Limit(n: nat): (m: nat)
    ensures m > 0
  {
    if n == 0 then 1 else 256 * Limit(n - 1)
  }

  /** Reading back a number gives it without what exceeds the width. */
  lemma {:induction false} DecodeTruncates(d: int, n: nat)
    ensures Decode(Encode(d, n)) == d % Limit(n)
    decreases n
  {
    if n > 0 {
      DecodeTruncates(d / 256, n - 1);
      assert Encode(d, n)[..n - 1] == Encode(d / 256, n - 1);
      RemainderSplits(d, Limit(n - 1));
    }
  }

  lemma RemainderSplits(d: int, m: nat)
    requires m > 0
    ensures d % (256 * m) == 256 * (d / 256 % m) + d % 256
  {
    var q, r := d / 256 / m, 256 * (d / 256 % m) + d % 256;
    assert d / 256 == m * q + d / 256 % m;
    assert d == (256 * m) * q + r && 0 <= r < 256 * m;
    RemainderIs(d, 256 * m, q, r);
  }

  lemma RemainderIs(d: int, m: nat, q: int, r: int)
    requires m > 0 && d == m * q + r && 0 <= r < m
    ensures d % m == r
  {
    var k := d / m - q;
    assert m * k == r - d % m;
    MultipleWithin(m, k);
  }

  /** Only zero times m is less than m away from zero. */
  lemma MultipleWithin(m: nat, k: int)
    ensures k == 0 || m * k >= m || m * k + m <= 0
  {
  }

  /** Reading back a number that fits the width gives the number. */
  lemma DecodeEncode(d: nat, n: nat)
    requires d < Limit(n)
    ensures Decode(Encode(d, n)) == d
  {
    DecodeTruncates(d, n);
  }

  /** Writing out what was read gives the same bytes. */
  lemma {:induction false} EncodeDecode(s: seq<Byte>)
    ensures Encode(Decode(s), |s|) == s
    decreases |s|
  {
    if s != [] {
      var low: nat := s[|s| - 1];
      EncodeDecode(s[..|s| - 1]);
      assert Decode(s) / 256 == Decode(s[..|s| - 1]) && Decode(s) % 256 == low;
      assert s[..|s| - 1] + [s[|s| - 1]] == s;
    }
  }

  lemma Limit4()
    ensures Limit(4) == 0x1_0000_0000
  {
  }

  /** The four bytes putBigEndian lays out; it writes the last n of them. */
  lemma EncodeFour(d: int, n: nat)
    requires n <= 4
    ensures [d / 16777216 % 256, d / 65536 % 256, d / 256 % 256, d % 256][4 - n..] == Encode(d, n)
  {
    EncodeShort(d);
    EncodeLong(d);
    var od := [d / 16777216 % 256, d / 65536 % 256, d / 256 % 256, d % 256];
    assert od[4..] == [] && od[3..] == [d % 256] && od[2..] == [d / 256 % 256, d % 256];
    assert od[1..] == [d / 65536 % 256, d / 256 % 256, d % 256] && od[0..] == od;
  }

  lemma EncodeShort(d: int)
    ensures Encode(d, 0) == [] && Encode(d, 1) == [d % 256] && Encode(d, 2) == [d / 256 % 256, d % 256]
  {
  }

  lemma EncodeLong(d: int)
    ensures Encode(d, 3) == [d / 65536 % 256, d / 256 % 256, d % 256]
    ensures Encode(d, 4) == [d / 16777216 % 256, d / 65536 % 256, d / 256 % 256, d % 256]
  {
    assert d / 256 / 256 == d / 65536 && d / 65536 / 256 == d / 16777216;
    EncodeShort(d / 256);
    EncodeShort(d / 65536);
    assert Encode(d, 3) == Encode(d / 256, 2) + [d % 256];
    assert Encode(d / 256, 3) == Encode(d / 65536, 2) + [d / 256 % 256];
  }
}
