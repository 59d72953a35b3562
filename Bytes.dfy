/** Bytes and fixed-width big-endian integers, as produced by Ruby's
    `Array#pack` with the directives `C`, `S>`, `L>` and `Q>`: the integer is
    reduced modulo 256^width (two's complement for negative values) and
    written most significant byte first. */
module Bytes {

  type Byte = bv8

  function Pow256(n: nat): (r: nat)
    ensures r > 0
  {
    if n == 0 then 1 else 256 * Pow256(n - 1)
  }

  /** The byte whose unsigned value is `v`. Counting up instead of writing
      `v as bv8` keeps the solver away from integer-to-bit-vector conversion,
      which is slow and unstable in the proofs that use it. */
  function ByteOf(v: int): (b: Byte)
    requires 0 <= v < 256
    ensures b as int == v
  {
    if v == 0 then 0 else ByteOf(v - 1) + 1
  }

  /** Every byte is the ByteOf its own value. */
  lemma ByteOfValue(b: Byte)
    ensures ByteOf(b as int) == b
  {
  }

  /** The `width` bytes that `pack` writes for `x`, most significant first. */
  function BigEndian(x: int, width: nat): (r: seq<Byte>)
    ensures |r| == width
    decreases width
  {
    if width == 0 then [] else BigEndian(x / 256, width - 1) + [ByteOf(x % 256)]
  }

  /** Reads a big-endian unsigned integer back from its bytes. */
  function FromBigEndian(s: seq<Byte>): (r: nat)
    ensures r < Pow256(|s|)
  {
    if s == [] then 0 else FromBigEndian(s[..|s| - 1]) * 256 + s[|s| - 1] as nat
  }

  /** Euclidean division by a positive divisor is determined by any
      quotient/remainder pair with the remainder in range. */
  lemma DivModUnique(x: int, m: int, q: int, r: int)
    requires m > 0 && 0 <= r < m && x == q * m + r
    ensures x / m == q && x % m == r
  {
    var q', r' := x / m, x % m;
    assert q' * m + r' == q * m + r;
    if q' > q {
      assert (q' - q) * m == q' * m - q * m;
      MulAtLeast(q' - q, m);
    } else if q' < q {
      assert (q - q') * m == q * m - q' * m;
      MulAtLeast(q - q', m);
    }
  }

  lemma MulAtLeast(d: int, m: int)
    requires d >= 1 && m > 0
    ensures d * m >= m
  {
    assert d * m == (d - 1) * m + m;
  }

  /** Taking one byte off the bottom and then dividing by `m` is dividing by `256 * m`. */
  lemma DivModByte(x: int, m: int)
    requires m > 0
    ensures x / (256 * m) == (x / 256) / m
    ensures x % (256 * m) == ((x / 256) % m) * 256 + x % 256
  {
    var q, r := x / 256, x % 256;
    var k, j := q / m, q % m;
    assert x == k * (256 * m) + (j * 256 + r);
    assert 0 <= j * 256 + r < 256 * m;
    DivModUnique(x, 256 * m, k, j * 256 + r);
  }

  /** Decoding the bytes `pack` writes gives the integer modulo 256^width. */
  lemma {:induction false} FromBigEndianOfBigEndian(x: int, width: nat)
    ensures FromBigEndian(BigEndian(x, width)) == x % Pow256(width)
    decreases width
  {
    if width > 0 {
      var p := Pow256(width - 1);
      var high := BigEndian(x / 256, width - 1);
      FromBigEndianOfBigEndian(x / 256, width - 1);
      FromBigEndianAppend(high, ByteOf(x % 256));
      DivModByte(x, p);
      assert Pow256(width) == 256 * p;
      assert BigEndian(x, width) == high + [ByteOf(x % 256)];
      var lowPart, highPart := x % 256, (x / 256) % p;
      assert FromBigEndian(BigEndian(x, width)) == highPart * 256 + lowPart;
      assert x % Pow256(width) == highPart * 256 + lowPart;
    }
  }

  lemma FromBigEndianAppend(high: seq<Byte>, b: Byte)
    ensures FromBigEndian(high + [b]) == FromBigEndian(high) * 256 + b as nat
  {
    assert (high + [b])[..|high|] == high;
  }

  /** Encoding a decoded byte string gives the bytes back. */
  lemma {:induction false} BigEndianOfFromBigEndian(s: seq<Byte>)
    ensures BigEndian(FromBigEndian(s), |s|) == s
  {
    if s != [] {
      var init, last := s[..|s| - 1], s[|s| - 1];
      var v := FromBigEndian(s);
      DivModUnique(v, 256, FromBigEndian(init), last as int);
      ByteOfValue(last);
      BigEndianOfFromBigEndian(init);
      assert BigEndian(v, |s|) == BigEndian(FromBigEndian(init), |init|) + [ByteOf(last as int)];
      assert s == init + [last];
    }
  }

  /** `pack` depends on its integer only modulo 256^width. */
  lemma BigEndianMod(x: int, width: nat)
    ensures BigEndian(x, width) == BigEndian(x % Pow256(width), width)
  {
    FromBigEndianOfBigEndian(x, width);
    BigEndianOfFromBigEndian(BigEndian(x, width));
  }

  /** The low `low` bytes of a wider big-endian encoding are the narrower encoding. */
  lemma {:induction false} BigEndianSplit(x: int, high: nat, low: nat)
    ensures BigEndian(x, high + low) == BigEndian(x / Pow256(low), high) + BigEndian(x, low)
    decreases low
  {
    if low > 0 {
      BigEndianSplit(x / 256, high, low - 1);
      DivModByte(x, Pow256(low - 1));
    }
  }
}
