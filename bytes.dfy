/**
 * Octets and the little-endian fields of the wire format.
 *
 * Go's `byte(x)` keeps the low 8 bits of a two's-complement `int`, and
 * `x >> k` on a signed `int` is an arithmetic shift, i.e. floor division
 * by 2^k. Dafny's `/` and `%` are Euclidean, which for a positive divisor
 * is exactly floor division and a non-negative remainder, so
 * `byte(x >> k)` is `(x / 2^k) % 256` for every integer x, negative ones
 * included.
 */
module Bytes {

  /** Go's `byte`. */
  type byte = b: int | 0 <= b < 256

  const Two16: int := 0x1_0000
  const Two32: int := 0x1_0000_0000
  const Two64: int := 0x1_0000_0000_0000_0000

  /** Go's conversion `byte(x)` of an `int`: the byte congruent to x modulo 256. */
  function Low8(x: int): (r: byte)
    ensures (x - r) % 256 == 0
    ensures 0 <= x < 256 ==> r == x
  {
    DivModUnique(x - x % 256, 256, x / 256, 0);
    x % 256
  }

  /**
   * `byte(x), byte(x >> 8)`: the low 16 bits of x, least significant byte
   * first; decoding gives back x modulo 2^16.
   */
  function Le16(x: int): (r: seq<byte>)
    ensures |r| == 2 && ReadLe16(r, 0) == x % Two16
  {
    ModSplit(x, 0x100);
    [Low8(x), Low8(x / 0x100)]
  }

  /**
   * `byte(x), byte(x >> 8), byte(x >> 16), byte(x >> 24)`; decoding gives
   * back x modulo 2^32.
   */
  function Le32(x: int): (r: seq<byte>)
    ensures |r| == 4 && ReadLe32(r, 0) == x % Two32
  {
    var r := [Low8(x), Low8(x / 0x100), Low8(x / 0x1_0000), Low8(x / 0x100_0000)];
    assert ReadLe16(r, 0) == ReadLe16(Le16(x), 0);
    DivDiv(x, 0x100, 0x100);
    DivDiv(x, 0x1_0000, 0x100);
    assert ReadLe16(r, 2) == ReadLe16(Le16(x / Two16), 0);
    ModSplit16(x, Two16);
    r
  }

  /** The unsigned 16-bit value stored little-endian at s[i], s[i+1]. */
  function ReadLe16(s: seq<byte>, i: nat): (v: nat)
    requires i + 2 <= |s|
    ensures v < Two16
  {
    s[i] as int + 0x100 * (s[i + 1] as int)
  }

  /** The unsigned 32-bit value stored little-endian at s[i..i+4]. */
  function ReadLe32(s: seq<byte>, i: nat): (v: nat)
    requires i + 4 <= |s|
    ensures v < Two32
  {
    ReadLe16(s, i) + Two16 * ReadLe16(s, i + 2)
  }

  /** Splitting off the low byte: x mod (256 m) is its low byte plus 256 times (x / 256) mod m. */
  lemma ModSplit(x: int, m: int)
    requires m > 0
    ensures x % (0x100 * m) == x % 0x100 + 0x100 * ((x / 0x100) % m)
  {
    var q, r := x / 0x100, x % 0x100;
    var s := 0x100 * (q % m) + r;
    assert x == 0x100 * m * (q / m) + s;
    assert 0 <= s < 0x100 * m;
    DivModUnique(x, 0x100 * m, q / m, s);
  }

  /** Euclidean division is unique: a quotient and an in-range remainder determine x % d. */
  lemma DivModUnique(x: int, d: int, k: int, s: int)
    requires d > 0 && x == d * k + s && 0 <= s < d
    ensures x % d == s && x / d == k
  {
    var k', s' := x / d, x % d;
    assert d * k + s == d * k' + s';
    MulDiff(d, k, k');
    if k < k' {
      MulAtLeast(d, k' - k);
    } else if k > k' {
      MulAtLeast(d, k - k');
    }
  }

  lemma MulDiff(d: int, k: int, k': int)
    ensures d * k - d * k' == d * (k - k')
  {
  }

  lemma {:induction false} MulAtLeast(d: int, n: int)
    requires d > 0 && n >= 1
    ensures d * n >= d
  {
    if n > 1 {
      MulAtLeast(d, n - 1);
      assert d * n == d * (n - 1) + d;
    }
  }

  /** Floor division composes: (x / a) / b == x / (a b). */
  lemma DivDiv(x: int, a: int, b: int)
    requires a > 0 && b > 0
    ensures (x / a) / b == x / (a * b)
  {
    var q, r1 := x / a, x % a;
    var k, r2 := q / b, q % b;
    assert x == a * q + r1;
    assert q == b * k + r2;
    assert a * q == a * (b * k) + a * r2;
    assert a * (b * k) == (a * b) * k;
    MulDiff(a, b - 1, r2);
    if r2 < b - 1 {
      MulAtLeast(a, b - 1 - r2);
    }
    assert a * r2 <= a * (b - 1);
    assert a * (b - 1) == a * b - a;
    DivModUnique(x, a * b, k, a * r2 + r1);
  }

  /** Splitting off the low 16 bits: x mod (2^16 m) is x mod 2^16 plus 2^16 times (x / 2^16) mod m. */
  lemma ModSplit16(x: int, m: int)
    requires m > 0
    ensures x % (Two16 * m) == x % Two16 + Two16 * ((x / Two16) % m)
  {
    var q, r := x / Two16, x % Two16;
    var s := Two16 * (q % m) + r;
    assert x == Two16 * m * (q / m) + s;
    assert 0 <= s < Two16 * m;
    DivModUnique(x, Two16 * m, q / m, s);
  }

  /** Encoding a decoded 16-bit field gives back the same two bytes. */
  lemma ReadLe16Encodes(s: seq<byte>, i: nat)
    requires i + 2 <= |s|
    ensures Le16(ReadLe16(s, i)) == s[i..i + 2]
  {
    var v := ReadLe16(s, i);
    DivModUnique(v, 0x100, s[i + 1], s[i]);
  }

  /** Encoding a decoded 32-bit field gives back the same four bytes. */
  lemma ReadLe32Encodes(s: seq<byte>, i: nat)
    requires i + 4 <= |s|
    ensures Le32(ReadLe32(s, i)) == s[i..i + 4]
  {
    var lo, hi := ReadLe16(s, i), ReadLe16(s, i + 2);
    var v := ReadLe32(s, i);
    DivModUnique(v, Two16, hi, lo);
    DivModUnique(lo, 0x100, s[i + 1], s[i]);
    DivModUnique(hi, 0x100, s[i + 3], s[i + 2]);
    DivDiv(v, 0x100, 0x100);
    DivDiv(v, Two16, 0x100);
    ModSplit16(v, 0x100);
    assert v % Two16 == lo;
    assert (v / 0x100) % 0x100 == s[i + 1] by {
      ModSplit(v, 0x100);
    }
  }

  /**
   * Only the low bits reach the wire: values that agree modulo 2^64, such
   * as a Go `int` and its wrapped-around result, encode identically.
   */
  lemma Le16IgnoresWrap(x: int, k: int)
    ensures Le16(x + k * Two64) == Le16(x)
  {
    var y := x + k * Two64;
    DivModUnique(y, 0x100, x / 0x100 + k * (Two64 / 0x100), x % 0x100);
    DivModUnique(y / 0x100, 0x100, x / Two16 + k * (Two64 / Two16), (x / 0x100) % 0x100);
    DivDiv(x, 0x100, 0x100);
  }
}
