// Kotlin's fixed-width integers (Byte, Short, Int, Long) over Dafny's unbounded
// `int`, and the big-endian byte layout of java.nio.ByteBuffer.

module Numeric {

  /** The bit pattern of one stored byte. A Kotlin `Byte` value is `Signed8` of it. */
  type byte = b: int | 0 <= b < 0x100

  const BYTE_MAX: int := 0x7f
  const SHORT_MIN: int := -0x8000
  const SHORT_MAX: int := 0x7fff
  const INT_MAX: int := 0x7fff_ffff

  predicate IsByte(x: int) { -0x80 <= x < 0x80 }
  predicate IsShort(x: int) { -0x8000 <= x < 0x8000 }
  predicate IsInt(x: int) { -0x8000_0000 <= x < 0x8000_0000 }
  predicate IsLong(x: int) { -0x8000_0000_0000_0000 <= x < 0x8000_0000_0000_0000 }

  /** Kotlin's `Byte`, `Short` and `Int` as value ranges. */
  type int8 = x: int | IsByte(x)
  type int16 = x: int | IsShort(x)
  type int32 = x: int | IsInt(x)

  /** Two's-complement wrap of `x` into the signed range of width `m`. */
  function Wrap(x: int, m: int): int
    requires m >= 2 && m % 2 == 0
  {
    var r := x % m;
    if r >= m / 2 then r - m else r
  }

  /** `Int.toByte()`: keeps the low 8 bits, read as signed. */
  function ToByte(x: int): (r: int)
    ensures IsByte(r) && (x - r) % 0x100 == 0
    ensures IsByte(x) ==> r == x
  {
    Wrap(x, 0x100)
  }

  /** `Int.toShort()`: keeps the low 16 bits, read as signed. */
  function ToShort(x: int): (r: int)
    ensures IsShort(r) && (x - r) % 0x1_0000 == 0
    ensures IsShort(x) ==> r == x
  {
    Wrap(x, 0x1_0000)
  }

  /** `Short` increment (`index++` on a `Short`) commutes with the truncation. */
  lemma ToShortStep(x: int)
    ensures ToShort(ToShort(x) + 1) == ToShort(x + 1)
  {
    var r := ToShort(x);
    var k := (x - r) / 0x1_0000;
    assert x + 1 == (r + 1) + k * 0x1_0000;
    assert (x + 1) % 0x1_0000 == (r + 1) % 0x1_0000;
  }

  /** 32-bit wrap-around of Kotlin `Int` arithmetic. */
  function ToInt(x: int): (r: int)
    ensures IsInt(r) && (x - r) % 0x1_0000_0000 == 0
    ensures IsInt(x) ==> r == x
  {
    Wrap(x, 0x1_0000_0000)
  }

  /** 64-bit wrap-around of Kotlin `Long` arithmetic. */
  function ToLong(x: int): (r: int)
    ensures IsLong(r) && (x - r) % 0x1_0000_0000_0000_0000 == 0
    ensures IsLong(x) ==> r == x
  {
    Wrap(x, 0x1_0000_0000_0000_0000)
  }

  /** Bitwise or of two naturals, built from the lowest bit up. */
  function OrNat(a: nat, b: nat): nat
    decreases a + b
  {
    if a == 0 then b else if b == 0 then a
    else 2 * OrNat(a / 2, b / 2) + (if a % 2 == 1 || b % 2 == 1 then 1 else 0)
  }

  function Pow2(k: nat): (r: nat)
    ensures r >= 1
  {
    if k == 0 then 1 else 2 * Pow2(k - 1)
  }

  /** `a or b` on two Kotlin `Int`s: the or of their 32-bit patterns, read as signed. */
  function Or32(a: int, b: int): (r: int)
    ensures IsInt(r)
  {
    ToInt(OrNat(a % 0x1_0000_0000, b % 0x1_0000_0000))
  }

  /** Or-ing in a value below `2^k` to a multiple of `2^k` is addition. */
  lemma {:induction false} OrBelowShift(a: nat, d: nat, k: nat)
    requires d < Pow2(k)
    ensures OrNat(a * Pow2(k), d) == a * Pow2(k) + d
  {
    var x := a * Pow2(k);
    if k == 0 || d == 0 || x == 0 {
    } else {
      var y := a * Pow2(k - 1);
      assert x == 2 * y by {
        assert Pow2(k) == 2 * Pow2(k - 1);
      }
      assert d / 2 < Pow2(k - 1);
      OrBelowShift(a, d / 2, k - 1);
      assert OrNat(x, d) == 2 * OrNat(y, d / 2) + d % 2;
    }
  }

  /** An or lies between the larger operand and the sum. */
  lemma {:induction false} OrNatBounds(a: nat, b: nat)
    ensures a <= OrNat(a, b) <= a + b && b <= OrNat(a, b)
    decreases a + b
  {
    if a != 0 && b != 0 {
      OrNatBounds(a / 2, b / 2);
    }
  }

  /** The stored bit pattern of a byte value. */
  function Unsigned8(x: int): byte
  {
    x % 0x100
  }

  /** The Kotlin `Byte` value of a stored byte. */
  function Signed8(b: byte): (r: int)
    ensures IsByte(r) && Unsigned8(r) == b
  {
    if b < 0x80 then b else b - 0x100
  }

  lemma Signed8OfUnsigned8(x: int)
    ensures Signed8(Unsigned8(x)) == ToByte(x)
  {
    assert ToByte(x) == Wrap(x, 0x100);
  }

  /** Truncating to a `Byte` first does not change the stored bit pattern. */
  lemma Unsigned8OfToByte(x: int)
    ensures Unsigned8(ToByte(x)) == Unsigned8(x)
  {
    var u := x % 0x100;
    if u >= 0x80 {
      assert ToByte(x) == u - 0x100;
      assert (u - 0x100) % 0x100 == u;
    } else {
      assert ToByte(x) == u;
      assert u % 0x100 == u;
    }
  }

  /** `putShort`: the two bytes of the low 16 bits of `v`, high byte first. */
  function ShortBytes(v: int): (r: seq<byte>)
    ensures |r| == 2
  {
    var u := v % 0x1_0000;
    [u / 0x100, u % 0x100]
  }

  /** `putInt`: the four bytes of the low 32 bits of `v`, high byte first. */
  function IntBytes(v: int): (r: seq<byte>)
    ensures |r| == 4
  {
    var u := v % 0x1_0000_0000;
    ShortBytes(u / 0x1_0000) + ShortBytes(u % 0x1_0000)
  }

  /** `putLong`: the eight bytes of the low 64 bits of `v`, high byte first. */
  function LongBytes(v: int): (r: seq<byte>)
    ensures |r| == 8
  {
    IntBytes(v / 0x1_0000_0000) + IntBytes(v % 0x1_0000_0000)
  }

  /** Truncating to a `Short` first does not change the bytes `putShort` stores. */
  lemma ShortBytesOfToShort(x: int)
    ensures ShortBytes(ToShort(x)) == ShortBytes(x)
  {
    var u := x % 0x1_0000;
    if u >= 0x8000 {
      assert ToShort(x) == u - 0x1_0000;
      assert (u - 0x1_0000) % 0x1_0000 == u;
    } else {
      assert ToShort(x) == u;
      assert u % 0x1_0000 == u;
    }
  }

  /** `getShort(i)`: the signed big-endian 16-bit value at `i`. */
  function GetShort(bs: seq<byte>, i: int): (r: int)
    requires 0 <= i && i + 2 <= |bs|
    ensures IsShort(r)
  {
    Wrap((bs[i] as int) * 0x100 + bs[i + 1] as int, 0x1_0000)
  }

  /** `getInt(i)`: the signed big-endian 32-bit value at `i`. */
  function GetInt(bs: seq<byte>, i: int): (r: int)
    requires 0 <= i && i + 4 <= |bs|
    ensures IsInt(r)
  {
    var hi: int := (bs[i] as int) * 0x100 + bs[i + 1] as int;
    var lo: int := (bs[i + 2] as int) * 0x100 + bs[i + 3] as int;
    Wrap(hi * 0x1_0000 + lo, 0x1_0000_0000)
  }

  /** `getLong(i)`: the signed big-endian 64-bit value at `i`. */
  function GetLong(bs: seq<byte>, i: int): (r: int)
    requires 0 <= i && i + 8 <= |bs|
    ensures IsLong(r)
  {
    var hi := GetInt(bs, i) % 0x1_0000_0000;
    var lo := GetInt(bs, i + 4) % 0x1_0000_0000;
    Wrap(hi * 0x1_0000_0000 + lo, 0x1_0000_0000_0000_0000)
  }

  /** A short written big-endian reads back as the same Kotlin `Short`. */
  lemma ShortRoundTrip(v: int, prefix: seq<byte>, suffix: seq<byte>)
    ensures GetShort(prefix + ShortBytes(v) + suffix, |prefix|) == ToShort(v)
  {
    var s := prefix + ShortBytes(v) + suffix;
    var u := v % 0x1_0000;
    assert s[|prefix|] == u / 0x100 && s[|prefix| + 1] == u % 0x100;
    assert (u / 0x100) * 0x100 + u % 0x100 == u;
  }

  /** A 16-bit value is its high byte times 256 plus its low byte. */
  lemma ByteSplit(u: int)
    requires 0 <= u < 0x1_0000
    ensures (u / 0x100) * 0x100 + u % 0x100 == u
  {
  }

  /** A 32-bit value is its high half times 65536 plus its low half. */
  lemma HalfSplit(u: int)
    requires 0 <= u < 0x1_0000_0000
    ensures 0 <= u / 0x1_0000 < 0x1_0000 && (u / 0x1_0000) * 0x1_0000 + u % 0x1_0000 == u
  {
  }

  /** An int written big-endian reads back as the same Kotlin `Int`. */
  lemma IntRoundTrip(v: int, prefix: seq<byte>, suffix: seq<byte>)
    ensures GetInt(prefix + IntBytes(v) + suffix, |prefix|) == ToInt(v)
  {
    var s := prefix + IntBytes(v) + suffix;
    var u := v % 0x1_0000_0000;
    var h := u / 0x1_0000;
    var l := u % 0x1_0000;
    var p := |prefix|;
    HalfSplit(u);
    ByteSplit(h);
    ByteSplit(l);
    assert s[p..p + 4] == ShortBytes(h) + ShortBytes(l);
    var hi: int := (s[p] as int) * 0x100 + s[p + 1] as int;
    var lo: int := (s[p + 2] as int) * 0x100 + s[p + 3] as int;
    assert hi == h && lo == l;
    assert hi * 0x1_0000 + lo == u && u % 0x1_0000_0000 == u;
  }

  /** A 64-bit value is its high 32-bit half times 2^32 plus its low half. */
  lemma LongSplit(v: int)
    ensures var h, l := (v / 0x1_0000_0000) % 0x1_0000_0000, v % 0x1_0000_0000;
            0 <= h * 0x1_0000_0000 + l < 0x1_0000_0000_0000_0000
            && (h * 0x1_0000_0000 + l) % 0x1_0000_0000_0000_0000 == v % 0x1_0000_0000_0000_0000
  {
    var q, l := v / 0x1_0000_0000, v % 0x1_0000_0000;
    var k, h := q / 0x1_0000_0000, q % 0x1_0000_0000;
    assert v == k * 0x1_0000_0000_0000_0000 + (h * 0x1_0000_0000 + l);
  }

  /** The low 32 bits survive the wrap into an `Int`. */
  lemma ToIntLowBits(x: int)
    ensures ToInt(x) % 0x1_0000_0000 == x % 0x1_0000_0000
  {
    var r := x % 0x1_0000_0000;
    if r >= 0x8000_0000 {
      assert ToInt(x) == r - 0x1_0000_0000;
    }
  }

  /** Wrapping depends only on the value modulo the width. */
  lemma WrapCongruent(x: int, y: int, m: int)
    requires m >= 2 && m % 2 == 0 && x % m == y % m
    ensures Wrap(x, m) == Wrap(y, m)
  {
  }

  /** A long written big-endian reads back as the same Kotlin `Long`. */
  lemma LongRoundTrip(v: int, prefix: seq<byte>, suffix: seq<byte>)
    ensures GetLong(prefix + LongBytes(v) + suffix, |prefix|) == ToLong(v)
  {
    var s := prefix + LongBytes(v) + suffix;
    var p := |prefix|;
    var q, l := v / 0x1_0000_0000, v % 0x1_0000_0000;
    var hiBytes, loBytes := IntBytes(q), IntBytes(l);
    assert s == prefix + hiBytes + (loBytes + suffix);
    IntRoundTrip(q, prefix, loBytes + suffix);
    assert s == (prefix + hiBytes) + loBytes + suffix;
    IntRoundTrip(l, prefix + hiBytes, suffix);
    ToIntLowBits(q);
    ToIntLowBits(l);
    var h := q % 0x1_0000_0000;
    assert GetInt(s, p) % 0x1_0000_0000 == h;
    assert GetInt(s, p + 4) % 0x1_0000_0000 == l;
    LongSplit(v);
    WrapCongruent(h * 0x1_0000_0000 + l, v, 0x1_0000_0000_0000_0000);
  }
}
