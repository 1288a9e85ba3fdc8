/** Fixed-width integers and their big-endian bytes. */
module Bytes {
  type byte = x: int | 0 <= x < 0x100
  type int8 = x: int | -0x80 <= x < 0x80
  type uint16 = x: int | 0 <= x < 0x1_0000
  type uint32 = x: int | 0 <= x < 0x1_0000_0000
  type int64 = x: int | -0x8000_0000_0000_0000 <= x < 0x8000_0000_0000_0000
  type bytes = seq<byte>

  /** The number of values that `w` bytes can hold. */
  function Pow256(w: nat): (p: nat)
    ensures p > 0
  {
    if w == 0 then 1 else 256 * Pow256(w - 1)
  }

  /** The low `w` bytes of `n`, most significant first.  Division and modulus
      round down, so a negative `n` yields its two's complement and a large `n`
      is cut, as Go's integer conversions do. */
  function BigEndian(n: int, w: nat): (b: bytes)
    ensures |b| == w
    decreases w
  {
    if w == 0 then [] else BigEndian(n / 256, w - 1) + [n % 256]
  }

  /** The unsigned number spelled by `b`. */
  function FromBigEndian(b: bytes): (n: nat)
    ensures n < Pow256(|b|)
  {
    if b == [] then 0
    else FromBigEndian(b[..|b| - 1]) * 256 + b[|b| - 1]
  }

  lemma OneByte(n: int)
    ensures BigEndian(n, 1) == [ToByte(n)]
  {
    assert BigEndian(n, 1) == BigEndian(n / 0x100, 0) + [n % 0x100];
  }

  lemma {:induction false} FromBigEndianOfBigEndian(n: nat, w: nat)
    requires n < Pow256(w)
    ensures FromBigEndian(BigEndian(n, w)) == n
    decreases w
  {
    if w > 0 {
      FromBigEndianOfBigEndian(n / 256, w - 1);
      var b := BigEndian(n, w);
      assert b[..|b| - 1] == BigEndian(n / 256, w - 1);
    }
  }

  lemma {:induction false} BigEndianOfFromBigEndian(b: bytes)
    ensures BigEndian(FromBigEndian(b), |b|) == b
  {
    if b != [] {
      BigEndianOfFromBigEndian(b[..|b| - 1]);
      assert FromBigEndian(b) / 256 == FromBigEndian(b[..|b| - 1]);
    }
  }

  lemma DivTwice(n: int, p: nat)
    requires p > 0
    ensures n / 256 / p == n / (256 * p)
  {
    var a := n / 256;
    var q, s := a / p, a % p;
    assert n == (256 * p) * q + (256 * s + n % 256) by {
      assert a == p * q + s;
    }
    DivUnique(n, 256 * p, q, 256 * s + n % 256);
  }

  lemma DivUnique(n: int, d: int, q: int, r: int)
    requires n == d * q + r && 0 <= r < d
    ensures n / d == q
  {
    var k := n / d - q;
    assert n == d * (n / d) + n % d;
    assert d * k == r - n % d;
    assert k >= 1 ==> d * k >= d;
    assert k <= -1 ==> d * k <= -d;
  }

  /** Every byte of a number, of any width and sign: most significant first. */
  lemma {:induction false} BigEndianAt(n: int, w: nat, i: nat)
    requires i < w
    ensures BigEndian(n, w)[i] == n / Pow256(w - 1 - i) % 256
    decreases w
  {
    if i < w - 1 {
      BigEndianAt(n / 256, w - 1, i);
      DivTwice(n, Pow256(w - 2 - i));
    } else {
      assert Pow256(0) == 1;
    }
  }

  /** Only the low `w` bytes of a number are written. */
  lemma {:induction false} BigEndianWraps(n: int, w: nat, k: int)
    ensures BigEndian(n + k * Pow256(w), w) == BigEndian(n, w)
    decreases w
  {
    if w > 0 {
      var p := k * Pow256(w - 1);
      assert k * Pow256(w) == 256 * p;
      DivUnique(n + 256 * p, 256, n / 256 + p, n % 256);
      BigEndianWraps(n / 256, w - 1, k);
    }
  }

  /** The bytes of `b`, each times its weight, most significant first. */
  function WeightedSum(b: bytes): nat {
    if b == [] then 0 else b[0] * Pow256(|b| - 1) + WeightedSum(b[1..])
  }

  lemma {:induction false} WeightedSumSnoc(b: bytes, last: byte)
    ensures WeightedSum(b + [last]) == WeightedSum(b) * 256 + last
  {
    if b == [] {
      assert b + [last] == [last] && [last][1..] == [];
    } else {
      assert (b + [last])[1..] == b[1..] + [last];
      WeightedSumSnoc(b[1..], last);
      assert Pow256(|b|) == 256 * Pow256(|b| - 1);
    }
  }

  lemma {:induction false} FromBigEndianWeighted(b: bytes)
    ensures FromBigEndian(b) == WeightedSum(b)
  {
    if b != [] {
      FromBigEndianWeighted(b[..|b| - 1]);
      WeightedSumSnoc(b[..|b| - 1], b[|b| - 1]);
      assert b == b[..|b| - 1] + [b[|b| - 1]];
    }
  }

  lemma BigEndian2(n: int)
    ensures BigEndian(n, 2) == [ToByte(n / 0x100), ToByte(n)]
  {
    assert BigEndian(n, 2) == BigEndian(n / 0x100, 1) + [n % 0x100];
    OneByte(n / 0x100);
  }

  lemma BigEndian4(n: int)
    ensures BigEndian(n, 4) == [n / 0x100_0000 % 0x100, n / 0x1_0000 % 0x100, n / 0x100 % 0x100, n % 0x100]
  {
    BigEndianAt(n, 4, 0);
    BigEndianAt(n, 4, 1);
    BigEndianAt(n, 4, 2);
    BigEndianAt(n, 4, 3);
  }

  lemma BigEndian8(n: int)
    ensures BigEndian(n, 8) == [
              n / 0x100_0000_0000_0000 % 0x100, n / 0x1_0000_0000_0000 % 0x100, n / 0x100_0000_0000 % 0x100,
              n / 0x1_0000_0000 % 0x100, n / 0x100_0000 % 0x100, n / 0x1_0000 % 0x100, n / 0x100 % 0x100, n % 0x100]
  {
    forall i: nat | i < 8 ensures BigEndian(n, 8)[i] == n / Pow256(7 - i) % 256 {
      BigEndianAt(n, 8, i);
    }
    assert Pow256(7) == 0x100_0000_0000_0000 && Pow256(6) == 0x1_0000_0000_0000 && Pow256(5) == 0x100_0000_0000;
    assert Pow256(4) == 0x1_0000_0000 && Pow256(3) == 0x100_0000 && Pow256(2) == 0x1_0000 && Pow256(1) == 0x100;
    assert Pow256(0) == 1;
  }

  /** Go's conversions between signed and unsigned integers of the same width. */
  function ToInt8(n: int): (x: int8)
  {
    var u := n % 0x100;
    if u >= 0x80 then u - 0x100 else u
  }

  function ToInt16(n: int): (x: int)
    ensures -0x8000 <= x < 0x8000
  {
    var u := n % 0x1_0000;
    if u >= 0x8000 then u - 0x1_0000 else u
  }

  function ToInt64(n: int): (x: int64)
  {
    var u := n % 0x1_0000_0000_0000_0000;
    if u >= 0x8000_0000_0000_0000 then u - 0x1_0000_0000_0000_0000 else u
  }

  function ToByte(n: int): (x: byte)
  {
    n % 0x100
  }

  function ToUint64(n: int): (x: nat)
    ensures x < 0x1_0000_0000_0000_0000
  {
    n % 0x1_0000_0000_0000_0000
  }

  /** Go's integer division, which rounds toward zero. */
  function Quotient(n: int, d: int): int
    requires d > 0
  {
    if n >= 0 then n / d else -((-n) / d)
  }

  /** `s`, cut to its first `bound` bytes when it is longer. */
  function Clamp(s: bytes, bound: nat): (r: bytes)
    ensures |r| == if |s| > bound then bound else |s|
  {
    if |s| > bound then s[..bound] else s
  }
}
