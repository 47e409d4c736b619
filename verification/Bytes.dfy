/** Bytes, 512-byte blocks and the field accessors and bit operators of the C sources. */
module Bytes {
  type byte = b: int | 0 <= b < 256
  type Block = b: seq<byte> | |b| == 512 witness seq(512, _ => 0)
  type Image = seq<Block>

  /** What memset(data, 0, 512) leaves. */
  function ZeroBlock(): (z: Block)
    ensures forall i :: 0 <= i < 512 ==> z[i] == 0
  {
    seq(512, _ => 0)
  }

  /** A definition of the form "forall k {:trigger Key(k)} :: Folded(k) ==> P" means P, but it
      stays folded in every proof that does not mention Key.  Each such definition has a key
      of its own. */
  ghost predicate Folded(k: int)
  {
    true
  }

  // ---------------------------------------------------------------
  // GET_INT16, SET_INT16, GET_INT24, SET_INT24
  // ---------------------------------------------------------------

  function Get16(p: seq<byte>, i: nat): (v: nat)
    requires i + 2 <= |p|
    ensures v < 0x1_0000
  {
    var lo: int, hi: int := p[i], p[i + 1];
    lo + 256 * hi
  }

  function Set16(p: seq<byte>, i: nat, v: nat): (q: seq<byte>)
    requires i + 2 <= |p|
    ensures |q| == |p|
  {
    p[i := v % 256][i + 1 := (v / 256) % 256]
  }

  function Get24(p: seq<byte>, i: nat): (v: nat)
    requires i + 3 <= |p|
    ensures v < 0x100_0000
  {
    var lo: int, mid: int, hi: int := p[i], p[i + 1], p[i + 2];
    lo + 256 * mid + 65536 * hi
  }

  /** SET_INT24 keeps the low 24 bits of the value. */
  function Set24(p: seq<byte>, i: nat, v: nat): (q: seq<byte>)
    requires i + 3 <= |p|
    ensures |q| == |p|
  {
    p[i := v % 256][i + 1 := (v / 256) % 256][i + 2 := (v / 65536) % 256]
  }

  lemma LowBytes(v: nat)
    ensures v % 0x1_0000 == v % 256 + 256 * ((v / 256) % 256)
    ensures v % 0x100_0000 == v % 256 + 256 * ((v / 256) % 256) + 65536 * ((v / 65536) % 256)
  {
    LowAndHigh(v, 256);
    LowAndHigh(v, 65536);
    assert v / 65536 == v / 256 / 256;
  }

  /** The low byte, the next one, and the rest. */
  lemma LowAndHigh(v: nat, m: nat)
    requires m == 256 || m == 65536
    ensures v % (256 * m) == v % m + m * ((v / m) % 256)
  {
    var b := v / m;
    assert v == 256 * m * (b / 256) + (v % m + m * (b % 256));
  }

  lemma Get24AfterSet24(p: seq<byte>, i: nat, v: nat)
    requires i + 3 <= |p|
    ensures Get24(Set24(p, i, v), i) == v % 0x100_0000
  {
    LowBytes(v);
    var q := Set24(p, i, v);
    assert q[i] == v % 256 && q[i + 1] == (v / 256) % 256 && q[i + 2] == (v / 65536) % 256;
  }

  lemma Get24ApartFromSet24(p: seq<byte>, i: nat, v: nat, j: nat)
    requires i + 3 <= |p| && j + 3 <= |p| && (j + 3 <= i || i + 3 <= j)
    ensures Get24(Set24(p, i, v), j) == Get24(p, j)
  {
    var q := Set24(p, i, v);
    assert q[j] == p[j] && q[j + 1] == p[j + 1] && q[j + 2] == p[j + 2];
  }

  lemma Get16AfterSet16(p: seq<byte>, i: nat, v: nat)
    requires i + 2 <= |p|
    ensures Get16(Set16(p, i, v), i) == v % 0x1_0000
  {
    LowBytes(v);
    var q := Set16(p, i, v);
    assert q[i] == v % 256 && q[i + 1] == (v / 256) % 256;
  }

  // ---------------------------------------------------------------
  // Bitwise operators on unsigned values, one binary digit at a time
  // ---------------------------------------------------------------

  function And(a: nat, b: nat): (r: nat)
    ensures r <= a
  {
    if a == 0 then 0 else 2 * And(a / 2, b / 2) + (if a % 2 == 1 && b % 2 == 1 then 1 else 0)
  }

  function Or(a: nat, b: nat): (r: nat)
    decreases a + b
  {
    if a == 0 && b == 0 then 0 else 2 * Or(a / 2, b / 2) + (if a % 2 == 1 || b % 2 == 1 then 1 else 0)
  }

  /** a & ~b */
  function AndNot(a: nat, b: nat): (r: nat)
    ensures r <= a
  {
    if a == 0 then 0 else 2 * AndNot(a / 2, b / 2) + (if a % 2 == 1 && b % 2 == 0 then 1 else 0)
  }

  /** Digit n of a, counted from the least significant one. */
  predicate Digit(a: nat, n: nat)
  {
    if n == 0 then a % 2 == 1 else Digit(a / 2, n - 1)
  }

  function Pow2(n: nat): (p: nat)
    ensures p > 0
  {
    if n == 0 then 1 else 2 * Pow2(n - 1)
  }

  function WithDigit(a: nat, n: nat, v: bool): nat
  {
    if n == 0 then a / 2 * 2 + (if v then 1 else 0) else 2 * WithDigit(a / 2, n - 1, v) + a % 2
  }

  lemma {:induction false} AndZero(a: nat)
    ensures And(a, 0) == 0
    ensures AndNot(a, 0) == a
    ensures Or(a, 0) == a
  {
    if a != 0 { AndZero(a / 2); }
  }

  lemma {:induction false} OrZero(a: nat)
    ensures Or(0, a) == a
  {
    if a != 0 { OrZero(a / 2); }
  }

  /** A one-digit mask tests, sets and clears exactly that digit. */
  lemma {:induction false} MaskOperators(a: nat, n: nat)
    ensures (And(a, Pow2(n)) != 0) == Digit(a, n)
    ensures Or(a, Pow2(n)) == WithDigit(a, n, true)
    ensures AndNot(a, Pow2(n)) == WithDigit(a, n, false)
  {
    if n == 0 {
      AndZero(a / 2);
      assert Or(a, 1) == 2 * Or(a / 2, 0) + 1;
    } else {
      MaskOperators(a / 2, n - 1);
      assert Pow2(n) / 2 == Pow2(n - 1);
      assert Or(a, Pow2(n)) == 2 * Or(a / 2, Pow2(n - 1)) + a % 2;
    }
  }

  lemma {:induction false} WithDigitDigit(a: nat, n: nat, v: bool, m: nat)
    ensures Digit(WithDigit(a, n, v), m) == if m == n then v else Digit(a, m)
  {
    if n > 0 && m > 0 {
      WithDigitDigit(a / 2, n - 1, v, m - 1);
      assert WithDigit(a, n, v) / 2 == WithDigit(a / 2, n - 1, v);
    }
  }

  lemma {:induction false} WithDigitBound(a: nat, n: nat, v: bool, w: nat)
    requires a < Pow2(w) && n < w
    ensures WithDigit(a, n, v) < Pow2(w)
  {
    if n > 0 { WithDigitBound(a / 2, n - 1, v, w - 1); }
  }

  lemma {:induction false} DigitsExtensional(a: nat, b: nat, w: nat)
    requires a < Pow2(w) && b < Pow2(w)
    requires forall n: nat :: n < w ==> Digit(a, n) == Digit(b, n)
    ensures a == b
  {
    if w > 0 {
      assert Digit(a, 0) == Digit(b, 0);
      forall n: nat | n < w - 1 ensures Digit(a / 2, n) == Digit(b / 2, n) {
        assert Digit(a, n + 1) == Digit(b, n + 1);
      }
      DigitsExtensional(a / 2, b / 2, w - 1);
    }
  }

  lemma {:induction false} DigitOfZero(n: nat)
    ensures !Digit(0, n)
  {
    if n > 0 { DigitOfZero(n - 1); }
  }

  // ---------------------------------------------------------------
  // Bits of a byte, most significant first: bit 0 has mask 0x80
  // ---------------------------------------------------------------

  function Mask(k: nat): byte
    requires k < 8
  {
    if k == 0 then 0x80 else if k == 1 then 0x40 else if k == 2 then 0x20 else if k == 3 then 0x10
    else if k == 4 then 0x08 else if k == 5 then 0x04 else if k == 6 then 0x02 else 0x01
  }

  predicate BitOf(b: byte, k: nat)
    requires k < 8
  {
    Digit(b, 7 - k)
  }

  function WithBitOf(b: byte, k: nat, v: bool): (r: byte)
    requires k < 8
    ensures BitOf(r, k) == v
    ensures forall j: nat :: j < 8 && j != k ==> BitOf(r, j) == BitOf(b, j)
  {
    Pow2Of8();
    WithDigitBound(b, 7 - k, v, 8);
    var r: byte := WithDigit(b, 7 - k, v);
    assert forall j: nat :: j < 8 ==> BitOf(r, j) == if j == k then v else BitOf(b, j) by {
      forall j: nat | j < 8 ensures BitOf(r, j) == if j == k then v else BitOf(b, j) {
        WithDigitDigit(b, 7 - k, v, 7 - j);
      }
    }
    r
  }

  lemma Pow2Of8()
    ensures Pow2(8) == 256
  {
    assert Pow2(4) == 16;
  }

  lemma {:induction false} MaskIsPow2(k: nat)
    requires k < 8
    ensures Mask(k) == Pow2(7 - k)
  {
    assert Pow2(1) == 2 && Pow2(2) == 4;
    assert Pow2(3) == 8 && Pow2(4) == 16;
    assert Pow2(5) == 32 && Pow2(6) == 64;
    assert Pow2(7) == 128;
  }

  /** What `b & mask`, `b | mask` and `b & ~mask` mean when mask is 0x80 >> k. */
  lemma {:induction false} MaskBits(b: byte, k: nat)
    requires k < 8
    ensures (And(b, Mask(k)) == 0) == !BitOf(b, k)
    ensures Or(b, Mask(k)) == WithBitOf(b, k, true)
    ensures AndNot(b, Mask(k)) == WithBitOf(b, k, false)
  {
    MaskIsPow2(k);
    MaskOperators(b, 7 - k);
  }

  lemma ByteExtensional(a: byte, b: byte)
    requires forall k: nat :: k < 8 ==> BitOf(a, k) == BitOf(b, k)
    ensures a == b
  {
    forall n: nat | n < 8 ensures Digit(a, n) == Digit(b, n) {
      assert BitOf(a, 7 - n) == BitOf(b, 7 - n);
    }
    Pow2Of8();
    DigitsExtensional(a, b, 8);
  }
}
