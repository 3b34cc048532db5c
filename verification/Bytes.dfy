/** Bytes and big-endian fields, as both byte-level scripts use them. */
module Bytes {

  type Byte = b: int | 0 <= b < 256

  function Power256(n: nat): (p: nat)
    ensures p > 0
  {
    if n == 0 then 1 else 256 * Power256(n - 1)
  }

  /** `int.to_bytes(width, "big")`. */
  function ToBig(value: nat, width: nat): (r: seq<Byte>)
    ensures |r| == width
  {
    if width == 0 then [] else ToBig(value / 256, width - 1) + [value % 256]
  }

  /** `int.from_bytes(..., "big")`. */
  function FromBig(s: seq<Byte>): nat {
    if s == [] then 0 else FromBig(s[..|s| - 1]) * 256 + s[|s| - 1]
  }

  lemma {:induction false} BigRoundTrip(value: nat, width: nat)
    requires value < Power256(width)
    ensures FromBig(ToBig(value, width)) == value
  {
    if width > 0 {
      BigRoundTrip(value / 256, width - 1);
      var r := ToBig(value, width);
      assert r[..width - 1] == ToBig(value / 256, width - 1);
    }
  }

  lemma {:induction false} BigIsUnique(s: seq<Byte>)
    ensures FromBig(s) < Power256(|s|) && ToBig(FromBig(s), |s|) == s
  {
    if s != [] {
      var n := |s| - 1;
      BigIsUnique(s[..n]);
      assert FromBig(s) / 256 == FromBig(s[..n]) && FromBig(s) % 256 == s[n];
    }
  }

  lemma {:induction false} Widths()
    ensures Power256(1) == 0x100 && Power256(2) == 0x1_0000 && Power256(3) == 0x100_0000
    ensures Power256(8) == 0x1_0000_0000_0000_0000
  {
    assert Power256(4) == 0x1_0000_0000;
    assert Power256(6) == 0x1_0000_0000_0000;
  }

  /** Bitwise exclusive or of the low `width` bits. */
  function XorBits(a: nat, b: nat, width: nat): nat {
    if width == 0 then 0 else 2 * XorBits(a / 2, b / 2, width - 1) + (a % 2 + b % 2) % 2
  }

  function Power2(n: nat): nat { if n == 0 then 1 else 2 * Power2(n - 1) }

  lemma {:induction false} BitUndoes(p: nat, q: nat)
    requires p < 2 && q < 2
    ensures ((p + q) % 2 + q) % 2 == p
  {
  }

  lemma {:induction false} XorUndoes(a: nat, b: nat, width: nat)
    requires a < Power2(width)
    ensures XorBits(a, b, width) < Power2(width) && XorBits(XorBits(a, b, width), b, width) == a
  {
    if width > 0 {
      XorUndoes(a / 2, b / 2, width - 1);
      var high, low := XorBits(a / 2, b / 2, width - 1), (a % 2 + b % 2) % 2;
      XorParts(a, b, width, high, low);
      XorParts(2 * high + low, b, width, a / 2, a % 2);
    }
  }

  lemma {:induction false} XorParts(a: nat, b: nat, width: nat, high: nat, low: nat)
    requires width > 0 && low < 2
    requires XorBits(a / 2, b / 2, width - 1) == high && (a % 2 + b % 2) % 2 == low
    ensures XorBits(a, b, width) == 2 * high + low
    ensures (2 * high + low) / 2 == high && (2 * high + low) % 2 == low && (low + b % 2) % 2 == a % 2
  {
    BitUndoes(a % 2, b % 2);
  }

  function Xor(a: Byte, b: Byte): Byte {
    XorUndoes(a, b, 8);
    XorBits(a, b, 8)
  }

  // ---------------------------------------------------------------- byte by byte, bit by bit

  /** The widths in use, the most significant byte first. */
  lemma {:induction false} BigDigits(value: nat)
    ensures ToBig(value, 1) == [value % 256]
    ensures ToBig(value, 2) == [value / 256 % 256, value % 256]
    ensures ToBig(value, 3) == [value / 256 / 256 % 256, value / 256 % 256, value % 256]
  {
    assert ToBig(value, 0) == [] && ToBig(value / 256, 0) == [] && ToBig(value / 256 / 256, 0) == [];
    assert ToBig(value / 256, 1) == [value / 256 % 256] && ToBig(value / 256 / 256, 1) == [value / 256 / 256 % 256];
    assert ToBig(value / 256, 2) == ToBig(value / 256 / 256, 1) + [value / 256 % 256];
  }

  function BigEndian(s: seq<Byte>): nat {
    Weighed(s, 0) + Weighed(s, 1) + Weighed(s, 2) + Weighed(s, 3) + Weighed(s, 4) + Weighed(s, 5) + Weighed(s, 6) +
    Weighed(s, 7)
  }

  /** Each byte weighs 256 times as much as the one behind it. */
  lemma {:induction false} BigWeights(s: seq<Byte>)
    requires |s| <= 8
    ensures FromBig(s) == BigEndian(s)
  {
    if s != [] {
      var front := s[..|s| - 1];
      BigWeights(front);
      WeighedFront(s, 0);
      WeighedFront(s, 1);
      WeighedFront(s, 2);
      WeighedFront(s, 3);
      WeighedFront(s, 4);
      WeighedFront(s, 5);
      WeighedFront(s, 6);
      WeighedFront(s, 7);
    }
  }

  /** The byte `i` places from the end, by its weight. */
  function Weighed(s: seq<Byte>, i: nat): nat
    requires i < 8
  {
    if i >= |s| then 0 else s[|s| - 1 - i] * WEIGHTS[i]
  }

  const WEIGHTS := [0x1, 0x100, 0x1_0000, 0x100_0000, 0x1_0000_0000, 0x100_0000_0000, 0x1_0000_0000_0000,
                    0x100_0000_0000_0000]

  lemma {:induction false} WeighedFront(s: seq<Byte>, i: nat)
    requires s != [] && i < 8
    ensures i < 7 ==> Weighed(s, i + 1) == 256 * Weighed(s[..|s| - 1], i)
    ensures Weighed(s, 0) == s[|s| - 1]
  {
  }

  /** Bit `k` of a number, the lowest being bit 0. */
  function BitOf(n: nat, k: nat): nat { if k == 0 then n % 2 else BitOf(n / 2, k - 1) }

  lemma {:induction false} XorBitsMeaning(a: nat, b: nat, width: nat, k: nat)
    requires k < width
    ensures BitOf(XorBits(a, b, width), k) == (if BitOf(a, k) != BitOf(b, k) then 1 else 0)
  {
    var high, low := XorBits(a / 2, b / 2, width - 1), (a % 2 + b % 2) % 2;
    XorParts(a, b, width, high, low);
    if k > 0 { XorBitsMeaning(a / 2, b / 2, width - 1, k - 1); }
  }

  /** A bit of the result is set exactly when it is set in one of the two bytes. */
  lemma {:induction false} XorMeaning(a: Byte, b: Byte, k: nat)
    requires k < 8
    ensures BitOf(Xor(a, b), k) == (if BitOf(a, k) != BitOf(b, k) then 1 else 0)
  {
    XorBitsMeaning(a, b, 8, k);
  }
}
