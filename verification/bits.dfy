/**
 Python's `&` and `|` on non-negative integers, defined bit by bit, and the
 facts that turn the masks the decoders use into ordinary arithmetic.
 */
module Bits {

  /** The weight of bit k. */
  function Pow2(k: nat): (r: nat)
    ensures r >= 1
  {
    if k == 0 then 1 else 2 * Pow2(k - 1)
  }

  /**
   `a & b` on non-negative operands, least significant bit first. The
   decoders only mask non-negative values; other operands read as 0.
   */
  function And(a: int, b: int): nat
  {
    if a <= 0 || b <= 0 then 0
    else 2 * And(a / 2, b / 2) + (if a % 2 == 1 && b % 2 == 1 then 1 else 0)
  }

  /** `a | b` on non-negative operands, least significant bit first. */
  function Or(a: nat, b: nat): nat
  {
    if a == 0 then b
    else if b == 0 then a
    else 2 * Or(a / 2, b / 2) + (if a % 2 == 1 || b % 2 == 1 then 1 else 0)
  }

  lemma MulSign(t: int, d: int)
    requires d > 0
    ensures t >= 1 ==> t * d >= d
    ensures t <= -1 ==> t * d <= -d
  {
    if t >= 1 {
      assert t * d == (t - 1) * d + d;
    } else if t <= -1 {
      assert t * d == (t + 1) * d - d;
    }
  }

  /** Quotient and remainder are unique. */
  lemma ModUnique(x: int, d: int, q: int, r: int)
    requires d > 0 && 0 <= r < d && x == q * d + r
    ensures x / d == q && x % d == r
  {
    var t := q - x / d;
    assert x == (x / d) * d + x % d;
    assert t * d == x % d - r;
    MulSign(t, d);
  }

  /** Dividing by 2p is halving, then dividing by p. */
  lemma DivMod2(x: nat, p: nat)
    requires p > 0
    ensures x % (2 * p) == 2 * ((x / 2) % p) + x % 2
    ensures x / (2 * p) == x / 2 / p
  {
    var q, r := x / 2 / p, (x / 2) % p;
    assert x / 2 == q * p + r;
    assert x == q * (2 * p) + (2 * r + x % 2);
    ModUnique(x, 2 * p, q, 2 * r + x % 2);
  }

  lemma {:induction false} AndCommutes(a: nat, b: nat)
    ensures And(a, b) == And(b, a)
    decreases a
  {
    if a != 0 && b != 0 {
      AndCommutes(a / 2, b / 2);
    }
  }

  lemma {:induction false} AndBounded(a: nat, b: nat)
    ensures And(a, b) <= a && And(a, b) <= b
    decreases a
  {
    if a != 0 && b != 0 {
      AndBounded(a / 2, b / 2);
    }
  }

  lemma AndLowStep(x: nat, p: nat)
    requires x > 0 && p >= 1
    ensures And(x, 2 * p - 1) == 2 * And(x / 2, p - 1) + x % 2
  {
    assert (2 * p - 1) / 2 == p - 1;
  }

  /** Masking with 2^k - 1 keeps the low k bits. */
  lemma {:induction false} AndLowMask(x: nat, k: nat)
    ensures And(x, Pow2(k) - 1) == x % Pow2(k)
    decreases k
  {
    var w := Pow2(k);
    if k == 0 {
      assert w == 1;
    } else if x == 0 {
      ModUnique(0, w, 0, 0);
    } else {
      var p := Pow2(k - 1);
      assert w == 2 * p;
      AndLowStep(x, p);
      AndLowMask(x / 2, k - 1);
      DivMod2(x, p);
    }
  }

  lemma HalveMask(x: nat, big: nat)
    requires x > 0 && big > 0
    ensures And(x, 2 * big) == 2 * And(x / 2, big)
  {
    assert (2 * big) / 2 == big;
  }

  lemma Double(a: int, p: nat, w: nat)
    requires w == 2 * p
    ensures a * w == 2 * (a * p)
  {
  }

  lemma ShiftedMaskStep(x: nat, m: nat, p: nat, w: nat)
    requires x > 0 && m > 0 && p > 0 && w == 2 * p
    requires And(x / 2, m * p) == And(x / 2 / p, m) * p
    ensures And(x, m * w) == And(x / w, m) * w
  {
    var a := And(x / 2 / p, m);
    assert And(x, m * w) == 2 * And(x / 2, m * p) by {
      Double(m, p, w);
      MulSign(m, p);
      HalveMask(x, m * p);
    }
    assert And(x / w, m) == a by {
      DivMod2(x, p);
    }
    Double(a, p, w);
  }

  /** Masking with m * 2^k looks only at the bits from position k up. */
  lemma {:induction false} AndShiftedMask(x: nat, m: nat, k: nat)
    ensures And(x, m * Pow2(k)) == And(x / Pow2(k), m) * Pow2(k)
    decreases k
  {
    var w := Pow2(k);
    if k == 0 {
      assert w == 1;
    } else if x == 0 {
      ModUnique(0, w, 0, 0);
    } else if m == 0 {
      assert m * w == 0;
    } else {
      var p := Pow2(k - 1);
      AndShiftedMask(x / 2, m, k - 1);
      ShiftedMaskStep(x, m, p, w);
    }
  }

  lemma OrShiftStep(a: nat, c: nat, p: nat)
    requires a > 0 && c > 0 && p > 0
    ensures a * (2 * p) == 2 * (a * p)
    ensures Or(a * (2 * p), c) == 2 * Or(a * p, c / 2) + c % 2
  {
    assert a * p > 0 by {
      MulSign(a, p);
    }
    assert (2 * (a * p)) / 2 == a * p;
  }

  /** Shifting left by k and or-ing in a value below 2^k is addition. */
  lemma {:induction false} OrShiftLow(a: nat, c: nat, k: nat)
    requires c < Pow2(k)
    ensures Or(a * Pow2(k), c) == a * Pow2(k) + c
    decreases k
  {
    var w := Pow2(k);
    if k == 0 {
      assert w == 1 && c == 0;
    } else if a == 0 {
      assert a * w == 0;
    } else if c != 0 {
      var p := Pow2(k - 1);
      assert w == 2 * p;
      OrShiftStep(a, c, p);
      OrShiftLow(a, c / 2, k - 1);
    }
  }

  lemma {:induction false} OrZero(a: nat, b: nat)
    ensures Or(a, b) == 0 <==> a == 0 && b == 0
    decreases a
  {
    if a != 0 && b != 0 {
      OrZero(a / 2, b / 2);
    }
  }

  /** `b & 0x7F` is the low seven bits. */
  lemma Low7(b: nat)
    ensures And(b, 0x7F) == b % 128
  {
    assert Pow2(7) == 128;
    AndLowMask(b, 7);
  }

  /** `b & 0x80` of a byte is its top bit, in place. */
  lemma Top1(b: nat)
    requires b < 256
    ensures And(b, 0x80) == (if b >= 128 then 128 else 0)
  {
    assert Pow2(7) == 128 && Pow2(1) == 2;
    AndShiftedMask(b, 1, 7);
    AndLowMask(b / 128, 1);
  }

  /** `b & 0x1F` is the low five bits. */
  lemma Low5(b: nat)
    ensures And(b, 0x1F) == b % 32
  {
    assert Pow2(5) == 32;
    AndLowMask(b, 5);
  }

  /** `b & 0x3F` is the low six bits. */
  lemma Low6(b: nat)
    ensures And(b, 0x3F) == b % 64
  {
    assert Pow2(6) == 64;
    AndLowMask(b, 6);
  }

  /** `b & 0x0F` is the low nibble. */
  lemma Low4(b: nat)
    ensures And(b, 0x0F) == b % 16
  {
    assert Pow2(4) == 16;
    AndLowMask(b, 4);
  }

  /** `s & 0xF0` of a byte is its high nibble, in place. */
  lemma High4(s: nat)
    requires s < 256
    ensures And(s, 0xF0) == s / 16 * 16
  {
    assert Pow2(4) == 16;
    var y := s / 16;
    assert y % 16 == y;
    AndShiftedMask(s, 15, 4);
    AndLowMask(y, 4);
  }

  /** A mask of the top (8 - k) bits of a byte is clear exactly when the byte is below 2^k. */
  lemma TopClear(b: nat, k: nat)
    requires b < 256 && 5 <= k <= 7
    ensures And(b, 256 - Pow2(k)) == 0 <==> b < Pow2(k)
  {
    var w := Pow2(k);
    assert Pow2(5) == 32 && Pow2(6) == 64 && Pow2(7) == 128 && Pow2(8 - k) * w == 256 by {
      assert Pow2(3) == 8 && Pow2(2) == 4 && Pow2(1) == 2;
    }
    AndShiftedMask(b, Pow2(8 - k) - 1, k);
    AndLowMask(b / w, 8 - k);
  }

  /** `b & 0x80 == 0` of a byte: bit 7 is clear. */
  lemma Top1Clear(b: nat)
    requires b < 256
    ensures And(b, 0x80) == 0 <==> b < 128
  {
    TopClear(b, 7);
    assert Pow2(7) == 128;
  }

  /** `b & 0xC0 == 0` of a byte: bits 6 and 7 are clear. */
  lemma Top2Clear(b: nat)
    requires b < 256
    ensures And(b, 0xC0) == 0 <==> b < 64
  {
    TopClear(b, 6);
    assert Pow2(6) == 64;
  }

  /** `b & 0xE0 == 0` of a byte: bits 5 to 7 are clear. */
  lemma Top3Clear(b: nat)
    requires b < 256
    ensures And(b, 0xE0) == 0 <==> b < 32
  {
    TopClear(b, 5);
    assert Pow2(5) == 32;
  }
}
