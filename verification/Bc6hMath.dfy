/** The numeric pipeline of a BC6H block, lines 306-524 of externals/bc_decoder/bc_decoder.cpp. */
module Bc6hMath {
  import opened Bits

  /** Storing an int in a uint16_t. */
  function ToU16(x: int): nat { x % 65536 }

  /** Reading a uint16_t as an int16_t. */
  function FromU16(v: nat): int { if v < 32768 then v else v - 65536 }

  // ---------------------------------------------------------------- sign extension

  /** Lines 324-325: flip the top bit, subtract it. */
  function ExtendSign(v: nat, size: nat): int
    requires size >= 1
  {
    Xor(v, Pow2(size - 1)) - Pow2(size - 1)
  }

  lemma {:induction false} XorTopBit(v: nat, s: nat)
    requires v < Pow2(s + 1)
    ensures Xor(v, Pow2(s)) == if v < Pow2(s) then v + Pow2(s) else v - Pow2(s)
  {
    XorHalf(v, Pow2(s));
    if s > 0 {
      XorTopBit(v / 2, s - 1);
      assert Pow2(s) / 2 == Pow2(s - 1) && Pow2(s) % 2 == 0;
    } else {
      assert Pow2(0) == 1 && Pow2(1) == 2;
      assert Xor(v / 2, 0) == v / 2;
    }
  }

  /** Two's complement of the given width. */
  lemma {:induction false} ExtendSignMeans(v: nat, size: nat)
    requires size >= 1 && v < Pow2(size)
    ensures ExtendSign(v, size) == if v < Pow2(size - 1) then v else v - Pow2(size)
  {
    XorTopBit(v, size - 1);
  }

  // ---------------------------------------------------------------- deltas

  /** The number below 2^n that `x` is congruent to. */
  function Wrap(x: int, n: nat): (r: nat)
    decreases if x < 0 then -x else 0
  {
    if x >= 0 then Low(x, n) else Wrap(x + Pow2(n), n)
  }

  lemma {:induction false} LowPlusPower(a: nat, n: nat)
    ensures Low(a + Pow2(n), n) == Low(a, n)
  {
    Recombine(a, n);
    ShlPow(0, n);
    ShlSum(Shr(a, n), 1, n);
    Split(Low(a, n), Shr(a, n) + 1, n);
  }

  lemma {:induction false} ShlPow(m: nat, n: nat)
    ensures Shl(Pow2(m), n) == Pow2(m + n)
  {
    if n > 0 { ShlPow(m, n - 1); }
  }

  /** Adding 2^n any number of times does not matter. */
  lemma {:induction false} WrapPlus(x: int, k: nat, n: nat)
    ensures Wrap(x + Shl(k, n), n) == Wrap(x, n)
    decreases k
  {
    if k > 0 {
      ShlSum(k - 1, 1, n);
      ShlPow(0, n);
      WrapPlus(x, k - 1, n);
      WrapPlusOne(x + Shl(k - 1, n), n);
    } else {
      ShlZero(n);
    }
  }

  lemma {:induction false} WrapPlusOne(x: int, n: nat)
    ensures Wrap(x + Pow2(n), n) == Wrap(x, n)
  {
    if x >= 0 { LowPlusPower(x, n); }
  }

  lemma {:induction false} SixteenBits()
    ensures Pow2(16) == 65536
  {
    assert Pow2(4) == 16;
    assert Pow2(8) == 256;
    assert Pow2(12) == 4096;
  }

  /** Lines 357-361: the sum of two stored channels, cut to the base's width. */
  function Resolve(base: nat, delta: nat, size: nat): nat { Low(base + delta, size) }

  /** Storing a sign-extended number of `w` bits adds a multiple of 2^n to it. */
  lemma {:induction false} StoredCongruent(x: int, n: nat) returns (k: nat)
    requires -32768 <= x < 32768 && n <= 16
    ensures ToU16(x) == x + Shl(k, n)
  {
    if x >= 0 {
      k := 0;
      ShlZero(n);
    } else {
      k := Pow2(16 - n);
      ShlPow(16 - n, n);
      SixteenBits();
    }
  }

  /** A resolved endpoint is the base plus the signed delta, modulo 2^n, in signed and unsigned formats alike. */
  lemma {:induction false} ResolveMeans(base: nat, delta: nat, n: nat, w: nat, signed: bool)
    requires 1 <= w <= 16 && 1 <= n <= 16 && base < Pow2(n) && delta < Pow2(w)
    ensures var b := if signed then ToU16(ExtendSign(base, n)) else base;
            Resolve(b, ToU16(ExtendSign(delta, w)), n) == Wrap(base + ExtendSign(delta, w), n)
  {
    hide Wrap, Shl, Low, Xor, ExtendSign, ToU16, Pow2;
    SixteenBits();
    Pow2Monotone(n, 16);
    Pow2Monotone(w, 16);
    TopBitHalves(n);
    TopBitHalves(w);
    var d := ExtendSign(delta, w);
    ExtendSignMeans(delta, w);
    ExtendSignMeans(base, n);
    var kd := StoredCongruent(d, n);
    if signed {
      var s := ExtendSign(base, n);
      var ks := StoredCongruent(s, n);
      ShlSum(ks, kd, n);
      WrapPlus(s + d, ks + kd, n);
      WrapPlusOne(s + d, n);
      WrapNonNegative(ToU16(s) + ToU16(d), n);
    } else {
      WrapPlus(base + d, kd, n);
      WrapNonNegative(base + ToU16(d), n);
    }
  }

  lemma {:induction false} TopBitHalves(n: nat)
    requires n >= 1
    ensures Pow2(n) == 2 * Pow2(n - 1)
  {}

  lemma {:induction false} WrapNonNegative(x: nat, n: nat) ensures Wrap(x, n) == Low(x, n) {}

  // ---------------------------------------------------------------- unquantization

  /** Lines 379-392. */
  function UnquantizeUnsigned(v: nat, size: nat): nat {
    if size >= 15 || v == 0 then v
    else if v == Pow2(size) - 1 then 0xFFFF
    else ToU16(Shr(v * 65536 + 0x8000, size))
  }

  /** Lines 394-422. */
  function UnquantizeSigned(x: int, size: nat): int
    requires size >= 1
  {
    if size >= 16 || x == 0 then x
    else
      var value := if x < 0 then -x else x;
      var result := if value >= Pow2(size - 1) - 1 then 0x7FFF else Shr(value * 32768 + 0x4000, size - 1);
      if x < 0 then -result else result
  }

  lemma {:induction false} ShrMonotone(a: nat, b: nat, n: nat)
    requires a <= b
    ensures Shr(a, n) <= Shr(b, n)
  {
    if n > 0 { ShrMonotone(a / 2, b / 2, n - 1); }
  }

  /** v * 2^m plus less than 2^m stays below 2^(m+n) when v is below 2^n. */
  lemma {:induction false} ScaledBound(v: nat, m: nat, n: nat, power: nat, extra: nat)
    requires v < Pow2(n) && power == Pow2(m) && extra < power
    ensures v * power + extra < Pow2(m + n)
  {
    if m == 0 {
      assert power == 1;
      assert v * power == v;
    } else {
      ScaledBound(v, m - 1, n, power / 2, extra / 2);
      assert v * power == 2 * (v * (power / 2));
    }
  }

  lemma {:induction false} UnsignedInRange(v: nat, size: nat)
    requires 1 <= size <= 16 && v < Pow2(size)
    ensures UnquantizeUnsigned(v, size) < 65536
    ensures size < 15 && 0 < v < Pow2(size) - 1 ==> UnquantizeUnsigned(v, size) == Shr(v * 65536 + 0x8000, size)
  {
    SixteenBits();
    Pow2Monotone(size, 16);
    ScaledBound(v, 16, size, 65536, 0x8000);
    ShrBound(v * 65536 + 0x8000, 16, size);
  }

  /** Larger quantized values never become smaller. */
  lemma {:induction false} UnsignedMonotone(u: nat, v: nat, size: nat)
    requires 1 <= size <= 16 && u <= v < Pow2(size)
    ensures UnquantizeUnsigned(u, size) <= UnquantizeUnsigned(v, size)
  {
    hide UnquantizeUnsigned;
    UnsignedInRange(u, size);
    UnsignedInRange(v, size);
    ShrMonotone(u * 65536 + 0x8000, v * 65536 + 0x8000, size);
    UnsignedEnds(u, size);
    UnsignedEnds(v, size);
  }

  lemma {:induction false} UnsignedEnds(v: nat, size: nat)
    ensures size >= 15 || v == 0 ==> UnquantizeUnsigned(v, size) == v
    ensures size < 15 && 0 < v == Pow2(size) - 1 ==> UnquantizeUnsigned(v, size) == 0xFFFF
  {}

  lemma {:induction false} SignedInRange(x: int, size: nat)
    requires 2 <= size < 16 && 0 - Pow2(size - 1) <= x < Pow2(size - 1)
    ensures -0x7FFF <= UnquantizeSigned(x, size) <= 0x7FFF
  {
    var value := if x < 0 then -x else x;
    if value < Pow2(size - 1) - 1 {
      assert Pow2(15) == 32768 by { SixteenBits(); }
      ScaledBound(value, 15, size - 1, 32768, 0x4000);
      ShrBound(value * 32768 + 0x4000, 15, size - 1);
    }
  }

  lemma {:induction false} SignedMonotone(x: int, y: int, size: nat)
    requires 2 <= size <= 16 && 0 - Pow2(size - 1) <= x <= y < Pow2(size - 1)
    ensures UnquantizeSigned(x, size) <= UnquantizeSigned(y, size)
  {
    if size < 16 {
      SignedInRange(x, size);
      SignedInRange(y, size);
      if x > 0 {
        ShrMonotone(x * 32768 + 0x4000, y * 32768 + 0x4000, size - 1);
      } else if y < 0 {
        ShrMonotone(-y * 32768 + 0x4000, -x * 32768 + 0x4000, size - 1);
      }
    }
  }

  /** Shifting right is dividing by the power. */
  lemma {:induction false} ShrDivides(a: nat, n: nat)
    ensures Shr(a, n) * Pow2(n) <= a < (Shr(a, n) + 1) * Pow2(n)
  {
    Recombine(a, n);
    ShlIsProduct(Shr(a, n), n);
    assert (Shr(a, n) + 1) * Pow2(n) == Shr(a, n) * Pow2(n) + Pow2(n);
  }

  /** Unquantized values are at the middle of their share of the range, the ends at its ends. */
  lemma {:induction false} UnsignedCentre(v: nat, size: nat)
    requires 1 <= size <= 16 && v < Pow2(size)
    ensures var r := UnquantizeUnsigned(v, size);
            if size >= 15 || v == 0 then r == v
            else if v == Pow2(size) - 1 then r == 0xFFFF
            else r * Pow2(size) <= v * 65536 + 32768 < (r + 1) * Pow2(size)
  {
    hide Shr;
    UnsignedInRange(v, size);
    ShrDivides(v * 65536 + 0x8000, size);
  }

  /** The same for magnitudes of signed values, which keep their sign. */
  lemma {:induction false} SignedCentre(x: int, size: nat)
    requires 2 <= size <= 16 && 0 - Pow2(size - 1) <= x < Pow2(size - 1)
    ensures UnquantizeSigned(-x, size) == -UnquantizeSigned(x, size)
    ensures x >= 0 ==>
              var r := UnquantizeSigned(x, size);
              if size >= 16 || x == 0 then r == x
              else if x == Pow2(size - 1) - 1 then r == 0x7FFF
              else 0 <= r && r * Pow2(size - 1) <= x * 32768 + 16384 < (r + 1) * Pow2(size - 1)
  {
    hide Shr;
    if 0 < x && size < 16 { ShrDivides(x * 32768 + 0x4000, size - 1); }
  }

  // ---------------------------------------------------------------- interpolation

  /** Lines 482-484 and 1263-1265: the weights of both formats; a stored index never leaves its table. */
  function Weight(bits: nat, index: nat): nat {
    if bits == 2 then (if index < 4 then [0, 21, 43, 64][index] else 0)
    else if bits == 3 then (if index < 8 then [0, 9, 18, 27, 37, 46, 55, 64][index] else 0)
    else if index < 16 then [0, 4, 9, 13, 17, 21, 26, 30, 34, 38, 43, 47, 51, 55, 60, 64][index] else 0
  }

  lemma {:induction false} WeightAtMost64(bits: nat, index: nat)
    ensures Weight(bits, index) <= 64
  {}

  /** Lines 503-506; the shift of a negative sum rounds down. */
  function Blend(e0: int, e1: int, w: nat): int { (e0 * (64 - w) + e1 * w + 32) / 64 }

  /** Lines 511-520. */
  function Finish(x: int, signed: bool): nat {
    if !signed then ToU16(x * 31 / 64)
    else
      var h := if x < 0 then Or(-x * 31 / 32, 0x8000) else x * 31 / 32;
      if h == 0x8000 then 0 else ToU16(h)
  }

  /** A blend lies between its endpoints and reaches them at the ends of the weights. */
  lemma {:induction false} BlendBetween(e0: int, e1: int, w: nat)
    requires w <= 64
    ensures (e0 <= e1 ==> e0 <= Blend(e0, e1, w) <= e1) && (e1 <= e0 ==> e1 <= Blend(e0, e1, w) <= e0)
    ensures Blend(e0, e1, 0) == e0 && Blend(e0, e1, 64) == e1
  {
    BlendForm(e0, e1, w);
    BlendForm(e0, e1, 0);
    BlendForm(e0, e1, 64);
    if e0 <= e1 { PartOf(e1 - e0, w); } else { PartOf(e0 - e1, w); }
  }

  lemma {:induction false} BlendForm(e0: int, e1: int, w: nat)
    ensures Blend(e0, e1, w) == (64 * e0 + (e1 - e0) * w + 32) / 64
    ensures (e1 - e0) * w == -((e0 - e1) * w)
  {
    assert e0 * (64 - w) + e1 * w == 64 * e0 + (e1 - e0) * w;
  }

  lemma {:induction false} PartOf(k: nat, w: nat)
    requires w <= 64
    ensures 0 <= k * w <= 64 * k
  {
    assert k * w + k * (64 - w) == 64 * k;
  }

  /** Every output of the unsigned format is a finite half-float. */
  lemma {:induction false} UnsignedOutputFinite(e0: nat, e1: nat, w: nat)
    requires e0 < 65536 && e1 < 65536 && w <= 64
    ensures Finish(Blend(e0, e1, w), false) <= 0x7BFF
  {
    BlendBetween(e0, e1, w);
  }

  /** When a blend is the least signed number. */
  lemma {:induction false} LowestBlend(e0: int, e1: int, w: nat)
    requires w <= 64 && e0 >= -0x8000 && e1 >= -0x8000
    ensures Blend(e0, e1, w) == -0x8000 <==> (e0 + 0x8000) * (64 - w) + (e1 + 0x8000) * w < 32
  {
    var rise := (e0 + 0x8000) * (64 - w) + (e1 + 0x8000) * w;
    assert (e0 + 0x8000) * (64 - w) == e0 * (64 - w) + 0x8000 * (64 - w);
    assert (e1 + 0x8000) * w == e1 * w + 0x8000 * w;
    assert e0 * (64 - w) + e1 * w + 32 == rise + 32 - 0x8000 * 64;
    assert rise >= 0 by {
      assert (e0 + 0x8000) * (64 - w) >= 0 && (e1 + 0x8000) * w >= 0;
    }
  }

  /** The sign bit joins a magnitude of at most 15 bits. */
  lemma {:induction false} JoinSign(m: nat)
    requires m < 0x8000
    ensures Or(m, 0x8000) == m + 0x8000
  {
    assert Pow2(15) == 0x8000 by { SixteenBits(); }
    ShlPow(0, 15);
    OrDisjoint(m, 1, 15);
  }

  /**
    In the signed format the magnitude is finite unless the blend is -32768, which only endpoints of
    the 16-bit mode can reach; then the output is the bit pattern of minus infinity.
   */
  lemma {:induction false} SignedOutputFinite(x: int)
    requires -32768 <= x <= 32767
    ensures Finish(x, true) % 0x8000 <= 0x7BFF <==> x != -32768
    ensures x == -32768 ==> Finish(x, true) == 0xFC00
    ensures Finish(x, true) != 0x8000
  {
    hide Or;
    if x < 0 {
      JoinSign(-x * 31 / 32);
    }
  }
}
