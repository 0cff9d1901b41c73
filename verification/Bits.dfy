/**
  Shifts, masks and bitwise operators on unsigned numbers.  Everything is built by halving and
  doubling, so that proofs follow the bits one at a time.
 */
module Bits {

  type Byte = x: int | 0 <= x < 256

  /** C's integer division, which rounds toward zero. */
  function Quotient(a: int, d: int): int
    requires d > 0
  {
    if a >= 0 then a / d else -((-a) / d)
  }

  function Pow2(n: nat): (p: nat)
    ensures p > 0
  {
    if n == 0 then 1 else 2 * Pow2(n - 1)
  }

  function Shl(a: nat, n: nat): nat {
    if n == 0 then a else 2 * Shl(a, n - 1)
  }

  function Shr(a: nat, n: nat): nat {
    if n == 0 then a else Shr(a / 2, n - 1)
  }

  /** The low `n` bits. */
  function Low(a: nat, n: nat): nat {
    if n == 0 then 0 else a % 2 + 2 * Low(a / 2, n - 1)
  }

  /** `n` bits from position `at` on. */
  function Field(a: nat, at: nat, n: nat): nat { Low(Shr(a, at), n) }

  function And(a: nat, b: nat): nat {
    if a == 0 || b == 0 then 0 else (if a % 2 == 1 && b % 2 == 1 then 1 else 0) + 2 * And(a / 2, b / 2)
  }

  function Or(a: nat, b: nat): nat {
    if a == 0 then b else if b == 0 then a
    else (if a % 2 == 1 || b % 2 == 1 then 1 else 0) + 2 * Or(a / 2, b / 2)
  }

  function Xor(a: nat, b: nat): nat {
    if a == 0 then b else if b == 0 then a
    else (if a % 2 == b % 2 then 0 else 1) + 2 * Xor(a / 2, b / 2)
  }

  // ---------------------------------------------------------------- shifting

  lemma {:induction false} NoShift(a: nat)
    ensures Shl(a, 0) == a && Shr(a, 0) == a
  {
  }

  lemma {:induction false} Pow2Monotone(m: nat, n: nat)
    requires m <= n
    ensures Pow2(m) <= Pow2(n)
  {
    if m < n { Pow2Monotone(m, n - 1); }
  }

  lemma {:induction false} ShlShl(a: nat, m: nat, n: nat)
    ensures Shl(Shl(a, m), n) == Shl(a, m + n)
  {
    if n > 0 { ShlShl(a, m, n - 1); }
  }

  lemma {:induction false} ShlSum(a: nat, b: nat, n: nat)
    ensures Shl(a + b, n) == Shl(a, n) + Shl(b, n)
  {
    if n > 0 { ShlSum(a, b, n - 1); }
  }

  lemma {:induction false} ShlBound(a: nat, m: nat, n: nat)
    requires a < Pow2(m)
    ensures Shl(a, n) + Pow2(n) <= Pow2(m + n)
  {
    if n > 0 { ShlBound(a, m, n - 1); }
  }

  lemma {:induction false} ShlIsProduct(a: nat, n: nat)
    ensures Shl(a, n) == a * Pow2(n)
  {
    if n > 0 {
      ShlIsProduct(a, n - 1);
      assert a * Pow2(n) == 2 * (a * Pow2(n - 1));
    }
  }

  lemma {:induction false} ShrShr(a: nat, m: nat, n: nat)
    ensures Shr(Shr(a, m), n) == Shr(a, m + n)
  {
    if m > 0 { ShrShr(a / 2, m - 1, n); }
  }

  /** A number is its low part and the shifted rest. */
  lemma {:induction false} Recombine(a: nat, n: nat)
    ensures Low(a, n) + Shl(Shr(a, n), n) == a && Low(a, n) < Pow2(n)
  {
    if n > 0 { Recombine(a / 2, n - 1); }
  }

  /** ... and is taken apart that way in only one way. */
  lemma {:induction false} Split(a: nat, b: nat, n: nat)
    requires a < Pow2(n)
    ensures Low(a + Shl(b, n), n) == a && Shr(a + Shl(b, n), n) == b
  {
    if n > 0 {
      assert (a + Shl(b, n)) / 2 == a / 2 + Shl(b, n - 1);
      Split(a / 2, b, n - 1);
    }
  }

  lemma {:induction false} LowSmall(a: nat, n: nat)
    requires a < Pow2(n)
    ensures Low(a, n) == a && Shr(a, n) == 0
  {
    if n > 0 { LowSmall(a / 2, n - 1); }
  }

  lemma {:induction false} LowLow(a: nat, m: nat, n: nat)
    requires n <= m
    ensures Low(Low(a, m), n) == Low(a, n)
  {
    if n > 0 {
      assert Low(a, m) / 2 == Low(a / 2, m - 1);
      LowLow(a / 2, m - 1, n - 1);
    }
  }

  lemma {:induction false} ShrLow(a: nat, m: nat, n: nat)
    requires n <= m
    ensures Shr(Low(a, m), n) == Low(Shr(a, n), m - n)
  {
    if n > 0 {
      assert Low(a, m) / 2 == Low(a / 2, m - 1);
      ShrLow(a / 2, m - 1, n - 1);
    }
  }

  lemma {:induction false} ShrBound(a: nat, m: nat, n: nat)
    requires a < Pow2(m + n)
    ensures Shr(a, n) < Pow2(m)
  {
    if n > 0 { ShrBound(a / 2, m, n - 1); }
  }

  /** A shift right by eight drops a byte. */
  lemma {:induction false} ByteSplit(a: nat)
    ensures Low(a, 8) == a % 256 && Shr(a, 8) == a / 256
  {
    Recombine(a, 8);
    var b := Shr(a, 8);
    assert Shl(b, 8) == 256 * b by { ShlByte(b); }
    assert Pow2(8) == 256 by { PowByte(); }
  }

  lemma {:induction false} PowByte()
    ensures Pow2(8) == 256
  {
    assert Pow2(4) == 16;
  }

  lemma {:induction false} ShlByte(b: nat)
    ensures Shl(b, 8) == 256 * b
  {
    assert Shl(b, 1) == 2 * b;
    assert Shl(b, 2) == 4 * b;
    assert Shl(b, 3) == 8 * b;
    assert Shl(b, 4) == 16 * b;
    assert Shl(b, 6) == 64 * b;
  }

  // ---------------------------------------------------------------- the bitwise operators

  /** Masking with 2^n - 1 keeps the low `n` bits. */
  lemma {:induction false} AndMask(a: nat, n: nat)
    ensures And(a, Pow2(n) - 1) == Low(a, n)
  {
    if n > 0 {
      AndMask(a / 2, n - 1);
      assert (Pow2(n) - 1) / 2 == Pow2(n - 1) - 1 && (Pow2(n) - 1) % 2 == 1;
      if a == 0 { AndMask(0, n - 1); }
    }
  }

  /** Masking with a shifted mask and shifting back reads the field under the mask. */
  lemma {:induction false} AndShifted(a: nat, m: nat, k: nat)
    ensures Shr(And(a, Shl(m, k)), k) == And(Shr(a, k), m)
  {
    if k > 0 {
      AndShifted(a / 2, m, k - 1);
      assert And(a, Shl(m, k)) / 2 == And(a / 2, Shl(m, k - 1));
    }
  }

  lemma {:induction false} ReadField(a: nat, k: nat, n: nat)
    ensures Shr(And(a, Shl(Pow2(n) - 1, k)), k) == Field(a, k, n)
  {
    AndShifted(a, Pow2(n) - 1, k);
    AndMask(Shr(a, k), n);
  }

  /** A field masked in place. */
  lemma {:induction false} AndField(a: nat, k: nat, n: nat)
    ensures And(a, Shl(Pow2(n) - 1, k)) == Shl(Field(a, k, n), k)
  {
    if k == 0 {
      AndMask(a, n);
    } else {
      AndField(a / 2, k - 1, n);
    }
  }

  lemma {:induction false} ShrShl(a: nat, m: nat, n: nat)
    requires n <= m
    ensures Shr(Shl(a, m), n) == Shl(a, m - n)
  {
    if n > 0 {
      assert Shl(a, m) / 2 == Shl(a, m - 1);
      ShrShl(a, m - 1, n - 1);
    }
  }

  lemma {:induction false} OrCommutes(a: nat, b: nat)
    ensures Or(a, b) == Or(b, a)
  {
    if a != 0 && b != 0 { OrCommutes(a / 2, b / 2); }
  }

  /** Bits that do not overlap are joined by adding. */
  lemma {:induction false} OrDisjoint(a: nat, b: nat, n: nat)
    requires a < Pow2(n)
    ensures Or(a, Shl(b, n)) == a + Shl(b, n)
  {
    if n > 0 {
      OrDisjoint(a / 2, b, n - 1);
    }
  }

  lemma {:induction false} XorHalf(a: nat, b: nat)
    ensures Xor(a, b) / 2 == Xor(a / 2, b / 2) && Xor(a, b) % 2 == (if a % 2 == b % 2 then 0 else 1)
  {
  }

  lemma {:induction false} XorShr(a: nat, b: nat, n: nat)
    ensures Shr(Xor(a, b), n) == Xor(Shr(a, n), Shr(b, n))
  {
    if n > 0 {
      XorHalf(a, b);
      XorShr(a / 2, b / 2, n - 1);
    }
  }

  lemma {:induction false} XorLow(a: nat, b: nat, n: nat)
    ensures Low(Xor(a, b), n) == Xor(Low(a, n), Low(b, n))
  {
    if n > 0 {
      hide Xor;
      XorHalf(a, b);
      XorLow(a / 2, b / 2, n - 1);
      var la, lb := Low(a, n), Low(b, n);
      assert la / 2 == Low(a / 2, n - 1) && lb / 2 == Low(b / 2, n - 1) && la % 2 == a % 2 && lb % 2 == b % 2;
      XorHalf(la, lb);
    }
  }

  lemma {:induction false} XorBound(a: nat, b: nat, n: nat)
    requires a < Pow2(n) && b < Pow2(n)
    ensures Xor(a, b) < Pow2(n)
  {
    if n > 0 {
      XorHalf(a, b);
      XorBound(a / 2, b / 2, n - 1);
    }
  }

  // ---------------------------------------------------------------- digits of a fixed width

  /** Digits of `w` bits each, lowest first. */
  function Digits(s: seq<nat>, w: nat): nat {
    if s == [] then 0 else s[0] + Shl(Digits(s[1..], w), w)
  }

  lemma {:induction false} DigitsAppend(s: seq<nat>, w: nat, x: nat)
    ensures Digits(s + [x], w) == Digits(s, w) + Shl(x, w * |s|)
  {
    if s == [] {
      ShlZero(w);
    } else {
      DigitsAppend(s[1..], w, x);
      assert (s + [x])[1..] == s[1..] + [x];
      ShlSum(Digits(s[1..], w), Shl(x, w * (|s| - 1)), w);
      ShlShl(x, w * (|s| - 1), w);
      assert w * (|s| - 1) + w == w * |s|;
    }
  }

  lemma {:induction false} ShlZero(n: nat)
    ensures Shl(0, n) == 0
  {
    if n > 0 { ShlZero(n - 1); }
  }

  /** Each digit is read back by shifting to it and keeping its bits. */
  lemma {:induction false} DigitsRead(s: seq<nat>, w: nat, i: nat)
    requires i < |s| && forall k :: 0 <= k < |s| ==> s[k] < Pow2(w)
    ensures Field(Digits(s, w), w * i, w) == s[i]
  {
    Split(s[0], Digits(s[1..], w), w);
    if i > 0 {
      DigitsRead(s[1..], w, i - 1);
      ShrShr(Digits(s, w), w, w * (i - 1));
      assert w + w * (i - 1) == w * i;
    }
  }

  lemma {:induction false} DigitsBound(s: seq<nat>, w: nat)
    requires forall k :: 0 <= k < |s| ==> s[k] < Pow2(w)
    ensures Digits(s, w) < Pow2(w * |s|)
  {
    if s != [] {
      DigitsBound(s[1..], w);
      ShlBound(Digits(s[1..], w), w * (|s| - 1), w);
      assert w * (|s| - 1) + w == w * |s|;
    }
  }

  /** Bytes in memory read as one little-endian number. */
  function LittleEndian(s: seq<Byte>): nat { Digits(s, 8) }

  /** The `n` lowest bytes of `v`, as a sequence of stores writes them. */
  function Bytes(v: nat, n: nat): (r: seq<Byte>)
    ensures |r| == n
  {
    seq(n, k requires 0 <= k < n => Shr(v, 8 * k) % 256)
  }

  lemma {:induction false} BytesReadBack(v: nat, n: nat)
    requires v < Pow2(8 * n)
    ensures LittleEndian(Bytes(v, n)) == v
  {
    if n > 0 {
      var tail := Bytes(v, n)[1..];
      ByteSplit(v);
      ShrBound(v, 8 * (n - 1), 8);
      BytesReadBack(Shr(v, 8), n - 1);
      forall k | 0 <= k < n - 1 ensures tail[k] == Bytes(Shr(v, 8), n - 1)[k] {
        ShrShr(v, 8, 8 * k);
      }
      assert tail == Bytes(Shr(v, 8), n - 1);
      Recombine(v, 8);
      assert Shr(v, 0) == v;
    }
  }
}
