/** The bit reader of the BC6H decoder in externals/bc_decoder/bc_decoder.cpp. */
module Bc6hReader {
  import opened Bits

  /** The low `n` bits of `x`, in reverse order. */
  function Reverse(x: nat, n: nat): nat {
    if n == 0 then 0 else Shl(x % 2, n - 1) + Reverse(x / 2, n - 1)
  }

  lemma {:induction false} ReverseBound(x: nat, n: nat)
    ensures Reverse(x, n) < Pow2(n)
  {
    if n > 0 {
      ReverseBound(x / 2, n - 1);
      ShlBound(x % 2, 1, n - 1);
    }
  }

  predicate Bit(a: nat, i: nat) { Shr(a, i) % 2 == 1 }

  /** Bit `i` of the reversal is bit n-1-i of the original. */
  lemma {:induction false} ReverseBit(x: nat, n: nat, i: nat)
    requires i < n
    ensures Bit(Reverse(x, n), i) == Bit(x, n - 1 - i)
  {
    ReverseBound(x / 2, n - 1);
    if i == n - 1 {
      Split(Reverse(x / 2, n - 1), x % 2, n - 1);
    } else {
      ReverseBit(x / 2, n - 1, i);
      ShrOfSum(Reverse(x / 2, n - 1), x % 2, n - 1, i);
    }
  }

  /** Bits below `m` are not touched by what is added from `m` on. */
  lemma {:induction false} ShrOfSum(a: nat, b: nat, m: nat, i: nat)
    requires a < Pow2(m) && i < m
    ensures Shr(a + Shl(b, m), i) % 2 == Shr(a, i) % 2
  {
    assert Shl(b, m) == 2 * Shl(b, m - 1);
    if i > 0 {
      ShrOfSum(a / 2, b, m - 1, i - 1);
      assert (a + Shl(b, m)) / 2 == a / 2 + Shl(b, m - 1);
    }
  }

  /** Lines 461-468. */
  method ReverseBits(bits: nat, numBits: nat) returns (tmp: nat)
    ensures tmp == Reverse(bits, numBits)
  {
    hide And, Or, Shl, Shr, Pow2, Low, Reverse;
    tmp := 0;
    var left := bits;
    ReverseSteps(bits, 0, 0);
    for k := 0 to numBits
      invariant tmp == Reverse(bits, k) && left == Shr(bits, k)
    {
      ReverseSteps(bits, k, tmp);
      tmp := Or(Shl(tmp, 1), And(left, 1));
      left := Shr(left, 1);
    }
  }

  /** The block as one 128-bit number, held as two 64-bit halves. */
  class Data {
    var low64: nat
    var high64: nat

    constructor (low64: nat, high64: nat)
      ensures this.low64 == low64 && this.high64 == high64
    {
      this.low64, this.high64 := low64, high64;
    }

    ghost predicate Valid() reads this { low64 < Pow2(64) && high64 < Pow2(64) }

    ghost function Number(): nat reads this { low64 + Shl(high64, 64) }

    /** Lines 443-472: take bits off the low end; reversed when MSB < LSB. */
    method ConsumeBits(msb: nat, lsb: nat) returns (bits: nat)
      requires Valid() && Width(msb, lsb) < 32
      modifies this
      ensures Valid() && Number() == Shr(old(Number()), Width(msb, lsb))
      ensures bits == Placed(old(Number()), msb, lsb)
    {
      hide And, Or, Shl, Shr, Pow2, Low, Reverse;
      var reversed := msb < lsb;
      var hi, lo := msb, lsb;
      if reversed {
        hi, lo := lo, hi;
      }
      var numBits := hi - lo + 1;
      var mask := Pow2(numBits) - 1;
      ConsumeHalves(low64, high64, numBits);
      bits := And(low64, mask);
      low64 := Or(Shr(low64, numBits), Shl(And(high64, mask), 64 - numBits));
      high64 := Shr(high64, numBits);
      if reversed {
        bits := ReverseBits(bits, numBits);
      }
      bits := Shl(bits, lo);
    }
  }

  function Width(msb: nat, lsb: nat): (n: nat)
    ensures n >= 1
  {
    if msb < lsb then lsb - msb + 1 else msb - lsb + 1
  }

  /** What a field of the number means: its low bits, possibly reversed, at their place in the variable. */
  function Placed(n: nat, msb: nat, lsb: nat): nat {
    var w := Width(msb, lsb);
    if msb < lsb then Shl(Reverse(Low(n, w), w), msb) else Shl(Low(n, w), lsb)
  }

  /** Shifting the two halves by `n` shifts the 128-bit number. */
  lemma {:induction false} ConsumeHalves(low: nat, high: nat, n: nat)
    requires low < Pow2(64) && high < Pow2(64) && 1 <= n < 32
    ensures var mask := Pow2(n) - 1;
            var low' := Or(Shr(low, n), Shl(And(high, mask), 64 - n));
            && And(low, mask) == Low(low + Shl(high, 64), n)
            && low' < Pow2(64) && Shr(high, n) < Pow2(64)
            && low' + Shl(Shr(high, n), 64) == Shr(low + Shl(high, 64), n)
  {
    hide And, Or, Shl, Shr, Pow2, Low;
    AndMask(low, n);
    AndMask(high, n);
    Recombine(low, n);
    Recombine(high, n);
    ShrBound(low, 64 - n, n);
    OrDisjoint(Shr(low, n), Low(high, n), 64 - n);
    ShlBound(Low(high, n), n, 64 - n);
    ShrBound(high, 64 - n, n);
    Pow2Monotone(64 - n, 64);
    // Shl(high, 64) is a multiple of 2^n
    ShlShl(high, 64 - n, n);
    var rest := Shr(low, n) + Shl(high, 64 - n);
    ShlSum(Shr(low, n), Shl(high, 64 - n), n);
    Split(Low(low, n), rest, n);
    // and splits at 2^64 again
    ShlSum(Low(high, n), Shl(Shr(high, n), n), 64 - n);
    ShlShl(Shr(high, n), n, 64 - n);
  }

  /** One round of the reversal loop. */
  lemma {:induction false} ReverseSteps(all: nat, k: nat, tmp: nat)
    ensures Reverse(all, 0) == 0 && Shr(all, 0) == all
    ensures Shr(Shr(all, k), 1) == Shr(all, k + 1)
    ensures tmp == Reverse(all, k) ==> Or(Shl(tmp, 1), And(Shr(all, k), 1)) == Reverse(all, k + 1)
  {
    ShrShr(all, k, 1);
    AndMask(Shr(all, k), 1);
    assert Pow2(1) == 2;
    var b := Shr(all, k) % 2;
    assert Low(Shr(all, k), 1) == b;
    OrDisjoint(b, tmp, 1);
    OrCommutes(b, Shl(tmp, 1));
    ReverseAppend(all, k);
  }

  lemma {:induction false} ReverseAppend(x: nat, k: nat)
    ensures Reverse(x, k + 1) == 2 * Reverse(x, k) + Shr(x, k) % 2
  {
    if k > 0 {
      ReverseAppend(x / 2, k - 1);
    }
  }

  // ---------------------------------------------------------------- single bits

  lemma {:induction false} ShrBit(a: nat, k: nat, i: nat)
    ensures Bit(Shr(a, k), i) == Bit(a, k + i)
  {
    ShrShr(a, k, i);
  }

  lemma {:induction false} ShlBit(a: nat, k: nat, i: nat)
    ensures Bit(Shl(a, k), i) == (i >= k && Bit(a, i - k))
  {
    if k > 0 {
      if i > 0 {
        ShlBit(a, k - 1, i - 1);
        assert Shl(a, k) / 2 == Shl(a, k - 1);
      } else {
        assert Shr(Shl(a, k), 0) % 2 == 0;
      }
    }
  }

  lemma {:induction false} LowBit(a: nat, n: nat, i: nat)
    ensures Bit(Low(a, n), i) == (i < n && Bit(a, i))
  {
    if n == 0 {
      ZeroBit(i);
    } else if i > 0 {
      LowBit(a / 2, n - 1, i - 1);
      assert Low(a, n) / 2 == Low(a / 2, n - 1);
    }
  }

  lemma {:induction false} ZeroBit(i: nat)
    ensures !Bit(0, i)
  {
    if i > 0 { ZeroBit(i - 1); }
  }

  lemma {:induction false} OrBit(a: nat, b: nat, i: nat)
    ensures Bit(Or(a, b), i) == (Bit(a, i) || Bit(b, i))
  {
    if a == 0 || b == 0 {
      ZeroBit(i);
    } else if i > 0 {
      OrBit(a / 2, b / 2, i - 1);
      assert Or(a, b) / 2 == Or(a / 2, b / 2);
    }
  }

  /** A number none of whose bits from `n` on is set is below 2^n. */
  lemma {:induction false} HighBitsClear(a: nat, n: nat)
    requires forall i: nat :: i >= n ==> !Bit(a, i)
    ensures a < Pow2(n)
  {
    if n == 0 {
      if a > 0 {
        var i := TopBit(a);
      }
    } else {
      forall i: nat | i >= n - 1 ensures !Bit(a / 2, i) {
        assert Bit(a / 2, i) == Bit(a, i + 1);
      }
      HighBitsClear(a / 2, n - 1);
    }
  }

  lemma {:induction false} TopBit(a: nat) returns (i: nat)
    requires a > 0
    ensures Bit(a, i)
  {
    if a == 1 {
      i := 0;
    } else {
      var j := TopBit(a / 2);
      i := j + 1;
    }
  }

  /** Bit `b` of a placed field is one bit of the number. */
  lemma {:induction false} PlacedBit(n: nat, msb: nat, lsb: nat, b: nat)
    ensures var (lo, hi) := if msb < lsb then (msb, lsb) else (lsb, msb);
            Bit(Placed(n, msb, lsb), b) == (lo <= b <= hi && Bit(n, if msb < lsb then hi - b else b - lo))
  {
    hide Bit, Shl, Low, Reverse;
    var w := Width(msb, lsb);
    var (lo, hi) := if msb < lsb then (msb, lsb) else (lsb, msb);
    if msb < lsb {
      ShlBit(Reverse(Low(n, w), w), lo, b);
      if b >= lo {
        if b - lo < w {
          ReverseBit(Low(n, w), w, b - lo);
          LowBit(n, w, w - 1 - (b - lo));
        } else {
          ReverseBound(Low(n, w), w);
          SmallHasNoBit(Reverse(Low(n, w), w), w, b - lo);
        }
      }
    } else {
      ShlBit(Low(n, w), lo, b);
      if b >= lo { LowBit(n, w, b - lo); }
    }
  }

  lemma {:induction false} SmallHasNoBit(a: nat, n: nat, i: nat)
    requires a < Pow2(n) && i >= n
    ensures !Bit(a, i)
  {
    if n == 0 {
      ZeroBit(i);
    } else {
      SmallHasNoBit(a / 2, n - 1, i - 1);
    }
  }
}
