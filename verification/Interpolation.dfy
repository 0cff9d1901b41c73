/** Blending two endpoints by an index of two, three or four bits, lines 482-506 and 1262-1273 of externals/bc_decoder/bc_decoder.cpp. */
module Interpolation {
  import opened Bits
  import opened Bc6hMath

  function Abs(x: int): nat { if x < 0 then -x else x }

  /** The greatest index of two, three or four bits. */
  function IndexTop(bits: nat): nat { if bits == 2 then 3 else if bits == 3 then 7 else 15 }

  // ---------------------------------------------------------------- one channel

  /** The weights run from 0 to 64, and each is the nearest to its share of the way. */
  lemma {:induction false} WeightsEven(bits: nat, i: nat)
    requires 2 <= bits <= 4 && i <= IndexTop(bits)
    ensures Weight(bits, 0) == 0 && Weight(bits, IndexTop(bits)) == 64 && Weight(bits, i) <= 64
    ensures 2 * Abs(IndexTop(bits) * Weight(bits, i) - 64 * i) <= IndexTop(bits)
  {
  }

  lemma {:induction false} WeightsRise(bits: nat, i: nat, j: nat)
    requires 2 <= bits <= 4 && i <= j <= IndexTop(bits)
    ensures Weight(bits, i) <= Weight(bits, j)
  {
  }

  /**
    A channel at place `index` of the way from `e0` to `e1`: at the ends the endpoints themselves, and in between
    next to the straight line, off by half a unit and by half a step of the weights at most.
   */
  ghost predicate Shown(v: int, e0: int, e1: int, bits: nat, index: nat) {
    var top := IndexTop(bits);
    && (index == 0 ==> v == e0) && (index == top ==> v == e1)
    && 2 * Abs(64 * (top * (v - e0) - index * (e1 - e0))) <= 64 * top + top * Abs(e1 - e0)
  }

  lemma {:induction false} BlendNear(e0: int, e1: int, w: nat)
    ensures Abs(64 * Blend(e0, e1, w) - (64 * e0 + w * (e1 - e0))) <= 32
  {
    var x := e0 * (64 - w) + e1 * w;
    assert x == 64 * e0 + w * (e1 - e0);
  }

  /** A weight next to its share of 64 keeps the blend next to the line. */
  lemma {:induction false} NearLine(v: int, e0: int, e1: int, w: nat, top: nat, index: nat)
    requires Abs(64 * v - (64 * e0 + w * (e1 - e0))) <= 32 && 2 * Abs(top * w - 64 * index) <= top
    ensures 2 * Abs(64 * (top * (v - e0) - index * (e1 - e0))) <= 64 * top + top * Abs(e1 - e0)
  {
    hide Abs;
    var d := e1 - e0;
    var a, b := 64 * (v - e0) - w * d, top * w - 64 * index;
    assert a == 64 * v - (64 * e0 + w * d);
    Off(v - e0, d, w, top, index);
    AbsProduct(top, a, 32);
    TwiceAbsProduct(b, d, top);
    AbsSum(top * a, b * d);
  }

  lemma {:induction false} AbsSum(x: int, y: int)
    ensures Abs(x + y) <= Abs(x) + Abs(y)
  {
  }

  lemma {:induction false} Off(u: int, d: int, w: int, top: int, index: int)
    ensures 64 * (top * u - index * d) == top * (64 * u - w * d) + (top * w - 64 * index) * d
  {
    var p := w * d;
    Expand(top, 64 * u, p);
    Expand(d, top * w, 64 * index);
    Regroup(top, w, d);
    Regroup(64, index, d);
    Regroup(64, top, u);
    assert top * (64 * u) == 64 * top * u;
  }

  lemma {:induction false} Expand(n: int, x: int, y: int)
    ensures n * (x - y) == n * x - n * y && (x - y) * n == n * x - n * y
  {
  }

  lemma {:induction false} Regroup(x: int, y: int, z: int)
    ensures (x * y) * z == x * (y * z) && z * (x * y) == x * (y * z)
  {
  }

  lemma {:induction false} AbsProduct(n: nat, a: int, bound: nat)
    requires Abs(a) <= bound
    ensures Abs(n * a) <= n * bound
  {
    assert n * a <= n * bound && n * (-a) <= n * bound;
    assert n * (-a) == -(n * a);
  }

  lemma {:induction false} TwiceAbsProduct(b: int, d: int, top: nat)
    requires 2 * Abs(b) <= top
    ensures 2 * Abs(b * d) <= top * Abs(d)
  {
    var p := Abs(b) * Abs(d);
    assert Abs(b * d) == p by {
      if b < 0 { assert b * d == -((-b) * d); }
      if d < 0 { assert Abs(b) * d == -(Abs(b) * (-d)); }
    }
    assert (2 * Abs(b)) * Abs(d) <= top * Abs(d);
    assert (2 * Abs(b)) * Abs(d) == 2 * p;
  }

  lemma {:induction false} BlendEnds(e0: int, e1: int)
    ensures Blend(e0, e1, 0) == e0 && Blend(e0, e1, 64) == e1
  {
  }

  lemma {:induction false} BlendShown(e0: int, e1: int, bits: nat, index: nat)
    requires 2 <= bits <= 4 && index <= IndexTop(bits)
    ensures Shown(Blend(e0, e1, Weight(bits, index)), e0, e1, bits, index)
  {
    hide Weight, Blend;
    WeightsEven(bits, index);
    BlendEnds(e0, e1);
    BlendNear(e0, e1, Weight(bits, index));
    NearLine(Blend(e0, e1, Weight(bits, index)), e0, e1, Weight(bits, index), IndexTop(bits), index);
  }

  /** From the first endpoint to the second without turning back. */
  lemma {:induction false} BlendInOrder(e0: int, e1: int, bits: nat, i: nat, j: nat)
    requires 2 <= bits <= 4 && i <= j <= IndexTop(bits)
    ensures var (x, y) := (Blend(e0, e1, Weight(bits, i)), Blend(e0, e1, Weight(bits, j)));
            (e0 <= e1 ==> x <= y) && (e0 >= e1 ==> x >= y)
  {
    hide Weight;
    WeightsRise(bits, i, j);
    Moves(e0, e1, Weight(bits, i), Weight(bits, j));
  }

  lemma {:induction false} Moves(e0: int, e1: int, v: nat, w: nat)
    requires v <= w
    ensures (e0 <= e1 ==> Blend(e0, e1, v) <= Blend(e0, e1, w)) && (e0 >= e1 ==> Blend(e0, e1, v) >= Blend(e0, e1, w))
  {
    assert e0 * (64 - v) + e1 * v == 64 * e0 + v * (e1 - e0);
    assert e0 * (64 - w) + e1 * w == 64 * e0 + w * (e1 - e0);
    if e0 <= e1 {
      assert v * (e1 - e0) <= w * (e1 - e0);
    } else {
      assert v * (e0 - e1) <= w * (e0 - e1);
      assert v * (e1 - e0) == -(v * (e0 - e1)) && w * (e1 - e0) == -(w * (e0 - e1));
    }
  }
}
