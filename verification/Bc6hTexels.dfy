/**
  What the texels of a BC6H block show: which endpoint and which channel, in terms of the endpoints and the
  index of the block.
 */
module Bc6hTexels {
  import opened Bits
  import opened BptcTables
  import opened Bc6hMath
  import opened Bc6hLayout
  import opened Interpolation
  import opened Bc6h

  /** The number that a word stands for, as an endpoint. */
  function Endpoint(e: nat, signed: bool): int { if signed && e >= 0x8000 then e - 0x1_0000 else e }

  /** A half-float as the number of its place among the half-floats of its sign. */
  function Ordinal(half: nat, signed: bool): int { if signed && half >= 0x8000 then 0x8000 - half else half }

  /** `v` is `x` scaled by 31/64, or by 31/32 with a sign, and cut towards zero. */
  ghost predicate Scaled(v: int, x: int, signed: bool) {
    if !signed then 64 * v <= 31 * x < 64 * v + 64
    else if x >= 0 then 32 * v <= 31 * x < 32 * v + 32
    else 32 * v - 32 < 31 * x <= 32 * v
  }

  /** A channel at `index` between two endpoints. */
  ghost predicate HalfShown(half: nat, e0: int, e1: int, signed: bool, bits: nat, index: nat) {
    exists x: int :: Shown(x, e0, e1, bits, index) && Scaled(Ordinal(half, signed), x, signed)
  }

  lemma {:induction false} FinishScales(x: int, signed: bool)
    requires if signed then -0x8000 <= x < 0x8000 else 0 <= x < 0x1_0000
    ensures Scaled(Ordinal(Finish(x, signed), signed), x, signed)
  {
    hide Finish;
    if !signed { UnsignedScales(x); } else if x >= 0 { PositiveScales(x); } else { NegativeScales(x); }
  }

  lemma {:induction false} UnsignedScales(x: int)
    requires 0 <= x < 0x1_0000
    ensures Finish(x, false) == x * 31 / 64
  {
    hide Or;
    var h := x * 31 / 64;
    assert 0 <= h < 0x1_0000;
  }

  lemma {:induction false} PositiveScales(x: int)
    requires 0 <= x < 0x8000
    ensures Finish(x, true) == x * 31 / 32 < 0x8000
  {
    hide Or;
    var h := x * 31 / 32;
    assert 0 <= h < 0x8000;
  }

  /** A magnitude with the sign bit; zero has none. */
  lemma {:induction false} NegativeScales(x: int)
    requires -0x8000 <= x < 0
    ensures Finish(x, true) == var h := -x * 31 / 32; if h == 0 then 0 else 0x8000 + h
    ensures -x * 31 / 32 < 0x8000
  {
    hide Or;
    var h := -x * 31 / 32;
    assert 0 <= h < 0x8000;
    JoinSign(h);
  }

  lemma {:induction false} FinishInOrder(x: int, y: int, signed: bool)
    requires x <= y
    requires if signed then -0x8000 <= x && y < 0x8000 else 0 <= x && y < 0x1_0000
    ensures Ordinal(Finish(x, signed), signed) <= Ordinal(Finish(y, signed), signed)
  {
    hide Finish, Ordinal;
    FinishScales(x, signed);
    FinishScales(y, signed);
  }

  lemma {:induction false} ChannelIs(e0: nat, e1: nat, w: nat, signed: bool)
    requires e0 < 0x1_0000 && e1 < 0x1_0000 && w <= 64
    ensures var x := Blend(Endpoint(e0, signed), Endpoint(e1, signed), w);
            Channel(e0, e1, w, signed) == Finish(x, signed) && if signed then -0x8000 <= x < 0x8000 else 0 <= x < 0x1_0000
  {
    hide ExtendSign, Finish, Pow2, Blend;
    SixteenBits();
    TopBitHalves(16);
    ExtendSignMeans(e0, 16);
    ExtendSignMeans(e1, 16);
    BlendBetween(Endpoint(e0, signed), Endpoint(e1, signed), w);
  }

  lemma {:induction false} ChannelShows(e0: nat, e1: nat, signed: bool, bits: nat, index: nat)
    requires e0 < 0x1_0000 && e1 < 0x1_0000 && 2 <= bits <= 4 && index <= IndexTop(bits)
    ensures HalfShown(Channel(e0, e1, Weight(bits, index), signed), Endpoint(e0, signed), Endpoint(e1, signed), signed, bits, index)
  {
    hide Weight, Blend, Finish, Channel, Endpoint, Shown, Scaled, Ordinal;
    var w := Weight(bits, index);
    WeightAtMost64(bits, index);
    ChannelIs(e0, e1, w, signed);
    BlendShown(Endpoint(e0, signed), Endpoint(e1, signed), bits, index);
    FinishScales(Blend(Endpoint(e0, signed), Endpoint(e1, signed), w), signed);
  }

  lemma {:induction false} ChannelInOrder(e0: nat, e1: nat, signed: bool, bits: nat, i: nat, j: nat)
    requires e0 < 0x1_0000 && e1 < 0x1_0000 && 2 <= bits <= 4 && i <= j <= IndexTop(bits)
    ensures var (x, y) := (Ordinal(Channel(e0, e1, Weight(bits, i), signed), signed), Ordinal(Channel(e0, e1, Weight(bits, j), signed), signed));
            (Endpoint(e0, signed) <= Endpoint(e1, signed) ==> x <= y) && (Endpoint(e0, signed) >= Endpoint(e1, signed) ==> x >= y)
  {
    hide Weight, Blend, Finish, Channel, Endpoint, Ordinal;
    var (a, b) := (Endpoint(e0, signed), Endpoint(e1, signed));
    WeightAtMost64(bits, i);
    WeightAtMost64(bits, j);
    ChannelIs(e0, e1, Weight(bits, i), signed);
    ChannelIs(e0, e1, Weight(bits, j), signed);
    BlendInOrder(a, b, bits, i, j);
    var (x, y) := (Blend(a, b, Weight(bits, i)), Blend(a, b, Weight(bits, j)));
    if a <= b { FinishInOrder(x, y, signed); }
    if a >= b { FinishInOrder(y, x, signed); }
  }

  // ---------------------------------------------------------------- texels

  /** The table of a block with a legal mode, and the slots read by it. */
  ghost function SlotsOf(n: nat): (r: seq<nat>)
    requires ModeToIndex(ModeOf(n)) >= 0
    ensures |r| == 13
  {
    hide ModeToIndex, ModeOf;
    ModeSelectsItsTable(n);
    AllLegal(ModeToIndex(ModeOf(n)));
    ReadSlots(LayoutOf(ModeToIndex(ModeOf(n))), Shr(n, ModeWidth(n)), Blank())
  }

  /** Channel `c` of the endpoint that stands at place `k` of the block, as the decoder resolves it. */
  ghost function EndOf(n: nat, signed: bool, c: nat, k: nat): nat
    requires ModeToIndex(ModeOf(n)) >= 0
  {
    hide ModeToIndex, ModeOf, SlotsOf;
    ModeSelectsItsTable(n);
    var i := ModeToIndex(ModeOf(n));
    AllLegal(i);
    if 3 * k + c < 6 * Desc(i).partitions then Unquantized(Desc(i), SlotsOf(n), signed, 3 * k + c) else 0
  }

  ghost function SubsetOf(n: nat, t: nat): nat
    requires ModeToIndex(ModeOf(n)) >= 0
  {
    hide ModeToIndex, ModeOf, SlotsOf;
    ModeSelectsItsTable(n);
    if Desc(ModeToIndex(ModeOf(n))).partitions == 2 && Subset(Partition2(SlotsOf(n)[PartitionSlot] % 64), t) == 1 then 1 else 0
  }

  ghost function WidthOf(n: nat): nat
    requires ModeToIndex(ModeOf(n)) >= 0
  {
    hide ModeToIndex, ModeOf;
    ModeSelectsItsTable(n);
    if Desc(ModeToIndex(ModeOf(n))).partitions == 2 then 3 else 4
  }

  ghost function StoredIndex(n: nat, t: nat): nat
    requires ModeToIndex(ModeOf(n)) >= 0
  {
    hide ModeToIndex, ModeOf, SlotsOf;
    ModeSelectsItsTable(n);
    IndexOf(ModeToIndex(ModeOf(n)), SlotsOf(n), n, t)
  }

  lemma {:induction false} EndIsWord(n: nat, signed: bool, c: nat, k: nat)
    requires ModeToIndex(ModeOf(n)) >= 0
    ensures EndOf(n, signed, c, k) < 0x1_0000
  {
    hide ModeToIndex, ModeOf, ReadSlots, Desc, LayoutOf, Unquantized, Declared, Shr, ModeWidth;
    ModeSelectsItsTable(n);
    var i := ModeToIndex(ModeOf(n));
    AllLegal(i);
    EveryBitOnce(i, 0, 0);
    var s := 3 * k + c;
    if s < 6 * Desc(i).partitions {
      DeclaredWidths(i, s);
      SlotIsItsBits(i, Shr(n, ModeWidth(n)), s);
      UnquantizedInRange(Desc(i), SlotsOf(n), signed, s);
    }
  }

  /** What is stored for channel `c` of endpoint `k`: in modes with deltas, the first endpoint and what is added to it. */
  ghost function Stored(n: nat, c: nat, k: nat): int
    requires ModeToIndex(ModeOf(n)) >= 0 && c < 3 && k < 4
  {
    hide ModeToIndex, ModeOf, SlotsOf;
    ModeSelectsItsTable(n);
    var (m, slots) := (Desc(ModeToIndex(ModeOf(n))), SlotsOf(n));
    AllLegal(ModeToIndex(ModeOf(n)));
    if !m.hasDelta || k == 0 then slots[3 * k + c]
    else Wrap(slots[c] + Signed(slots[3 * k + c], if c == 0 then m.deltaR else if c == 1 then m.deltaG else m.deltaB), m.endpointBits)
  }

  /** Two's complement. */
  function Signed(v: nat, bits: nat): int { if bits >= 1 && v >= Pow2(bits - 1) then v - Pow2(bits) else v }

  /**
    For every block with a legal mode: each endpoint is what is stored for it, a delta taken as a signed number and
    added to the first endpoint modulo the width, and then unquantized, in the signed format as a signed number.
   */
  lemma {:induction false} EndpointMeans(n: nat, signed: bool, c: nat, k: nat)
    requires ModeToIndex(ModeOf(n)) >= 0 && c < 3 && k < 4
    ensures ModeToIndex(ModeOf(n)) < 14
    ensures var m := Desc(ModeToIndex(ModeOf(n)));
            && m.endpointBits >= 1
            && (k < 2 * m.partitions ==>
                  Stored(n, c, k) >= 0
                  && EndOf(n, signed, c, k) == if signed then ToU16(UnquantizeSigned(Signed(Stored(n, c, k), m.endpointBits), m.endpointBits))
                                               else UnquantizeUnsigned(Stored(n, c, k), m.endpointBits))
  {
    hide ModeToIndex, ModeOf, ReadSlots, Desc, LayoutOf, Declared, Shr, ModeWidth, Unquantized, UnquantizeSigned, UnquantizeUnsigned, Signed, Wrap, Legal, Count, TotalSize;
    ModeSelectsItsTable(n);
    var i := ModeToIndex(ModeOf(n));
    DescSound(i);
    AllLegal(i);
    EveryBitOnce(i, 0, 0);
    var s := 3 * k + c;
    if k < 2 * Desc(i).partitions {
      DeclaredWidths(i, s);
      DeclaredWidths(i, c);
      DeltaWidths(i, s);
      SlotIsItsBits(i, Shr(n, ModeWidth(n)), s);
      SlotIsItsBits(i, Shr(n, ModeWidth(n)), c);
      ResolvedIs(Desc(i), SlotsOf(n), signed, s);
    }
  }

  lemma {:induction false} DeltaWidths(index: nat, slot: nat)
    requires index < 14 && slot < 6 * Desc(index).partitions
    ensures var m := Desc(index);
            && 1 <= Declared(m, slot) <= 16 && (!m.hasDelta || slot < 3 ==> Declared(m, slot) == m.endpointBits)
            && (m.hasDelta && slot >= 3 ==>
                  Declared(m, slot) == if slot % 3 == 0 then m.deltaR else if slot % 3 == 1 then m.deltaG else m.deltaB)
  {
  }

  /** An endpoint in terms of the slots. */
  lemma {:induction false} ResolvedIs(m: ModeDesc, e: seq<nat>, signed: bool, slot: nat)
    requires |e| == 13 && slot < 6 * m.partitions <= 12 && 1 <= m.endpointBits <= 16 && 1 <= Declared(m, slot) <= 16
    requires Declared(m, slot % 3) == m.endpointBits && e[slot % 3] < Pow2(m.endpointBits) && e[slot] < Pow2(Declared(m, slot))
    requires !m.hasDelta || slot < 3 ==> Declared(m, slot) == m.endpointBits
    ensures var b := m.endpointBits;
            var x := if m.hasDelta && slot >= 3 then Wrap(e[slot % 3] + Signed(e[slot], Declared(m, slot)), b) else e[slot];
            Unquantized(m, e, signed, slot) == if signed then ToU16(UnquantizeSigned(Signed(x, b), b)) else UnquantizeUnsigned(x, b)
  {
    hide Declared, ExtendSign, Pow2, Low, Wrap, UnquantizeSigned, UnquantizeUnsigned, Xor;
    var b, w := m.endpointBits, Declared(m, slot);
    TopBitHalves(b);
    TopBitHalves(w);
    ExtendSignMeans(e[slot], w);
    if m.hasDelta && slot >= 3 {
      ResolveMeans(e[slot % 3], e[slot], b, w, signed);
      var x := Wrap(e[slot % 3] + Signed(e[slot], w), b);
      WrapBound(e[slot % 3] + Signed(e[slot], w), b);
      ExtendSignMeans(x, b);
      WordReads(x, b);
    } else {
      ExtendSignMeans(e[slot], b);
      WordReads(e[slot], b);
    }
  }

  lemma {:induction false} WrapBound(x: int, n: nat)
    ensures Wrap(x, n) < Pow2(n)
    decreases if x < 0 then -x else 0
  {
    hide Low;
    if x >= 0 { Recombine(x, n); } else { WrapBound(x + Pow2(n), n); }
  }

  /** A signed number of at most 16 bits, stored in a word, reads back. */
  lemma {:induction false} WordReads(v: nat, b: nat)
    requires 1 <= b <= 16 && v < Pow2(b)
    ensures FromU16(ToU16(ExtendSign(v, b))) == Signed(v, b) == ExtendSign(v, b)
  {
    hide ExtendSign, Pow2;
    SixteenBits();
    Pow2Monotone(b, 16);
    TopBitHalves(b);
    ExtendSignMeans(v, b);
    SignedWord(v, b);
    Pow2Monotone(b - 1, 15);
  }

  lemma {:induction false} IndexInTop(n: nat, t: nat)
    requires ModeToIndex(ModeOf(n)) >= 0
    ensures StoredIndex(n, t) <= IndexTop(WidthOf(n))
  {
    hide ModeToIndex, ModeOf, Desc, SlotsOf, IndexStart, IndexBits, Partition2, Field, HeaderBits, LayoutOf, Small;
    ModeSelectsItsTable(n);
    var i := ModeToIndex(ModeOf(n));
    AllLegal(i);
    IndexFits(Desc(i).partitions, ShapeOf(SlotsOf(n)), t, n, HeaderBits(i));
  }

  lemma {:induction false} TexelPlace(n: nat, signed: bool, t: nat, c: nat)
    requires ModeToIndex(ModeOf(n)) >= 0 && c < 3
    ensures var k := 2 * SubsetOf(n, t);
            && |Texel(n, signed, t)| == 4 && Texel(n, signed, t)[3] == HalfOne
            && Texel(n, signed, t)[c] == Channel(EndOf(n, signed, c, k), EndOf(n, signed, c, k + 1), Weight(WidthOf(n), StoredIndex(n, t)), signed)
  {
    hide ModeToIndex, ModeOf, ReadSlots, Desc, LayoutOf, Unquantized, Channel, Weight, IndexOf, Shr, ModeWidth, Subset, Partition2;
    ModeSelectsItsTable(n);
    var i := ModeToIndex(ModeOf(n));
    AllLegal(i);
    EveryBitOnce(i, 0, 0);
    var slots := SlotsOf(n);
    assert Texel(n, signed, t) == TexelFrom(i, slots, n, signed, t);
  }

  /**
    For every block with a legal mode, in both formats: each channel of each texel shows a number on the way from
    the subset's first endpoint to its second, index 0 the first itself and the greatest index the second, scaled to
    the finite half-floats.
   */
  lemma {:induction false} TexelShows(n: nat, signed: bool, t: nat, c: nat)
    requires ModeToIndex(ModeOf(n)) >= 0 && c < 3
    ensures var k := 2 * SubsetOf(n, t);
            && |Texel(n, signed, t)| == 4 && Texel(n, signed, t)[3] == HalfOne && StoredIndex(n, t) <= IndexTop(WidthOf(n))
            && HalfShown(Texel(n, signed, t)[c], Endpoint(EndOf(n, signed, c, k), signed), Endpoint(EndOf(n, signed, c, k + 1), signed), signed,
                         WidthOf(n), StoredIndex(n, t))
  {
    hide ModeToIndex, ModeOf, Texel, Channel, Weight, EndOf, SubsetOf, StoredIndex, Endpoint, HalfShown;
    var k := 2 * SubsetOf(n, t);
    TexelPlace(n, signed, t, c);
    EndIsWord(n, signed, c, k);
    EndIsWord(n, signed, c, k + 1);
    IndexInTop(n, t);
    ChannelShows(EndOf(n, signed, c, k), EndOf(n, signed, c, k + 1), signed, WidthOf(n), StoredIndex(n, t));
  }

  /** Of two texels of one subset, the one with the greater index is the further along. */
  lemma {:induction false} TexelsInOrder(n: nat, signed: bool, t: nat, u: nat, c: nat)
    requires ModeToIndex(ModeOf(n)) >= 0 && c < 3 && SubsetOf(n, t) == SubsetOf(n, u) && StoredIndex(n, t) <= StoredIndex(n, u)
    ensures var k := 2 * SubsetOf(n, t);
            var (a, b) := (Endpoint(EndOf(n, signed, c, k), signed), Endpoint(EndOf(n, signed, c, k + 1), signed));
            && |Texel(n, signed, t)| == |Texel(n, signed, u)| == 4
            && (a <= b ==> Ordinal(Texel(n, signed, t)[c], signed) <= Ordinal(Texel(n, signed, u)[c], signed))
            && (a >= b ==> Ordinal(Texel(n, signed, t)[c], signed) >= Ordinal(Texel(n, signed, u)[c], signed))
  {
    hide ModeToIndex, ModeOf, Texel, Channel, Weight, EndOf, SubsetOf, StoredIndex, Endpoint, Ordinal;
    var k := 2 * SubsetOf(n, t);
    TexelPlace(n, signed, t, c);
    TexelPlace(n, signed, u, c);
    EndIsWord(n, signed, c, k);
    EndIsWord(n, signed, c, k + 1);
    IndexInTop(n, u);
    ChannelInOrder(EndOf(n, signed, c, k), EndOf(n, signed, c, k + 1), signed, WidthOf(n), StoredIndex(n, t), StoredIndex(n, u));
  }
}
