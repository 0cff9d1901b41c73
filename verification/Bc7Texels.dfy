/**
  What the texels of a BC7 block show: which endpoint, which index and which channel, in terms of the
  fields of the block.
 */
module Bc7Texels {
  import opened Bits
  import opened BptcTables
  import opened Bc6hMath
  import opened Interpolation
  import opened Bc7

  // ---------------------------------------------------------------- one channel

  /** The channel without its cast to a byte. */
  lemma {:induction false} NoOverflow(e0: nat, e1: nat, bits: nat, index: nat)
    requires e0 < 256 && e1 < 256 && 2 <= bits <= 4 && index <= IndexTop(bits)
    ensures Interpolate(e0, e1, bits, index) == Blend(e0, e1, Weight(bits, index))
  {
    hide Weight, Blend;
    WeightsEven(bits, index);
    BlendBetween(e0, e1, Weight(bits, index));
  }

  lemma {:induction false} ChannelShows(e0: nat, e1: nat, bits: nat, index: nat)
    requires e0 < 256 && e1 < 256 && 2 <= bits <= 4 && index <= IndexTop(bits)
    ensures Shown(Interpolate(e0, e1, bits, index), e0, e1, bits, index)
  {
    hide Weight, Interpolate, Blend, Shown;
    NoOverflow(e0, e1, bits, index);
    BlendShown(e0, e1, bits, index);
  }

  lemma {:induction false} ChannelMonotone(e0: nat, e1: nat, bits: nat, i: nat, j: nat)
    requires e0 < 256 && e1 < 256 && 2 <= bits <= 4 && i <= j <= IndexTop(bits)
    ensures var (x, y) := (Interpolate(e0, e1, bits, i), Interpolate(e0, e1, bits, j));
            (e0 <= e1 ==> x <= y) && (e0 >= e1 ==> x >= y)
  {
    hide Weight, Interpolate, Blend;
    NoOverflow(e0, e1, bits, i);
    NoOverflow(e0, e1, bits, j);
    BlendInOrder(e0, e1, bits, i, j);
  }

  // ---------------------------------------------------------------- endpoints

  lemma {:induction false} OrBound(a: nat, b: nat, n: nat)
    requires a < Pow2(n) && b < Pow2(n)
    ensures Or(a, b) < Pow2(n)
  {
    if n > 0 && a != 0 && b != 0 { OrBound(a / 2, b / 2, n - 1); }
  }

  /** Endpoints are bytes. */
  lemma {:induction false} ReplicateIsByte(v: nat, bits: nat)
    requires bits <= 8
    ensures Replicate(v, bits) < 256
  {
    hide Or, Low, Shl, Shr, Pow2;
    var top := Low(Shl(v, 8 - bits), 8);
    Recombine(Shl(v, 8 - bits), 8);
    PowByte();
    Recombine(top, bits);
    ShlIsProduct(Shr(top, bits), bits);
    assert Shr(top, bits) <= top by {
      assert Shr(top, bits) * Pow2(bits) >= Shr(top, bits);
    }
    OrBound(top, Shr(top, bits), 8);
  }

  /** Replicated to eight bits, a value keeps its bits at the top and repeats the highest of them below. */
  lemma {:induction false} ReplicateKeeps(v: nat, bits: nat)
    requires 4 <= bits <= 8 && v < Pow2(bits)
    ensures Shr(Replicate(v, bits), 8 - bits) == v
    ensures Low(Replicate(v, bits), 8 - bits) == Shr(v, 2 * bits - 8)
  {
    hide Or, Low, Shl, Shr, Pow2;
    var up := 8 - bits;
    var top := Shl(v, up);
    ShlBound(v, bits, up);
    LowSmall(top, 8);
    var below := Shr(top, bits);
    ShrShl(v, up, up);
    NoShift(v);
    ShrShr(top, up, bits - up);
    ShrBound(top, up, bits);
    OrDisjoint(below, v, up);
    OrCommutes(top, below);
    Split(below, v, up);
  }

  // ---------------------------------------------------------------- texels

  /** The mode of a block, its partition, and the subset of a texel. */
  function ModeOf(n: nat): Mode { Modes(ModeIndex(n, 0)) }

  function PartitionOf(n: nat): nat { Read(n, ModeOf(n).Partition()) % 64 }

  function SubsetOf(n: nat, t: nat): nat {
    var (m, p) := (ModeOf(n), PartitionOf(n));
    if m.NS == 3 then Subset(Partition3(p), t) else if m.NS == 2 then Subset(Partition2(p), t) else 0
  }

  /** The entry of texel `t` in the first list of indices of the block, and in the second. */
  function FirstList(n: nat, t: nat): nat
    requires ModeOf(n).NS >= 1
  {
    var (m, p) := (ModeOf(n), PartitionOf(n));
    Read(n, m.PrimaryIndex(IndexOffset(m, p, m.IB, t), ReadBits(m, p, m.IB, t)))
  }

  function SecondList(n: nat, t: nat): nat
    requires ModeOf(n).NS >= 1
  {
    var (m, p) := (ModeOf(n), PartitionOf(n));
    Read(n, m.SecondaryIndex(IndexOffset(m, p, m.IB2, t), ReadBits(m, p, m.IB2, t)))
  }

  /** Whether channel `c` (3 is alpha) is shown by the second list: of the two lists, alpha has the one that colour has not. */
  predicate ShownBySecond(n: nat, c: nat) {
    var m := ModeOf(n);
    m.IB2 > 0 && (Read(n, m.IndexSelection()) == 1 <==> c < 3)
  }

  function IndexOf(n: nat, c: nat, t: nat): nat
    requires ModeOf(n).NS >= 1
  {
    if ShownBySecond(n, c) then SecondList(n, t) else FirstList(n, t)
  }

  function WidthOf(n: nat, c: nat): nat { if ShownBySecond(n, c) then ModeOf(n).IB2 else ModeOf(n).IB }

  /** Channel `c` of endpoint `k`. */
  function EndOf(n: nat, c: nat, k: nat): nat
    requires ModeOf(n).NS >= 1 && ColourBits(ModeOf(n)) <= 8 && AlphaBits(ModeOf(n)) <= 8
  {
    if c < 3 then ColourEnd(ModeOf(n), n, c, k) else AlphaEnd(ModeOf(n), n, k)
  }

  /** The channel that stands at place `place` of a texel: a rotation of 1, 2 or 3 changes alpha with red, green or blue. */
  function SourceOf(n: nat, place: nat): nat {
    var rotation := Read(n, ModeOf(n).Rotation());
    if rotation == 0 then place
    else if place == 3 then rotation - 1
    else if place == rotation - 1 then 3
    else place
  }

  lemma {:induction false} ModeFacts(n: nat)
    requires ModeIndex(n, 0) < 8
    ensures var m := ModeOf(n);
            && 1 <= m.NS <= 3 && 5 <= ColourBits(m) <= 8 && AlphaBits(m) <= 8 && (m.AB > 0 ==> 5 <= AlphaBits(m) && m.SPB == 0)
            && 2 <= m.IB <= 4 && (m.IB2 > 0 ==> 2 <= m.IB2 <= 3) && m.RB <= 2 && m.ISB <= 1 && (m.ISB > 0 ==> m.IB2 > 0)
            && m.PB <= 6 && m.CB <= 7 && m.SPB + m.EPB <= 1 && (m.EPB + m.SPB > 0 && m.AB > 0 ==> m.AB <= 7)
  {
  }

  /** A stored index never leaves its list of weights. */
  lemma {:induction false} IndexInTop(n: nat, c: nat, t: nat)
    requires ModeIndex(n, 0) < 8
    ensures ModeOf(n).NS >= 1 && 2 <= WidthOf(n, c) <= 4 && IndexOf(n, c, t) <= IndexTop(WidthOf(n, c))
  {
    hide ModeOf, Low, Shr, Pow2, IsAnchor, IndexOffset, Mode.SharedPBit1, Mode.IndexSelection;
    ModeFacts(n);
    var (m, p) := (ModeOf(n), PartitionOf(n));
    Fits(n, m.PrimaryIndex(IndexOffset(m, p, m.IB, t), ReadBits(m, p, m.IB, t)), m.IB);
    if m.IB2 > 0 {
      Fits(n, m.SecondaryIndex(IndexOffset(m, p, m.IB2, t), ReadBits(m, p, m.IB2, t)), m.IB2);
    }
  }

  lemma {:induction false} Fits(n: nat, f: Bitfield, bits: nat)
    requires f.count <= bits && 2 <= bits <= 4
    ensures Read(n, f) <= IndexTop(bits)
  {
    hide Low, Shr, Pow2;
    Recombine(Shr(n, f.offset), f.count);
    Pow2Monotone(f.count, bits);
    SmallPowers();
  }

  lemma {:induction false} SmallPowers()
    ensures Pow2(0) == 1 && Pow2(1) == 2 && Pow2(2) == 4 && Pow2(3) == 8 && Pow2(4) == 16 && Pow2(7) == 128
  {
    assert Pow2(5) == 32 && Pow2(6) == 64 by { assert Pow2(4) == 16; }
  }

  lemma {:induction false} EndIsByte(n: nat, c: nat, k: nat)
    requires ModeIndex(n, 0) < 8
    ensures var m := ModeOf(n); m.NS >= 1 && ColourBits(m) <= 8 && AlphaBits(m) <= 8 && EndOf(n, c, k) < 256
  {
    hide ModeOf, Read, WithPBit, Replicate, PBit;
    ModeFacts(n);
    var m := ModeOf(n);
    if c < 3 {
      var raw := Read(n, if c == 0 then m.Red(k) else if c == 1 then m.Green(k) else m.Blue(k));
      ReplicateIsByte(if m.SPB > 0 || m.EPB > 0 then WithPBit(raw, PBit(m, n, k)) else raw, ColourBits(m));
    } else if m.AB > 0 {
      var raw := Read(n, m.Alpha(k));
      ReplicateIsByte(if m.EPB > 0 then WithPBit(raw, PBit(m, n, k)) else raw, AlphaBits(m));
    }
  }

  /** The subsets, index lists and widths as the decoder picks them. */
  lemma {:induction false} SameChoice(n: nat, t: nat)
    requires ModeIndex(n, 0) < 8
    ensures var (m, p) := (ModeOf(n), PartitionOf(n));
            && m.NS >= 1 && SubsetOf(n, t) == SubsetIndex(m, p, t)
            && IndexOf(n, 0, t) == Read(n, IndexField(m, p, ColourSecondary(m, n), t))
            && WidthOf(n, 0) == IndexWidth(m, ColourSecondary(m, n))
            && IndexOf(n, 3, t) == Read(n, IndexField(m, p, AlphaSecondary(m, n), t))
            && WidthOf(n, 3) == IndexWidth(m, AlphaSecondary(m, n))
  {
    hide ModeOf, Read, IndexOffset, ReadBits, Subset, Mode.PrimaryIndex, Mode.SecondaryIndex, Mode.IndexSelection, Partition2, Partition3;
    ModeFacts(n);
    SelectionBit(n);
  }

  /** Without a selection bit nothing is selected; with one it is 0 or 1. */
  lemma {:induction false} SelectionBit(n: nat)
    requires ModeIndex(n, 0) < 8
    ensures var s := Read(n, ModeOf(n).IndexSelection()); s <= 1 && (ModeOf(n).IB2 == 0 ==> s == 0)
  {
    hide ModeOf, Low, Shr, Pow2, Mode.Rotation;
    ModeFacts(n);
    var f := ModeOf(n).IndexSelection();
    Recombine(Shr(n, f.offset), f.count);
    Pow2Monotone(f.count, 1);
    SmallPowers();
  }

  lemma {:induction false} RotationBound(n: nat)
    requires ModeIndex(n, 0) < 8
    ensures Read(n, ModeOf(n).Rotation()) <= 3
  {
    hide ModeOf, Low, Shr, Pow2, Mode.Partition;
    ModeFacts(n);
    var f := ModeOf(n).Rotation();
    Recombine(Shr(n, f.offset), f.count);
    Pow2Monotone(f.count, 2);
    SmallPowers();
  }

  /** The four places of a texel. */
  lemma {:induction false} TexelPlace(n: nat, t: nat, place: nat)
    requires ModeIndex(n, 0) < 8 && place < 4
    ensures var (m, c) := (ModeOf(n), SourceOf(n, place));
            && m.NS >= 1 && ColourBits(m) <= 8 && AlphaBits(m) <= 8 && |Texel(n, t)| == 4
            && Texel(n, t)[place]
               == Interpolate(EndOf(n, c, 2 * SubsetOf(n, t)), EndOf(n, c, 2 * SubsetOf(n, t) + 1), WidthOf(n, c), IndexOf(n, c, t))
  {
    hide Modes, ModeIndex, Read, SubsetIndex, SubsetOf, ColourEnd, AlphaEnd, IndexField, IndexOf, WidthOf, Interpolate, Mode.Partition, Mode.Rotation;
    ModeFacts(n);
    ModeWidths(ModeIndex(n, 0));
    SameChoice(n, t);
    SameList(n, t);
    RotationBound(n);
  }

  lemma {:induction false} SameList(n: nat, t: nat)
    requires ModeOf(n).NS >= 1
    ensures forall c: nat :: c < 3 ==> IndexOf(n, c, t) == IndexOf(n, 0, t) && WidthOf(n, c) == WidthOf(n, 0)
  {
    hide ModeOf, FirstList, SecondList, Mode.IndexSelection;
  }

  /**
    For every block and every place of every texel, in all four rotations and for both index selections: the
    place shows its channel on the way from the subset's first endpoint to its second, index 0 the first itself
    and the greatest index the second.
   */
  lemma {:induction false} TexelShows(n: nat, t: nat, place: nat)
    requires ModeIndex(n, 0) < 8 && place < 4
    ensures var (m, c, k) := (ModeOf(n), SourceOf(n, place), 2 * SubsetOf(n, t));
            && m.NS >= 1 && ColourBits(m) <= 8 && AlphaBits(m) <= 8 && |Texel(n, t)| == 4
            && 2 <= WidthOf(n, c) <= 4 && IndexOf(n, c, t) <= IndexTop(WidthOf(n, c))
            && Shown(Texel(n, t)[place], EndOf(n, c, k), EndOf(n, c, k + 1), WidthOf(n, c), IndexOf(n, c, t))
  {
    hide ModeOf, ModeIndex, Texel, EndOf, SubsetOf, IndexOf, WidthOf, Interpolate, Shown;
    var c := SourceOf(n, place);
    var k := 2 * SubsetOf(n, t);
    TexelPlace(n, t, place);
    IndexInTop(n, c, t);
    EndIsByte(n, c, k);
    EndIsByte(n, c, k + 1);
    ChannelShows(EndOf(n, c, k), EndOf(n, c, k + 1), WidthOf(n, c), IndexOf(n, c, t));
  }

  /** Of two texels of one subset, the one with the greater index is the further along. */
  lemma {:induction false} TexelsInOrder(n: nat, t: nat, u: nat, place: nat)
    requires ModeIndex(n, 0) < 8 && place < 4 && SubsetOf(n, t) == SubsetOf(n, u) && ModeOf(n).NS >= 1
    requires IndexOf(n, SourceOf(n, place), t) <= IndexOf(n, SourceOf(n, place), u)
    ensures var (m, c, k) := (ModeOf(n), SourceOf(n, place), 2 * SubsetOf(n, t));
            && ColourBits(m) <= 8 && AlphaBits(m) <= 8 && |Texel(n, t)| == |Texel(n, u)| == 4
            && (EndOf(n, c, k) <= EndOf(n, c, k + 1) ==> Texel(n, t)[place] <= Texel(n, u)[place])
            && (EndOf(n, c, k) >= EndOf(n, c, k + 1) ==> Texel(n, t)[place] >= Texel(n, u)[place])
  {
    hide ModeOf, ModeIndex, Texel, EndOf, SubsetOf, IndexOf, WidthOf, Interpolate;
    var c := SourceOf(n, place);
    var k := 2 * SubsetOf(n, t);
    TexelPlace(n, t, place);
    TexelPlace(n, u, place);
    IndexInTop(n, c, u);
    EndIsByte(n, c, k);
    EndIsByte(n, c, k + 1);
    ChannelMonotone(EndOf(n, c, k), EndOf(n, c, k + 1), WidthOf(n, c), IndexOf(n, c, t), IndexOf(n, c, u));
  }

  // ---------------------------------------------------------------- what the endpoints are

  /** `v` at the top of a byte, and its highest bits again below it. */
  ghost predicate Repeats(byte: nat, v: nat, bits: nat) {
    bits <= 8 && Shr(byte, 8 - bits) == v && (bits >= 4 ==> Low(byte, 8 - bits) == Shr(v, 2 * bits - 8))
  }

  lemma {:induction false} JoinedBit(v: nat, p: nat)
    requires v < 128 && p < 2
    ensures WithPBit(v, p) == 2 * v + p
  {
    hide Or, Low, Pow2;
    SmallPowers();
    PowByte();
    OrCommutes(Shl(v, 1), p);
    OrDisjoint(p, v, 1);
    assert Shl(v, 1) == 2 * v by { NoShift(v); }
    LowSmall(2 * v + p, 8);
  }

  lemma {:induction false} FieldBound(n: nat, f: Bitfield)
    ensures Read(n, f) < Pow2(f.count)
  {
    hide Low, Shr, Pow2;
    Recombine(Shr(n, f.offset), f.count);
  }

  /** The field of colour `c` of endpoint `k`, and the one of its P-bit. */
  function ColourField(m: Mode, c: nat, k: nat): Bitfield
    requires m.NS >= 1
  {
    if c == 0 then m.Red(k) else if c == 1 then m.Green(k) else m.Blue(k)
  }

  function PBitField(m: Mode, k: nat): Bitfield
    requires m.NS >= 1
  {
    if m.SPB == 0 then m.EndpointPBit(k) else if k < 2 then m.SharedPBit0() else m.SharedPBit1()
  }

  /** For every block, an endpoint repeats its field, with the P-bit below it where the mode has one. */
  lemma {:induction false} EndpointShows(n: nat, c: nat, k: nat)
    requires ModeIndex(n, 0) < 8 && c < 3
    ensures var m := ModeOf(n);
            && m.NS >= 1 && ColourBits(m) <= 8
            && var raw := Read(n, ColourField(m, c, k));
               Repeats(ColourEnd(m, n, c, k), if m.SPB + m.EPB == 0 then raw else 2 * raw + Read(n, PBitField(m, k)), ColourBits(m))
  {
    hide ModeOf, Modes, ModeIndex, Read, WithPBit, Replicate, Pow2, Shr, Low, Mode.Partition, Mode.Rotation, Mode.IndexSelection, Mode.SharedPBit0,
         Mode.SharedPBit1, Mode.Red, Mode.Green, Mode.Blue, Mode.EndpointPBit;
    ModeFacts(n);
    var m := ModeOf(n);
    var raw := Read(n, ColourField(m, c, k));
    FieldCounts(m);
    FieldBound(n, ColourField(m, c, k));
    FieldBound(n, PBitField(m, k));
    Joined(raw, Read(n, PBitField(m, k)), m.CB, m.SPB + m.EPB);
  }

  lemma {:induction false} AlphaEndpointShows(n: nat, k: nat)
    requires ModeIndex(n, 0) < 8
    ensures var m := ModeOf(n);
            && m.NS >= 1 && AlphaBits(m) <= 8 && (m.AB == 0 ==> AlphaEnd(m, n, k) == 255)
            && (m.AB > 0 ==>
                 var raw := Read(n, m.Alpha(k));
                 Repeats(AlphaEnd(m, n, k), if m.EPB == 0 then raw else 2 * raw + Read(n, m.EndpointPBit(k)), AlphaBits(m)))
  {
    hide ModeOf, Modes, ModeIndex, Read, WithPBit, Replicate, Pow2, Shr, Low, Mode.Partition, Mode.Rotation, Mode.IndexSelection, Mode.SharedPBit0,
         Mode.SharedPBit1, Mode.Alpha, Mode.EndpointPBit;
    ModeFacts(n);
    var m := ModeOf(n);
    if m.AB > 0 {
      var raw := Read(n, m.Alpha(k));
      FieldCounts(m);
      FieldBound(n, m.Alpha(k));
      FieldBound(n, m.EndpointPBit(k));
      Joined(raw, Read(n, m.EndpointPBit(k)), m.AB, m.EPB);
    }
  }

  /** A field of at least four bits with its P-bit, if it has one. */
  lemma {:induction false} Joined(raw: nat, p: nat, bits: nat, pbits: nat)
    requires raw < Pow2(bits) && pbits <= 1 && p < Pow2(pbits) && 4 <= bits + pbits <= 8
    ensures pbits == 0 ==> Repeats(Replicate(raw, bits), raw, bits)
    ensures pbits == 1 ==> WithPBit(raw, p) == 2 * raw + p
                           && Repeats(Replicate(WithPBit(raw, p), bits + 1), 2 * raw + p, bits + 1)
  {
    hide WithPBit, Replicate, Shr, Low;
    SmallPowers();
    if pbits == 1 {
      assert bits <= 7 && Pow2(bits) <= Pow2(7) by { Pow2Monotone(bits, 7); }
      JoinedBit(raw, p);
      assert Pow2(bits + 1) == 2 * Pow2(bits);
      ReplicateKeeps(2 * raw + p, bits + 1);
    } else {
      ReplicateKeeps(raw, bits);
    }
  }
}
