/** Decoding a BC6H block, lines 173-921 of externals/bc_decoder/bc_decoder.cpp. */
module Bc6h {
  import opened Bits
  import opened Blit
  import opened BptcTables
  import opened Bc6hReader
  import opened Bc6hLayout
  import opened Bc6hMath

  // ---------------------------------------------------------------- the mode

  /** Lines 594-608; -1 for illegal and reserved modes. */
  function ModeToIndex(mode: nat): int {
    if mode <= 3 then mode
    else if mode / 2 % 2 != 0 then
      if mode <= 18 then mode / 2 + 1 + mode % 2
      else if mode == 22 || mode == 26 || mode == 30 then mode / 4 + 6
      else -1
    else -1
  }

  /** Lines 805-809: the number of mode bits depends on the second lowest bit. */
  function ModeWidth(n: nat): nat { if And(n, 2) == 0 then 2 else 5 }

  function ModeOf(n: nat): nat { Low(n, ModeWidth(n)) }

  /** A legal mode selects the table with its own number, and that table counts the mode bits just read. */
  lemma {:induction false} ModeSelectsItsTable(n: nat)
    ensures var i := ModeToIndex(ModeOf(n));
            -1 <= i < 14 && (i >= 0 ==> Desc(i).number == ModeOf(n) && ModeBits(i) == ModeWidth(n))
  {
    hide And, Low, Shr, Shl, Desc, ModeToIndex;
    SecondBit(n);
    var w := ModeWidth(n);
    Recombine(n, w);
    assert Pow2(2) == 4 && Pow2(5) == 32;
    LowLow(n, w, 2);
    LowTwo(n);
    LowTwo(Low(n, w));
    TableOfMode(Low(n, w));
  }

  lemma {:induction false} TableOfMode(mode: nat)
    requires mode < 2 || (mode < 32 && mode / 2 % 2 == 1)
    ensures var i := ModeToIndex(mode);
            -1 <= i < 14 && (i >= 0 ==> Desc(i).number == mode && ModeBits(i) == if mode < 2 then 2 else 5)
  {}

  lemma {:induction false} SecondBit(n: nat)
    ensures And(n, 2) == 2 * (n / 2 % 2)
  {
    assert Shl(1, 1) == 2 && Pow2(1) == 2;
    AndField(n, 1, 1);
    assert Shr(n, 1) == n / 2;
    assert Low(n / 2, 1) == n / 2 % 2;
    assert Shl(Field(n, 1, 1), 1) == 2 * Field(n, 1, 1);
  }

  lemma {:induction false} LowTwo(n: nat)
    ensures Low(n, 2) == n % 4 == n % 2 + 2 * (n / 2 % 2)
  {
    assert Low(n / 2, 1) == n / 2 % 2;
  }

  // ---------------------------------------------------------------- the header loop

  function PutPiece(p: Piece, n: nat, e: seq<nat>): (r: seq<nat>)
    requires |e| == 13 && SmallPiece(p)
    ensures |r| == 13
  {
    if p.None? then e else e[p.slot := Or(e[p.slot], Placed(n, p.msb, p.lsb))]
  }

  /** All slots after reading the layout off `n`. */
  function ReadSlots(l: Layout, n: nat, e: seq<nat>): (r: seq<nat>)
    requires |e| == 13 && Small(l)
    ensures |r| == 13
    decreases l
  {
    match l
    case End => e
    case Row(x, y, z, rest) =>
      var n1 := After(x, n);
      var n2 := After(y, n1);
      ReadSlots(rest, After(z, n2), PutPiece(z, n2, PutPiece(y, n1, PutPiece(x, n, e))))
  }

  function Blank(): (e: seq<nat>) ensures |e| == 13 { seq(13, _ => 0) }

  lemma {:induction false} PutPieceBit(p: Piece, n: nat, e: seq<nat>, slot: nat, b: nat)
    requires |e| == 13 && SmallPiece(p) && slot < 13
    ensures Bit(PutPiece(p, n, e)[slot], b) == (Bit(e[slot], b) || PieceBit(p, n, slot, b))
  {
    hide Bit, Or, Placed;
    if p.Piece? {
      OrBit(e[p.slot], Placed(n, p.msb, p.lsb), b);
      PlacedBit(n, p.msb, p.lsb, b);
    }
  }

  lemma {:induction false} ReadSlotsBit(l: Layout, n: nat, e: seq<nat>, slot: nat, b: nat)
    requires |e| == 13 && Small(l) && slot < 13
    ensures Bit(ReadSlots(l, n, e)[slot], b) == (Bit(e[slot], b) || SlotBit(l, n, slot, b))
    decreases l
  {
    hide Bit, PutPiece, PieceBit, After;
    if l.Row? {
      var n1 := After(l.a, n);
      var n2 := After(l.b, n1);
      var e1 := PutPiece(l.a, n, e);
      var e2 := PutPiece(l.b, n1, e1);
      PutPieceBit(l.a, n, e, slot, b);
      PutPieceBit(l.b, n1, e1, slot, b);
      PutPieceBit(l.c, n2, e2, slot, b);
      ReadSlotsBit(l.rest, After(l.c, n2), PutPiece(l.c, n2, e2), slot, b);
    }
  }

  /**
    For every mode and every block: a declared bit of a slot is the block's bit at that bit's origin,
    and a slot has no other bits, so it stays below 2 to its declared width.
   */
  lemma {:induction false} SlotIsItsBits(index: nat, n: nat, slot: nat)
    requires index < 14 && slot < 13
    ensures Small(LayoutOf(index))
    ensures var v := ReadSlots(LayoutOf(index), n, Blank())[slot];
            && v < Pow2(Declared(Desc(index), slot))
            && forall b: nat :: b < Declared(Desc(index), slot) ==> Bit(v, b) == Bit(n, Origin(LayoutOf(index), slot, b))
  {
    hide Bit, ReadSlots, Count, Origin, SlotBit, Desc, LayoutOf, Declared;
    var l := LayoutOf(index);
    EveryBitOnce(index, slot, 0);
    var v := ReadSlots(l, n, Blank())[slot];
    forall b: nat
      ensures b >= Declared(Desc(index), slot) ==> !Bit(v, b)
      ensures b < Declared(Desc(index), slot) ==> Bit(v, b) == Bit(n, Origin(l, slot, b))
    {
      EveryBitOnce(index, slot, b);
      ReadSlotsBit(l, n, Blank(), slot, b);
      ZeroBit(b);
      if b < Declared(Desc(index), slot) {
        AssignedOnce(l, n, slot, b);
      } else {
        Uncovered(l, n, slot, b);
      }
    }
    HighBitsClear(v, Declared(Desc(index), slot));
  }

  method ReadPiece(data: Data, p: Piece, e: seq<nat>) returns (e': seq<nat>)
    requires data.Valid() && |e| == 13 && SmallPiece(p)
    modifies data
    ensures data.Valid() && data.Number() == After(p, old(data.Number()))
    ensures e' == PutPiece(p, old(data.Number()), e)
  {
    hide Shr, Or, Placed;
    if p.None? {
      NoShift(data.Number());
      return e;
    }
    var bits := data.ConsumeBits(p.msb, p.lsb);
    e' := e[p.slot := Or(e[p.slot], bits)];
  }

  /** Lines 829-859: every entry of the layout in turn. */
  method ReadHeader(data: Data, layout: Layout) returns (e: seq<nat>)
    requires data.Valid() && Small(layout)
    modifies data
    ensures data.Valid() && data.Number() == Shr(old(data.Number()), TotalSize(layout))
    ensures e == ReadSlots(layout, old(data.Number()), Blank())
  {
    hide Shr, PutPiece, Pow2, ReadSlots, TotalSize, Small, SmallPiece, Size;
    e := Blank();
    ghost var n := data.Number();
    var l := layout;
    ghost var size: nat := 0;
    NoShift(n);
    while l != End
      invariant data.Valid() && Small(l) && |e| == 13
      invariant size + TotalSize(l) == TotalSize(layout) && data.Number() == Shr(n, size)
      invariant ReadSlots(l, data.Number(), e) == ReadSlots(layout, n, Blank())
      decreases l
    {
      ReadRow(l, n, size, e);
      e := ReadPiece(data, l.a, e);
      e := ReadPiece(data, l.b, e);
      e := ReadPiece(data, l.c, e);
      size := size + Size(l.a) + Size(l.b) + Size(l.c);
      l := l.rest;
    }
    ReadEnd(data.Number(), e);
  }

  lemma {:induction false} ReadEnd(n: nat, e: seq<nat>)
    requires |e| == 13
    ensures Small(End) && TotalSize(End) == 0 && ReadSlots(End, n, e) == e
  {
  }

  /** One row of the layout, from what is left of the block once `size` bits were consumed. */
  lemma {:induction false} ReadRow(l: Layout, n: nat, size: nat, e: seq<nat>)
    requires l.Row? && Small(l) && |e| == 13
    ensures SmallPiece(l.a) && SmallPiece(l.b) && SmallPiece(l.c) && Small(l.rest)
    ensures TotalSize(l) == Size(l.a) + Size(l.b) + Size(l.c) + TotalSize(l.rest)
    ensures var n0 := Shr(n, size);
            var n1 := Shr(n0, Size(l.a));
            var n2 := Shr(n1, Size(l.b));
            && Shr(n2, Size(l.c)) == Shr(n, size + Size(l.a) + Size(l.b) + Size(l.c))
            && ReadSlots(l, n0, e)
               == ReadSlots(l.rest, Shr(n2, Size(l.c)), PutPiece(l.c, n2, PutPiece(l.b, n1, PutPiece(l.a, n0, e))))
  {
    hide PutPiece, Shr, Size, SmallPiece;
    ShrShr(n, size, Size(l.a));
    ShrShr(n, size + Size(l.a), Size(l.b));
    ShrShr(n, size + Size(l.a) + Size(l.b), Size(l.c));
  }

  // ---------------------------------------------------------------- endpoints

  /** After lines 861-871: deltas, and everything in a signed format, are sign-extended. */
  function Extended(m: ModeDesc, e: seq<nat>, signed: bool, slot: nat): nat
    requires |e| == 13 && slot < 6 * m.partitions <= 12
  {
    if (signed || (m.hasDelta && slot >= 3)) && Declared(m, slot) >= 1
    then ToU16(ExtendSign(e[slot], Declared(m, slot))) else e[slot]
  }

  /** After lines 873-878: deltas are added to the first endpoint. */
  function Resolved(m: ModeDesc, e: seq<nat>, signed: bool, slot: nat): nat
    requires |e| == 13 && slot < 6 * m.partitions <= 12 && m.endpointBits >= 1
  {
    var x := Extended(m, e, signed, slot);
    if m.hasDelta && slot >= 3 then
      var r := Resolve(Extended(m, e, signed, slot % 3), x, m.endpointBits);
      if signed then ToU16(ExtendSign(r, m.endpointBits)) else r
    else x
  }

  /** After lines 880-882. */
  function Unquantized(m: ModeDesc, e: seq<nat>, signed: bool, slot: nat): nat
    requires |e| == 13 && slot < 6 * m.partitions <= 12 && m.endpointBits >= 1
  {
    var x := Resolved(m, e, signed, slot);
    if signed then ToU16(UnquantizeSigned(FromU16(x), m.endpointBits)) else UnquantizeUnsigned(x, m.endpointBits)
  }

  /** Lines 861-882, the three passes over the endpoints. */
  method ResolveEndpoints(m: ModeDesc, e: seq<nat>, signed: bool) returns (r: seq<nat>)
    requires |e| == 13 && 1 <= m.partitions <= 2 && m.endpointBits >= 1
    ensures |r| == 13 && forall s :: 0 <= s < 6 * m.partitions ==> r[s] == Unquantized(m, e, signed, s)
  {
    hide ToU16, ExtendSign, Declared, Resolve, UnquantizeSigned, UnquantizeUnsigned, FromU16;
    var n := 6 * m.partitions;
    r := e;
    for s := 0 to n
      invariant |r| == 13 && forall k :: 0 <= k < 13 ==> r[k] == if k < s then Extended(m, e, signed, k) else e[k]
    {
      if (signed || (m.hasDelta && s >= 3)) && Declared(m, s) >= 1 {
        r := r[s := ToU16(ExtendSign(r[s], Declared(m, s)))];
      }
    }
    if m.hasDelta {
      for s := 3 to n
        invariant |r| == 13
        invariant forall k :: 0 <= k < n ==> r[k] == if k < s then Resolved(m, e, signed, k) else Extended(m, e, signed, k)
      {
        var x := Resolve(r[s % 3], r[s], m.endpointBits);
        r := r[s := if signed then ToU16(ExtendSign(x, m.endpointBits)) else x];
      }
    }
    for s := 0 to n
      invariant |r| == 13
      invariant forall k :: 0 <= k < n ==> r[k] == if k < s then Unquantized(m, e, signed, k) else Resolved(m, e, signed, k)
    {
      r := r[s := if signed then ToU16(UnquantizeSigned(FromU16(r[s]), m.endpointBits))
                  else UnquantizeUnsigned(r[s], m.endpointBits)];
    }
  }

  // ---------------------------------------------------------------- indices

  /** Lines 894-903. */
  predicate IsAnchor(partitions: nat, shape: Shape, t: nat) {
    t == 0 || (partitions == 2 && t == shape.anchor1)
  }

  function IndexWidth(partitions: nat): nat { if partitions == 1 then 4 else 3 }

  /** An anchor's leading zero bit is not stored. */
  function IndexBits(partitions: nat, shape: Shape, t: nat): nat {
    IndexWidth(partitions) - (if IsAnchor(partitions, shape, t) then 1 else 0)
  }

  /** Bits of the indices before texel `t`. */
  function IndexStart(partitions: nat, shape: Shape, t: nat): nat {
    if t == 0 then 0 else IndexStart(partitions, shape, t - 1) + IndexBits(partitions, shape, t - 1)
  }

  lemma {:induction false} IndexStartIs(partitions: nat, shape: Shape, t: nat)
    requires 1 <= partitions <= 2 && (partitions == 2 ==> 0 < shape.anchor1 < 16)
    ensures IndexStart(partitions, shape, t) + (if t > 0 then 1 else 0)
            + (if partitions == 2 && t > shape.anchor1 then 1 else 0) == IndexWidth(partitions) * t
  {
    if t > 0 { IndexStartIs(partitions, shape, t - 1); }
  }

  function ShapeOf(slots: seq<nat>): Shape
    requires |slots| == 13
  {
    Partition2(slots[PartitionSlot] % 64)
  }

  function HeaderBits(index: nat): nat
    requires index < 14
  {
    ModeBits(index) + TotalSize(LayoutOf(index))
  }

  /** For every legal mode and every block, mode, header and the sixteen indices are exactly 128 bits. */
  lemma {:induction false} BlockIs128Bits(index: nat, slots: seq<nat>)
    requires index < 14 && |slots| == 13
    ensures HeaderBits(index) + IndexStart(Desc(index).partitions, ShapeOf(slots), 16) == 128
  {
    hide Desc, LayoutOf, Count, TotalSize, Partition2, IndexStart;
    EveryBitOnce(index, 0, 0);
    Partition2Ok(slots[PartitionSlot] % 64);
    IndexStartIs(Desc(index).partitions, ShapeOf(slots), 16);
  }

  // ---------------------------------------------------------------- decoding

  const HalfOne: nat := 0x3C00

  /** Lines 494-520: one channel blended by its weight. */
  function Channel(e0: nat, e1: nat, w: nat, signed: bool): nat {
    if signed then Finish(Blend(ExtendSign(e0, 16), ExtendSign(e1, 16), w), true) else Finish(Blend(e0, e1, w), false)
  }

  /** Lines 481-524 for one texel: the subset's endpoints blended by the index. */
  function Colour(partitions: nat, shape: Shape, ends: seq<nat>, signed: bool, t: nat, index: nat): seq<nat>
    requires |ends| == 13
  {
    var s := if partitions == 2 && Subset(shape, t) == 1 then 6 else 0;
    var w := Weight(IndexWidth(partitions), index);
    [Channel(ends[s], ends[s + 3], w, signed), Channel(ends[s + 1], ends[s + 4], w, signed),
     Channel(ends[s + 2], ends[s + 5], w, signed), HalfOne]
  }

  /** The endpoints of a block in mode `index`. */
  function Ends(index: nat, slots: seq<nat>, signed: bool): (r: seq<nat>)
    requires index < 14 && |slots| == 13 && 1 <= Desc(index).partitions <= 2 && Desc(index).endpointBits >= 1
    ensures |r| == 13
  {
    seq(13, s requires 0 <= s < 13 =>
      if s < 6 * Desc(index).partitions then Unquantized(Desc(index), slots, signed, s) else slots[s])
  }

  lemma {:induction false} DescSound(index: nat)
    requires index < 14
    ensures 1 <= Desc(index).partitions <= 2 && Desc(index).endpointBits >= 1
  {}

  ghost predicate Legal(index: nat) {
    index < 14 && Small(LayoutOf(index)) && 1 <= Desc(index).partitions <= 2 && Desc(index).endpointBits >= 1
  }

  lemma {:induction false} AllLegal(index: nat)
    requires index < 14
    ensures Legal(index)
  {
    hide Desc, LayoutOf, Count, TotalSize, Small;
    EveryBitOnce(index, 0, 0);
    DescSound(index);
  }

  ghost predicate AreEnds(index: nat, slots: seq<nat>, signed: bool, ends: seq<nat>)
    requires Legal(index) && |slots| == |ends| == 13
  {
    forall s :: 0 <= s < 6 * Desc(index).partitions ==> ends[s] == Unquantized(Desc(index), slots, signed, s)
  }

  /** The stored index of texel `t`. */
  function IndexOf(index: nat, slots: seq<nat>, n: nat, t: nat): nat
    requires index < 14 && |slots| == 13
  {
    var (parts, shape) := (Desc(index).partitions, ShapeOf(slots));
    Field(n, HeaderBits(index) + IndexStart(parts, shape, t), IndexBits(parts, shape, t))
  }

  /** Texel `t` in terms of the slots already read. */
  ghost function TexelFrom(index: nat, slots: seq<nat>, n: nat, signed: bool, t: nat): seq<nat>
    requires Legal(index) && |slots| == 13
  {
    Colour(Desc(index).partitions, ShapeOf(slots), Ends(index, slots, signed), signed, t, IndexOf(index, slots, n, t))
  }

  /** What texel `t` of block `n` decodes to; black where the mode is illegal. */
  ghost function Texel(n: nat, signed: bool, t: nat): seq<nat> {
    hide Legal, TexelFrom, ReadSlots, ModeOf, ModeToIndex;
    ModeSelectsItsTable(n);
    var index := ModeToIndex(ModeOf(n));
    if index < 0 then [0, 0, 0, HalfOne]
    else
      AllLegal(index);
      EveryBitOnce(index, 0, 0);
      TexelFrom(index, ReadSlots(LayoutOf(index), Shr(n, ModeWidth(n)), Blank()), n, signed, t)
  }

  /** A stored index never leaves its table of weights. */
  lemma {:induction false} IndexFits(parts: nat, shape: Shape, t: nat, n: nat, header: nat)
    requires 1 <= parts <= 2
    ensures Field(n, header + IndexStart(parts, shape, t), IndexBits(parts, shape, t)) < (if parts == 1 then 16 else 8)
  {
    var at := Shr(n, header + IndexStart(parts, shape, t));
    Recombine(at, IndexBits(parts, shape, t));
    assert Pow2(4) == 16 && Pow2(3) == 8 && Pow2(2) == 4;
  }

  ghost function Put(n: nat, signed: bool): (nat, seq<nat>) -> seq<nat> {
    (t: nat, px: seq<nat>) => Texel(n, signed, t)
  }

  /** Lines 801-809 and 811. */
  method ReadMode(data: Data) returns (index: int)
    requires data.Valid()
    modifies data
    ensures data.Valid() && data.Number() == Shr(old(data.Number()), ModeWidth(old(data.Number())))
    ensures index == ModeToIndex(ModeOf(old(data.Number())))
  {
    hide And, Shr, Low, Shl;
    LowHalfDecides(data.low64, data.high64);
    var mode: nat;
    if And(data.low64, 2) == 0 {
      mode := data.ConsumeBits(1, 0);
    } else {
      mode := data.ConsumeBits(4, 0);
    }
    index := ModeToIndex(mode);
  }

  lemma {:induction false} LowHalfDecides(low: nat, high: nat)
    ensures And(low, 2) == And(low + Shl(high, 64), 2)
    ensures forall n: nat :: Shl(n, 0) == n
  {
    hide And, Shl;
    SecondBit(low);
    SecondBit(low + Shl(high, 64));
    TopIsFourfold(high);
    forall n: nat ensures Shl(n, 0) == n { NoShift(n); }
  }

  lemma {:induction false} TopIsFourfold(high: nat)
    ensures Shl(high, 64) == 4 * Shl(high, 62)
  {
    assert Shl(high, 64) == 2 * Shl(high, 63);
  }

  /**
    Lines 800-918.  The picture is the old one with every texel that lies in the image replaced by its
    decoded value, whatever the clipping: index bits are consumed for clipped texels too.
   */
  method Decode(low64: nat, high64: nat, dst: array<seq<nat>>, win: Window, signed: bool)
    requires low64 < Pow2(64) && high64 < Pow2(64) && Fits(win, dst.Length)
    modifies dst
    ensures dst[..] == Painted(old(dst[..]), win, Put(low64 + Shl(high64, 64), signed), 16)
  {
    hide Painted, Texel, Pow2, Shr, Shl, ModeToIndex, ModeOf, ReadSlots, Desc, LayoutOf, TotalSize;
    var data := new Data(low64, high64);
    ghost var n := data.Number();
    ModeSelectsItsTable(n);
    var index := ReadMode(data);
    if index < 0 {
      PaintIllegal(n, dst, win, signed);
      return;
    }
    EveryBitOnce(index, 0, 0);
    DescSound(index);
    var slots := ReadHeader(data, LayoutOf(index));
    ShrShr(n, ModeWidth(n), TotalSize(LayoutOf(index)));
    var ends := ResolveEndpoints(Desc(index), slots, signed);
    PaintTexels(n, data, index, slots, ends, dst, win, signed);
  }

  /** Lines 813-821. */
  method PaintIllegal(ghost n: nat, dst: array<seq<nat>>, win: Window, signed: bool)
    requires Fits(win, dst.Length) && ModeToIndex(ModeOf(n)) < 0
    modifies dst
    ensures dst[..] == Painted(old(dst[..]), win, Put(n, signed), 16)
  {
    hide Painted, ModeToIndex, ModeOf;
    ghost var before, put := dst[..], Put(n, signed);
    PaintNone(before, win, put);
    var y := 0;
    while y < 4 && win.y + y < win.height
      invariant 0 <= y <= 4
      invariant dst[..] == Painted(before, win, put, 4 * y)
    {
      var x := 0;
      while x < 4 && win.x + x < win.width
        invariant 0 <= x <= 4
        invariant dst[..] == Painted(before, win, put, 4 * y + x)
      {
        PaintOne(before, win, put, x, y);
        dst[Pixel(win, x, y)] := [0, 0, 0, HalfOne];
        x := x + 1;
      }
      PaintSkip(before, win, put, 4 * y + x, 4 * (y + 1));
      y := y + 1;
    }
    PaintSkip(before, win, put, 4 * y, 16);
  }

  /** Lines 885-917. */
  method PaintTexels(ghost n: nat, data: Data, index: nat, slots: seq<nat>, ends: seq<nat>, dst: array<seq<nat>>,
                     win: Window, signed: bool)
    requires Fits(win, dst.Length) && data.Valid() && index < 14 && index == ModeToIndex(ModeOf(n))
    requires Legal(index) && ModeBits(index) == ModeWidth(n)
    requires slots == ReadSlots(LayoutOf(index), Shr(n, ModeWidth(n)), Blank())
    requires |slots| == 13 && |ends| == 13 && AreEnds(index, slots, signed, ends)
    requires data.Number() == Shr(n, HeaderBits(index))
    modifies dst, data
    ensures dst[..] == Painted(old(dst[..]), win, Put(n, signed), 16)
  {
    hide Painted, Texel, Pow2, Shr, Shl, Low, ModeToIndex, ModeOf, ReadSlots, Desc, LayoutOf, TotalSize, Colour, Partition2,
         Unquantized, IndexStart;
    ghost var before, put := dst[..], Put(n, signed);
    var parts, shape := Desc(index).partitions, ShapeOf(slots);
    PaintNone(before, win, put);
    NoIndexYet(parts, shape);
    var t := 0;
    while t < 16
      invariant 0 <= t <= 16 && data.Valid()
      invariant data.Number() == Shr(n, HeaderBits(index) + IndexStart(parts, shape, t))
      invariant dst[..] == Painted(before, win, put, t)
    {
      var x, y := t % 4, t / 4;
      ghost var at := HeaderBits(index) + IndexStart(parts, shape, t);
      ShrShr(n, at, IndexBits(parts, shape, t));
      NextIndex(parts, shape, t);
      var value := data.ConsumeBits(IndexBits(parts, shape, t) - 1, 0);
      PlacedAtZero(Shr(n, at), IndexBits(parts, shape, t));
      if Inside(win, x, y) {
        PaintOne(before, win, put, x, y);
        TexelIs(n, index, slots, ends, signed, t);
        dst[Pixel(win, x, y)] := Colour(parts, shape, ends, signed, t, value);
      } else {
        PaintSkip(before, win, put, t, t + 1);
      }
      t := t + 1;
    }
  }

  lemma {:induction false} NoIndexYet(parts: nat, shape: Shape) ensures IndexStart(parts, shape, 0) == 0 {}

  lemma {:induction false} NextIndex(parts: nat, shape: Shape, t: nat)
    ensures IndexStart(parts, shape, t + 1) == IndexStart(parts, shape, t) + IndexBits(parts, shape, t)
  {}

  lemma {:induction false} PlacedAtZero(n: nat, w: nat)
    requires w >= 1
    ensures Placed(n, w - 1, 0) == Low(n, w)
  {
    assert forall m: nat :: Shl(m, 0) == m;
  }

  /** The decoded value in terms of what the loop has at hand. */
  lemma {:induction false} TexelIs(n: nat, index: nat, slots: seq<nat>, ends: seq<nat>, signed: bool, t: nat)
    requires Legal(index) && index == ModeToIndex(ModeOf(n))
    requires slots == ReadSlots(LayoutOf(index), Shr(n, ModeWidth(n)), Blank())
    requires |slots| == 13 && |ends| == 13 && AreEnds(index, slots, signed, ends)
    ensures Texel(n, signed, t) == Colour(Desc(index).partitions, ShapeOf(slots), ends, signed, t, IndexOf(index, slots, n, t))
  {
    hide ModeToIndex, ModeOf, ReadSlots, Desc, LayoutOf, TotalSize, Partition2, Unquantized, Colour, IndexOf, Shr;
    var full := Ends(index, slots, signed);
    assert Texel(n, signed, t) == TexelFrom(index, slots, n, signed, t);
    SameColour(Desc(index).partitions, ShapeOf(slots), full, ends, signed, t, IndexOf(index, slots, n, t));
  }

  /** Only the endpoints in use matter. */
  lemma {:induction false} SameColour(parts: nat, shape: Shape, a: seq<nat>, b: seq<nat>, signed: bool, t: nat, index: nat)
    requires |a| == |b| == 13 && 1 <= parts <= 2 && forall s :: 0 <= s < 6 * parts ==> a[s] == b[s]
    ensures Colour(parts, shape, a, signed, t, index) == Colour(parts, shape, b, signed, t, index)
  {
    hide Channel, Weight;
  }

  // ---------------------------------------------------------------- every output is a finite half-float

  /** Resolved endpoints fit the mode's width, as unsigned or as signed numbers. */
  lemma {:induction false} ResolvedInRange(m: ModeDesc, e: seq<nat>, signed: bool, slot: nat)
    requires |e| == 13 && slot < 6 * m.partitions <= 12 && 1 <= m.endpointBits <= 16
    requires (m.hasDelta && slot >= 3) || (Declared(m, slot) == m.endpointBits && e[slot] < Pow2(m.endpointBits))
    ensures var x := Resolved(m, e, signed, slot);
            if signed then 0 - Pow2(m.endpointBits - 1) <= FromU16(x) < Pow2(m.endpointBits - 1)
            else x < Pow2(m.endpointBits)
  {
    hide Declared, ExtendSign, Pow2, Low, FromU16, ToU16;
    var b := m.endpointBits;
    if m.hasDelta && slot >= 3 {
      var sum := Extended(m, e, signed, slot % 3) + Extended(m, e, signed, slot);
      Recombine(sum, b);
      SignedWord(Low(sum, b), b);
    } else {
      SignedWord(e[slot], b);
    }
  }

  /** A number of `b` bits, sign-extended and stored in 16 bits, reads back as a signed number of `b` bits. */
  lemma {:induction false} SignedWord(v: nat, b: nat)
    requires 1 <= b <= 16 && v < Pow2(b)
    ensures 0 - Pow2(b - 1) <= FromU16(ToU16(ExtendSign(v, b))) < Pow2(b - 1)
  {
    hide ExtendSign, Pow2;
    SixteenBits();
    Pow2Monotone(b, 16);
    TopBitHalves(b);
    ExtendSignMeans(v, b);
  }

  /** Unquantized endpoints fit 16 bits; in a signed mode of fewer than 16 bits they exceed -32768. */
  lemma {:induction false} UnquantizedInRange(m: ModeDesc, e: seq<nat>, signed: bool, slot: nat)
    requires |e| == 13 && slot < 6 * m.partitions <= 12 && 2 <= m.endpointBits <= 16
    requires (m.hasDelta && slot >= 3) || (Declared(m, slot) == m.endpointBits && e[slot] < Pow2(m.endpointBits))
    ensures var x := Unquantized(m, e, signed, slot);
            x < 65536 && (signed && m.endpointBits < 16 ==> -0x7FFF <= ExtendSign(x, 16) <= 0x7FFF)
  {
    hide Resolved, Declared, UnquantizeSigned, UnquantizeUnsigned, ExtendSign, Pow2;
    ResolvedInRange(m, e, signed, slot);
    var r, b := Resolved(m, e, signed, slot), m.endpointBits;
    SixteenBits();
    TopBitHalves(16);
    if !signed {
      UnsignedInRange(r, b);
    } else {
      var u := UnquantizeSigned(FromU16(r), b);
      ExtendSignMeans(ToU16(u), 16);
      if b < 16 { SignedInRange(FromU16(r), b); }
    }
  }

  /** How far a blend of two signed endpoints is from -32768, in 64ths. */
  function Rise(e0: nat, e1: nat, w: nat): int {
    (ExtendSign(e0, 16) + 0x8000) * (64 - w) + (ExtendSign(e1, 16) + 0x8000) * w
  }

  /** Exactly when a signed channel is finite, whatever the endpoints: they must not blend to -32768. */
  lemma {:induction false} SignedChannelFinite(e0: nat, e1: nat, w: nat)
    requires w <= 64 && e0 < 65536 && e1 < 65536
    ensures Channel(e0, e1, w, true) % 0x8000 <= 0x7BFF <==> Rise(e0, e1, w) >= 32
    ensures Rise(e0, e1, w) < 32 ==> Channel(e0, e1, w, true) == 0xFC00
  {
    hide ExtendSign, Finish, Pow2;
    SixteenBits();
    TopBitHalves(16);
    ExtendSignMeans(e0, 16);
    ExtendSignMeans(e1, 16);
    var x, y := ExtendSign(e0, 16), ExtendSign(e1, 16);
    BlendBetween(x, y, w);
    SignedOutputFinite(Blend(x, y, w));
    LowestBlend(x, y, w);
  }

  lemma {:induction false} DeclaredWidths(index: nat, slot: nat)
    requires index < 14 && slot < 6 * Desc(index).partitions
    ensures 2 <= Desc(index).endpointBits <= 16 && Desc(index).partitions <= 2
    ensures (Desc(index).hasDelta && slot >= 3) || Declared(Desc(index), slot) == Desc(index).endpointBits
  {}

  /** The rise of channel `c` of a texel, from the endpoints of its subset. */
  function ColourRise(partitions: nat, shape: Shape, ends: seq<nat>, t: nat, index: nat, c: nat): int
    requires |ends| == 13 && c < 3
  {
    var s := (if partitions == 2 && Subset(shape, t) == 1 then 6 else 0) + c;
    Rise(ends[s], ends[s + 3], Weight(IndexWidth(partitions), index))
  }

  lemma {:induction false} ColourFinite(partitions: nat, shape: Shape, ends: seq<nat>, signed: bool, t: nat, index: nat, c: nat)
    requires |ends| == 13 && 1 <= partitions <= 2 && c < 3
    requires forall s :: 0 <= s < 6 * partitions ==> ends[s] < 65536
    ensures var px := Colour(partitions, shape, ends, signed, t, index);
            && |px| == 4
            && (px[c] % (if signed then 0x8000 else 0x1_0000) <= 0x7BFF
                <==> !signed || ColourRise(partitions, shape, ends, t, index, c) >= 32)
            && (signed && ColourRise(partitions, shape, ends, t, index, c) < 32 ==> px[c] == 0xFC00)
  {
    hide Weight, ExtendSign, Subset, Rise, Finish, Blend;
    var s := (if partitions == 2 && Subset(shape, t) == 1 then 6 else 0) + c;
    var w := Weight(IndexWidth(partitions), index);
    WeightAtMost64(IndexWidth(partitions), index);
    if signed {
      SignedChannelFinite(ends[s], ends[s + 3], w);
    } else {
      UnsignedOutputFinite(ends[s], ends[s + 3], w);
    }
  }

  ghost function RiseFrom(index: nat, slots: seq<nat>, n: nat, t: nat, c: nat): int
    requires Legal(index) && |slots| == 13 && c < 3
  {
    ColourRise(Desc(index).partitions, ShapeOf(slots), Ends(index, slots, true), t, IndexOf(index, slots, n, t), c)
  }

  /** The rise of channel `c` of texel `t` of a block in the signed format. */
  ghost function TexelRise(n: nat, t: nat, c: nat): int
    requires c < 3
  {
    hide Legal, RiseFrom, ReadSlots, ModeOf, ModeToIndex;
    ModeSelectsItsTable(n);
    var index := ModeToIndex(ModeOf(n));
    if index < 0 then 32
    else
      AllLegal(index);
      EveryBitOnce(index, 0, 0);
      RiseFrom(index, ReadSlots(LayoutOf(index), Shr(n, ModeWidth(n)), Blank()), n, t, c)
  }

  /**
    Whole blocks: every output of the unsigned format is a finite half-float, and an output of the signed
    format is one exactly when its endpoints do not blend to -32768; otherwise it is minus infinity.
   */
  lemma {:induction false} OutputsFinite(n: nat, signed: bool, t: nat, c: nat)
    requires c < 3
    ensures |Texel(n, signed, t)| == 4
    ensures Texel(n, signed, t)[c] % (if signed then 0x8000 else 0x1_0000) <= 0x7BFF
            <==> !signed || TexelRise(n, t, c) >= 32
    ensures signed && TexelRise(n, t, c) < 32 ==> Texel(n, signed, t)[c] == 0xFC00
  {
    hide ModeToIndex, ModeOf, ReadSlots, Desc, LayoutOf, Unquantized, Colour, ColourRise, Declared, IndexOf, Shr, ModeWidth;
    ModeSelectsItsTable(n);
    var i := ModeToIndex(ModeOf(n));
    if i >= 0 {
      AllLegal(i);
      EveryBitOnce(i, 0, 0);
      var m := Desc(i);
      var slots := ReadSlots(LayoutOf(i), Shr(n, ModeWidth(n)), Blank());
      var ends := Ends(i, slots, signed);
      forall s | 0 <= s < 6 * m.partitions ensures ends[s] < 65536 {
        DeclaredWidths(i, s);
        SlotIsItsBits(i, Shr(n, ModeWidth(n)), s);
        UnquantizedInRange(m, slots, signed, s);
      }
      ColourFinite(m.partitions, ShapeOf(slots), ends, signed, t, IndexOf(i, slots, n, t), c);
    }
  }

  /** No mode with endpoints of fewer than 16 bits can do that. */
  lemma {:induction false} NarrowModesFinite(n: nat, t: nat, c: nat)
    requires c < 3
    requires var i := ModeToIndex(ModeOf(n)); 0 <= i < 14 ==> Desc(i).endpointBits < 16
    ensures TexelRise(n, t, c) >= 32
  {
    hide ModeToIndex, ModeOf, ReadSlots, Desc, LayoutOf, Unquantized, Declared, IndexOf, ExtendSign, Shr, ModeWidth, Rise;
    ModeSelectsItsTable(n);
    var i := ModeToIndex(ModeOf(n));
    if i >= 0 {
      AllLegal(i);
      EveryBitOnce(i, 0, 0);
      var m := Desc(i);
      var slots := ReadSlots(LayoutOf(i), Shr(n, ModeWidth(n)), Blank());
      var ends := Ends(i, slots, true);
      forall s | 0 <= s < 6 * m.partitions ensures -0x7FFF <= ExtendSign(ends[s], 16) {
        DeclaredWidths(i, s);
        SlotIsItsBits(i, Shr(n, ModeWidth(n)), s);
        UnquantizedInRange(m, slots, true, s);
      }
      NarrowRise(m.partitions, ShapeOf(slots), ends, t, IndexOf(i, slots, n, t), c);
    }
  }

  lemma {:induction false} NarrowRise(partitions: nat, shape: Shape, ends: seq<nat>, t: nat, index: nat, c: nat)
    requires |ends| == 13 && 1 <= partitions <= 2 && c < 3
    requires forall s :: 0 <= s < 6 * partitions ==> -0x7FFF <= ExtendSign(ends[s], 16)
    ensures ColourRise(partitions, shape, ends, t, index, c) >= 32
  {
    hide Weight, ExtendSign, Subset;
    var s := (if partitions == 2 && Subset(shape, t) == 1 then 6 else 0) + c;
    var w := Weight(IndexWidth(partitions), index);
    WeightAtMost64(IndexWidth(partitions), index);
    var x, y := ExtendSign(ends[s], 16) + 0x8000, ExtendSign(ends[s + 3], 16) + 0x8000;
    AtLeastOnce(x, 64 - w);
    AtLeastOnce(y, w);
  }

  lemma {:induction false} AtLeastOnce(x: int, w: nat)
    requires x >= 1
    ensures x * w >= w
  {
  }

  // ---------------------------------------------------------------- a block that reaches minus infinity

  lemma {:induction false} PowerBit(k: nat, i: nat)
    ensures Bit(Pow2(k), i) <==> i == k
  {
    if i > 0 {
      if k == 0 {
        assert Pow2(0) / 2 == 0;
        ZeroBit(i - 1);
      } else {
        PowerBit(k - 1, i - 1);
      }
    }
  }

  lemma {:induction false} OnlyBit(v: nat, k: nat)
    requires forall i: nat :: Bit(v, i) <==> i == k
    ensures v == Pow2(k)
  {
    assert forall i: nat :: Bit(v / 2, i) == Bit(v, i + 1);
    assert Bit(v, 0) <==> v % 2 == 1;
    if k == 0 {
      HighBitsClear(v / 2, 0);
    } else {
      OnlyBit(v / 2, k - 1);
    }
  }

  /** Mode 15 with the top bit of the first red endpoint set and every other bit clear. */
  function LowestBlock(): nat { 15 + Shl(Pow2(34), 5) }

  lemma {:induction false} LowestOrigin()
    ensures Origin(Mode15(), 0, 15) == 34
  {
    var tail := Row(Ep(0, G, 10, 15), Ep(1, B, 3, 0), Ep(0, B, 10, 15), End);
    var l := Row(Ep(1, R, 3, 0), Ep(0, R, 10, 15), Ep(1, G, 3, 0), tail);
    assert Origin(l, 0, 15) == 4;
    assert Mode15() == Row(Ep(0, R, 9, 0), Ep(0, G, 9, 0), Ep(0, B, 9, 0), l);
  }

  lemma {:induction false} LowestHeader()
    ensures LayoutOf(9) == Mode15() && Desc(9) == ModeDesc(15, true, 1, 16, 4, 4, 4)
    ensures Declared(Desc(9), 0) == 16 && Declared(Desc(9), 3) == 4
  {
    hide Mode15;
  }

  lemma {:induction false} LowestMode()
    ensures var n := LowestBlock(); ModeWidth(n) == 5 && ModeToIndex(ModeOf(n)) == 9 && Shr(n, 5) == Pow2(34)
  {
    hide Pow2, Shl, Shr, Low, And;
    var n := LowestBlock();
    assert Pow2(5) == 32 by { FivePower(); }
    Split(15, Pow2(34), 5);
    LowLow(n, 5, 2);
    LowTwo(n);
    LowTwo(15);
    LowLow(15, 5, 2);
    LowSmall(15, 5);
    SecondBit(n);
  }

  lemma {:induction false} FivePower()
    ensures Pow2(5) == 32
  {
    assert Pow2(3) == 8;
  }

  /** What is read of that block. */
  ghost function LowestSlots(): (slots: seq<nat>)
    ensures |slots| == 13
  {
    hide Small, LayoutOf, Pow2, ReadSlots;
    HeaderSize(9);
    ReadSlots(LayoutOf(9), Pow2(34), Blank())
  }

  lemma {:induction false} LowestRedEnd()
    ensures LowestSlots()[0] == 0x8000
  {
    hide LowestSlots, Bit, Pow2;
    var v := LowestSlots()[0];
    forall b: nat ensures Bit(v, b) <==> b == 15 { LowestRed(b); }
    OnlyBit(v, 15);
    SmallPowers();
  }

  lemma {:induction false} LowestRedDelta()
    ensures LowestSlots()[3] == 0
  {
    hide LowestSlots, Bit, Pow2;
    var v := LowestSlots()[3];
    forall b: nat ensures !Bit(v, b) { LowestDelta(b); }
    HighBitsClear(v, 0);
    SmallPowers();
  }

  lemma {:induction false} LowestRed(b: nat)
    ensures Bit(LowestSlots()[0], b) <==> b == 15
  {
    hide ReadSlots, LayoutOf, Desc, Declared, Bit, Origin, Count, Pow2, Mode15;
    LowestHeader();
    LowestOrigin();
    SlotIsItsBits(9, Pow2(34), 0);
    EveryBitOnce(9, 0, b);
    EveryBitOnce(9, 0, 15);
    if b < 16 {
      if b != 15 { OriginsDiffer(LayoutOf(9), 0, b, 0, 15); }
      PowerBit(34, Origin(LayoutOf(9), 0, b));
    } else {
      SmallHasNoBit(LowestSlots()[0], 16, b);
    }
  }

  lemma {:induction false} LowestDelta(b: nat)
    ensures !Bit(LowestSlots()[3], b)
  {
    hide ReadSlots, LayoutOf, Desc, Declared, Bit, Origin, Count, Pow2, Mode15;
    LowestHeader();
    LowestOrigin();
    SlotIsItsBits(9, Pow2(34), 3);
    EveryBitOnce(9, 3, b);
    EveryBitOnce(9, 0, 15);
    if b < 4 {
      OriginsDiffer(LayoutOf(9), 3, b, 0, 15);
      PowerBit(34, Origin(LayoutOf(9), 3, b));
    } else {
      SmallHasNoBit(LowestSlots()[3], 4, b);
    }
  }

  lemma {:induction false} SmallPowers()
    ensures Pow2(0) == 1 && Pow2(15) == 0x8000
  {
    SixteenBits();
  }

  /** Both red endpoints of that block are -32768. */
  lemma {:induction false} LowestEnds(m: ModeDesc, slots: seq<nat>)
    requires m == Desc(9) && |slots| == 13 && slots[0] == 0x8000 && slots[3] == 0
    ensures Unquantized(m, slots, true, 0) == 0x8000 && Unquantized(m, slots, true, 3) == 0x8000
    ensures ExtendSign(0x8000, 16) == -0x8000
  {
    hide ExtendSign, Pow2, Low;
    SixteenBits();
    TopBitHalves(16);
    TopBitHalves(4);
    ExtendSignMeans(0x8000, 16);
    ExtendSignMeans(0, 4);
    LowSmall(0x8000, 16);
  }

  /** The block decodes to minus infinity in red, in every texel, in the signed format. */
  lemma {:induction false} LowestBlockIsInfinite(t: nat)
    ensures |Texel(LowestBlock(), true, t)| == 4 && Texel(LowestBlock(), true, t)[0] == 0xFC00
  {
    hide ModeToIndex, ModeOf, ReadSlots, Desc, LayoutOf, Unquantized, IndexOf, ExtendSign, Shr, ModeWidth, Colour;
    var n := LowestBlock();
    hide LowestBlock;
    LowestMode();
    LowestHeader();
    LowestRedEnd();
    LowestRedDelta();
    AllLegal(9);
    var slots := LowestSlots();
    LowestEnds(Desc(9), slots);
    LowestRise(Desc(9).partitions, ShapeOf(slots), Ends(9, slots, true), t, IndexOf(9, slots, n, t));
    OutputsFinite(n, true, t, 0);
  }

  lemma {:induction false} LowestRise(partitions: nat, shape: Shape, ends: seq<nat>, t: nat, index: nat)
    requires |ends| == 13 && partitions == 1 && ends[0] == ends[3] == 0x8000 && ExtendSign(0x8000, 16) == -0x8000
    ensures ColourRise(partitions, shape, ends, t, index, 0) == 0
  {
    hide ExtendSign, Weight;
  }
}
