/**
  The bit layouts of the fourteen BC6H modes, lines 594-794 of externals/bc_decoder/bc_decoder.cpp:
  which endpoint bits follow each other in a block, and that nothing is missing or read twice.
 */
module Bc6hLayout {
  import opened Bits
  import opened Bc6hReader

  const R: nat := 0
  const G: nat := 1
  const B: nat := 2

  /** Where bits go: endpoint e, channel c is slot 3e + c; the partition number is slot 12. */
  const PartitionSlot: nat := 12

  /** One entry of the table; a row of the source has up to three. */
  datatype Piece = None | Piece(slot: nat, msb: nat, lsb: nat)

  datatype Layout = End | Row(a: Piece, b: Piece, c: Piece, rest: Layout)

  function Ep(e: nat, c: nat, msb: nat, lsb: nat): Piece { Piece(3 * e + c, msb, lsb) }

  function Part(msb: nat, lsb: nat): Piece { Piece(PartitionSlot, msb, lsb) }

  datatype ModeDesc = ModeDesc(number: nat, hasDelta: bool, partitions: nat, endpointBits: nat,
                               deltaR: nat, deltaG: nat, deltaB: nat)

  function Mode0(): Layout {
    Row(Ep(2, G, 4, 4), Ep(2, B, 4, 4), Ep(3, B, 4, 4),
    Row(Ep(0, R, 9, 0), Ep(0, G, 9, 0), Ep(0, B, 9, 0),
    Row(Ep(1, R, 4, 0), Ep(3, G, 4, 4), Ep(2, G, 3, 0),
    Row(Ep(1, G, 4, 0), Ep(3, B, 0, 0), Ep(3, G, 3, 0),
    Row(Ep(1, B, 4, 0), Ep(3, B, 1, 1), Ep(2, B, 3, 0),
    Row(Ep(2, R, 4, 0), Ep(3, B, 2, 2), Ep(3, R, 4, 0),
    Row(Ep(3, B, 3, 3), Part(4, 0), None, End)))))))
  }

  function Mode1(): Layout {
    Row(Ep(2, G, 5, 5), Ep(3, G, 5, 4), Ep(0, R, 6, 0),
    Row(Ep(3, B, 1, 0), Ep(2, B, 4, 4), Ep(0, G, 6, 0),
    Row(Ep(2, B, 5, 5), Ep(3, B, 2, 2), Ep(2, G, 4, 4),
    Row(Ep(0, B, 6, 0), Ep(3, B, 3, 3), Ep(3, B, 5, 5),
    Row(Ep(3, B, 4, 4), Ep(1, R, 5, 0), Ep(2, G, 3, 0),
    Row(Ep(1, G, 5, 0), Ep(3, G, 3, 0), Ep(1, B, 5, 0),
    Row(Ep(2, B, 3, 0), Ep(2, R, 5, 0), Ep(3, R, 5, 0),
    Row(Part(4, 0), None, None, End))))))))
  }

  function Mode2(): Layout {
    Row(Ep(0, R, 9, 0), Ep(0, G, 9, 0), Ep(0, B, 9, 0),
    Row(Ep(1, R, 4, 0), Ep(0, R, 10, 10), Ep(2, G, 3, 0),
    Row(Ep(1, G, 3, 0), Ep(0, G, 10, 10), Ep(3, B, 0, 0),
    Row(Ep(3, G, 3, 0), Ep(1, B, 3, 0), Ep(0, B, 10, 10),
    Row(Ep(3, B, 1, 1), Ep(2, B, 3, 0), Ep(2, R, 4, 0),
    Row(Ep(3, B, 2, 2), Ep(3, R, 4, 0), Ep(3, B, 3, 3),
    Row(Part(4, 0), None, None, End)))))))
  }

  function Mode3(): Layout {
    Row(Ep(0, R, 9, 0), Ep(0, G, 9, 0), Ep(0, B, 9, 0),
    Row(Ep(1, R, 9, 0), Ep(1, G, 9, 0), Ep(1, B, 9, 0), End))
  }

  function Mode6(): Layout {
    Row(Ep(0, R, 9, 0), Ep(0, G, 9, 0), Ep(0, B, 9, 0),
    Row(Ep(1, R, 3, 0), Ep(0, R, 10, 10), Ep(3, G, 4, 4),
    Row(Ep(2, G, 3, 0), Ep(1, G, 4, 0), Ep(0, G, 10, 10),
    Row(Ep(3, G, 3, 0), Ep(1, B, 3, 0), Ep(0, B, 10, 10),
    Row(Ep(3, B, 1, 1), Ep(2, B, 3, 0), Ep(2, R, 3, 0),
    Row(Ep(3, B, 0, 0), Ep(3, B, 2, 2), Ep(3, R, 3, 0),
    Row(Ep(2, G, 4, 4), Ep(3, B, 3, 3), Part(4, 0), End)))))))
  }

  function Mode7(): Layout {
    Row(Ep(0, R, 9, 0), Ep(0, G, 9, 0), Ep(0, B, 9, 0),
    Row(Ep(1, R, 8, 0), Ep(0, R, 10, 10), Ep(1, G, 8, 0),
    Row(Ep(0, G, 10, 10), Ep(1, B, 8, 0), Ep(0, B, 10, 10), End)))
  }

  function Mode10(): Layout {
    Row(Ep(0, R, 9, 0), Ep(0, G, 9, 0), Ep(0, B, 9, 0),
    Row(Ep(1, R, 3, 0), Ep(0, R, 10, 10), Ep(2, B, 4, 4),
    Row(Ep(2, G, 3, 0), Ep(1, G, 3, 0), Ep(0, G, 10, 10),
    Row(Ep(3, B, 0, 0), Ep(3, G, 3, 0), Ep(1, B, 4, 0),
    Row(Ep(0, B, 10, 10), Ep(2, B, 3, 0), Ep(2, R, 3, 0),
    Row(Ep(3, B, 1, 1), Ep(3, B, 2, 2), Ep(3, R, 3, 0),
    Row(Ep(3, B, 4, 4), Ep(3, B, 3, 3), Part(4, 0), End)))))))
  }

  function Mode11(): Layout {
    Row(Ep(0, R, 9, 0), Ep(0, G, 9, 0), Ep(0, B, 9, 0),
    Row(Ep(1, R, 7, 0), Ep(0, R, 10, 11), Ep(1, G, 7, 0),
    Row(Ep(0, G, 10, 11), Ep(1, B, 7, 0), Ep(0, B, 10, 11), End)))
  }

  function Mode14(): Layout {
    Row(Ep(0, R, 8, 0), Ep(2, B, 4, 4), Ep(0, G, 8, 0),
    Row(Ep(2, G, 4, 4), Ep(0, B, 8, 0), Ep(3, B, 4, 4),
    Row(Ep(1, R, 4, 0), Ep(3, G, 4, 4), Ep(2, G, 3, 0),
    Row(Ep(1, G, 4, 0), Ep(3, B, 0, 0), Ep(3, G, 3, 0),
    Row(Ep(1, B, 4, 0), Ep(3, B, 1, 1), Ep(2, B, 3, 0),
    Row(Ep(2, R, 4, 0), Ep(3, B, 2, 2), Ep(3, R, 4, 0),
    Row(Ep(3, B, 3, 3), Part(4, 0), None, End)))))))
  }

  function Mode15(): Layout {
    Row(Ep(0, R, 9, 0), Ep(0, G, 9, 0), Ep(0, B, 9, 0),
    Row(Ep(1, R, 3, 0), Ep(0, R, 10, 15), Ep(1, G, 3, 0),
    Row(Ep(0, G, 10, 15), Ep(1, B, 3, 0), Ep(0, B, 10, 15), End)))
  }

  function Mode18(): Layout {
    Row(Ep(0, R, 7, 0), Ep(3, G, 4, 4), Ep(2, B, 4, 4),
    Row(Ep(0, G, 7, 0), Ep(3, B, 2, 2), Ep(2, G, 4, 4),
    Row(Ep(0, B, 7, 0), Ep(3, B, 3, 3), Ep(3, B, 4, 4),
    Row(Ep(1, R, 5, 0), Ep(2, G, 3, 0), Ep(1, G, 4, 0),
    Row(Ep(3, B, 0, 0), Ep(3, G, 3, 0), Ep(1, B, 4, 0),
    Row(Ep(3, B, 1, 1), Ep(2, B, 3, 0), Ep(2, R, 5, 0),
    Row(Ep(3, R, 5, 0), Part(4, 0), None, End)))))))
  }

  function Mode22(): Layout {
    Row(Ep(0, R, 7, 0), Ep(3, B, 0, 0), Ep(2, B, 4, 4),
    Row(Ep(0, G, 7, 0), Ep(2, G, 5, 5), Ep(2, G, 4, 4),
    Row(Ep(0, B, 7, 0), Ep(3, G, 5, 5), Ep(3, B, 4, 4),
    Row(Ep(1, R, 4, 0), Ep(3, G, 4, 4), Ep(2, G, 3, 0),
    Row(Ep(1, G, 5, 0), Ep(3, G, 3, 0), Ep(1, B, 4, 0),
    Row(Ep(3, B, 1, 1), Ep(2, B, 3, 0), Ep(2, R, 4, 0),
    Row(Ep(3, B, 2, 2), Ep(3, R, 4, 0), Ep(3, B, 3, 3),
    Row(Part(4, 0), None, None, End))))))))
  }

  function Mode26(): Layout {
    Row(Ep(0, R, 7, 0), Ep(3, B, 1, 1), Ep(2, B, 4, 4),
    Row(Ep(0, G, 7, 0), Ep(2, B, 5, 5), Ep(2, G, 4, 4),
    Row(Ep(0, B, 7, 0), Ep(3, B, 5, 5), Ep(3, B, 4, 4),
    Row(Ep(1, R, 4, 0), Ep(3, G, 4, 4), Ep(2, G, 3, 0),
    Row(Ep(1, G, 4, 0), Ep(3, B, 0, 0), Ep(3, G, 3, 0),
    Row(Ep(1, B, 5, 0), Ep(2, B, 3, 0), Ep(2, R, 4, 0),
    Row(Ep(3, B, 2, 2), Ep(3, R, 4, 0), Ep(3, B, 3, 3),
    Row(Part(4, 0), None, None, End))))))))
  }

  function Mode30(): Layout {
    Row(Ep(0, R, 5, 0), Ep(3, G, 4, 4), Ep(3, B, 0, 0),
    Row(Ep(3, B, 1, 1), Ep(2, B, 4, 4), Ep(0, G, 5, 0),
    Row(Ep(2, G, 5, 5), Ep(2, B, 5, 5), Ep(3, B, 2, 2),
    Row(Ep(2, G, 4, 4), Ep(0, B, 5, 0), Ep(3, G, 5, 5),
    Row(Ep(3, B, 3, 3), Ep(3, B, 5, 5), Ep(3, B, 4, 4),
    Row(Ep(1, R, 5, 0), Ep(2, G, 3, 0), Ep(1, G, 5, 0),
    Row(Ep(3, G, 3, 0), Ep(1, B, 5, 0), Ep(2, B, 3, 0),
    Row(Ep(2, R, 5, 0), Ep(3, R, 5, 0), Part(4, 0), End))))))))
  }

  function Desc(index: nat): ModeDesc
    requires index < 14
  {
    if index == 0 then ModeDesc(0, true, 2, 10, 5, 5, 5)
    else if index == 1 then ModeDesc(1, true, 2, 7, 6, 6, 6)
    else if index == 2 then ModeDesc(2, true, 2, 11, 5, 4, 4)
    else if index == 3 then ModeDesc(3, false, 1, 10, 0, 0, 0)
    else if index == 4 then ModeDesc(6, true, 2, 11, 4, 5, 4)
    else if index == 5 then ModeDesc(7, true, 1, 11, 9, 9, 9)
    else if index == 6 then ModeDesc(10, true, 2, 11, 4, 4, 5)
    else if index == 7 then ModeDesc(11, true, 1, 12, 8, 8, 8)
    else if index == 8 then ModeDesc(14, true, 2, 9, 5, 5, 5)
    else if index == 9 then ModeDesc(15, true, 1, 16, 4, 4, 4)
    else if index == 10 then ModeDesc(18, true, 2, 8, 6, 5, 5)
    else if index == 11 then ModeDesc(22, true, 2, 8, 5, 6, 5)
    else if index == 12 then ModeDesc(26, true, 2, 8, 5, 5, 6)
    else ModeDesc(30, false, 2, 6, 0, 0, 0)
  }

  function LayoutOf(index: nat): Layout
    requires index < 14
  {
    if index == 0 then Mode0()
    else if index == 1 then Mode1()
    else if index == 2 then Mode2()
    else if index == 3 then Mode3()
    else if index == 4 then Mode6()
    else if index == 5 then Mode7()
    else if index == 6 then Mode10()
    else if index == 7 then Mode11()
    else if index == 8 then Mode14()
    else if index == 9 then Mode15()
    else if index == 10 then Mode18()
    else if index == 11 then Mode22()
    else if index == 12 then Mode26()
    else Mode30()
  }

  /** The number of bits the mode declares for a slot. */
  function Declared(m: ModeDesc, slot: nat): nat {
    if slot == PartitionSlot then (if m.partitions == 2 then 5 else 0)
    else if slot >= 6 * m.partitions then 0
    else if slot < 3 || !m.hasDelta then m.endpointBits
    else if slot % 3 == 0 then m.deltaR else if slot % 3 == 1 then m.deltaG else m.deltaB
  }

  function LowEnd(p: Piece): nat requires p.Piece? { if p.msb < p.lsb then p.msb else p.lsb }

  function HighEnd(p: Piece): nat requires p.Piece? { if p.msb < p.lsb then p.lsb else p.msb }

  function Size(p: Piece): nat { if p.None? then 0 else Width(p.msb, p.lsb) }

  predicate Covers(p: Piece, slot: nat, b: nat) {
    p.Piece? && p.slot == slot && LowEnd(p) <= b <= HighEnd(p)
  }

  /** How often bit `b` of a slot is assigned. */
  function Count(l: Layout, slot: nat, b: nat): nat
    decreases l
  {
    match l
    case End => 0
    case Row(x, y, z, rest) =>
      (if Covers(x, slot, b) then 1 else 0) + (if Covers(y, slot, b) then 1 else 0)
      + (if Covers(z, slot, b) then 1 else 0) + Count(rest, slot, b)
  }

  function TotalSize(l: Layout): nat {
    match l
    case End => 0
    case Row(x, y, z, rest) => Size(x) + Size(y) + Size(z) + TotalSize(rest)
  }

  /** The mode number itself takes two bits in the first two modes and five in the others (lines 805-809). */
  function ModeBits(index: nat): nat { if index < 2 then 2 else 5 }

  lemma {:induction false} Mode0Tiles(slot: nat, b: nat)
    ensures Count(Mode0(), slot, b) == (if b < Declared(Desc(0), slot) then 1 else 0)
  {}

  lemma {:induction false} Mode1Tiles(slot: nat, b: nat)
    ensures Count(Mode1(), slot, b) == (if b < Declared(Desc(1), slot) then 1 else 0)
  {}

  lemma {:induction false} Mode2Tiles(slot: nat, b: nat)
    ensures Count(Mode2(), slot, b) == (if b < Declared(Desc(2), slot) then 1 else 0)
  {}

  lemma {:induction false} Mode3Tiles(slot: nat, b: nat)
    ensures Count(Mode3(), slot, b) == (if b < Declared(Desc(3), slot) then 1 else 0)
  {}

  lemma {:induction false} Mode6Tiles(slot: nat, b: nat)
    ensures Count(Mode6(), slot, b) == (if b < Declared(Desc(4), slot) then 1 else 0)
  {}

  lemma {:induction false} Mode7Tiles(slot: nat, b: nat)
    ensures Count(Mode7(), slot, b) == (if b < Declared(Desc(5), slot) then 1 else 0)
  {}

  lemma {:induction false} Mode10Tiles(slot: nat, b: nat)
    ensures Count(Mode10(), slot, b) == (if b < Declared(Desc(6), slot) then 1 else 0)
  {}

  lemma {:induction false} Mode11Tiles(slot: nat, b: nat)
    ensures Count(Mode11(), slot, b) == (if b < Declared(Desc(7), slot) then 1 else 0)
  {}

  lemma {:induction false} Mode14Tiles(slot: nat, b: nat)
    ensures Count(Mode14(), slot, b) == (if b < Declared(Desc(8), slot) then 1 else 0)
  {}

  lemma {:induction false} Mode15Tiles(slot: nat, b: nat)
    ensures Count(Mode15(), slot, b) == (if b < Declared(Desc(9), slot) then 1 else 0)
  {}

  lemma {:induction false} Mode18Tiles(slot: nat, b: nat)
    ensures Count(Mode18(), slot, b) == (if b < Declared(Desc(10), slot) then 1 else 0)
  {}

  lemma {:induction false} Mode22Tiles(slot: nat, b: nat)
    ensures Count(Mode22(), slot, b) == (if b < Declared(Desc(11), slot) then 1 else 0)
  {}

  lemma {:induction false} Mode26Tiles(slot: nat, b: nat)
    ensures Count(Mode26(), slot, b) == (if b < Declared(Desc(12), slot) then 1 else 0)
  {}

  lemma {:induction false} Mode30Tiles(slot: nat, b: nat)
    ensures Count(Mode30(), slot, b) == (if b < Declared(Desc(13), slot) then 1 else 0)
  {}

  /** Every piece is short and goes to a slot. */
  predicate Small(l: Layout) {
    match l
    case End => true
    case Row(x, y, z, rest) => SmallPiece(x) && SmallPiece(y) && SmallPiece(z) && Small(rest)
  }

  predicate SmallPiece(p: Piece) { p.Piece? ==> p.slot < 13 && Size(p) < 32 }

  lemma {:induction false} Mode0Size()
    ensures TotalSize(Mode0()) == 80 && Small(Mode0())
  {}

  lemma {:induction false} Mode1Size()
    ensures TotalSize(Mode1()) == 80 && Small(Mode1())
  {}

  lemma {:induction false} Mode2Size()
    ensures TotalSize(Mode2()) == 77 && Small(Mode2())
  {}

  lemma {:induction false} Mode3Size()
    ensures TotalSize(Mode3()) == 60 && Small(Mode3())
  {}

  lemma {:induction false} Mode6Size()
    ensures TotalSize(Mode6()) == 77 && Small(Mode6())
  {}

  lemma {:induction false} Mode7Size()
    ensures TotalSize(Mode7()) == 60 && Small(Mode7())
  {}

  lemma {:induction false} Mode10Size()
    ensures TotalSize(Mode10()) == 77 && Small(Mode10())
  {}

  lemma {:induction false} Mode11Size()
    ensures TotalSize(Mode11()) == 60 && Small(Mode11())
  {}

  lemma {:induction false} Mode14Size()
    ensures TotalSize(Mode14()) == 77 && Small(Mode14())
  {}

  lemma {:induction false} Mode15Size()
    ensures TotalSize(Mode15()) == 60 && Small(Mode15())
  {}

  lemma {:induction false} Mode18Size()
    ensures TotalSize(Mode18()) == 77 && Small(Mode18())
  {}

  lemma {:induction false} Mode22Size()
    ensures TotalSize(Mode22()) == 77 && Small(Mode22())
  {}

  lemma {:induction false} Mode26Size()
    ensures TotalSize(Mode26()) == 77 && Small(Mode26())
  {}

  lemma {:induction false} Mode30Size()
    ensures TotalSize(Mode30()) == 77 && Small(Mode30())
  {}

  /** Every declared bit of every slot is assigned exactly once, nothing else is, and headers have 82 or 65 bits. */
  lemma {:induction false} EveryBitOnce(index: nat, slot: nat, b: nat)
    requires index < 14
    ensures Count(LayoutOf(index), slot, b) == if b < Declared(Desc(index), slot) then 1 else 0
    ensures ModeBits(index) + TotalSize(LayoutOf(index)) == if Desc(index).partitions == 2 then 82 else 65
    ensures 1 <= Desc(index).partitions <= 2 && Small(LayoutOf(index))
  {
    hide Count, TotalSize, Small, Declared, LayoutOf, Desc;
    BitsOnce(index, slot, b);
    HeaderSize(index);
  }

  lemma {:induction false} BitsOnce(index: nat, slot: nat, b: nat)
    requires index < 14
    ensures Count(LayoutOf(index), slot, b) == if b < Declared(Desc(index), slot) then 1 else 0
  {
    hide Count, Declared, Desc, Mode0, Mode1, Mode2, Mode3, Mode6, Mode7, Mode10, Mode11, Mode14, Mode15, Mode18, Mode22, Mode26, Mode30;
    if index == 0 {
      Mode0Tiles(slot, b);
    } else if index == 1 {
      Mode1Tiles(slot, b);
    } else if index == 2 {
      Mode2Tiles(slot, b);
    } else if index == 3 {
      Mode3Tiles(slot, b);
    } else if index == 4 {
      Mode6Tiles(slot, b);
    } else if index == 5 {
      Mode7Tiles(slot, b);
    } else if index == 6 {
      Mode10Tiles(slot, b);
    } else if index == 7 {
      Mode11Tiles(slot, b);
    } else if index == 8 {
      Mode14Tiles(slot, b);
    } else if index == 9 {
      Mode15Tiles(slot, b);
    } else if index == 10 {
      Mode18Tiles(slot, b);
    } else if index == 11 {
      Mode22Tiles(slot, b);
    } else if index == 12 {
      Mode26Tiles(slot, b);
    } else {
      Mode30Tiles(slot, b);
    }
  }

  lemma {:induction false} HeaderSize(index: nat)
    requires index < 14
    ensures ModeBits(index) + TotalSize(LayoutOf(index)) == if Desc(index).partitions == 2 then 82 else 65
    ensures 1 <= Desc(index).partitions <= 2 && Small(LayoutOf(index))
  {
    hide TotalSize, Small, Mode0, Mode1, Mode2, Mode3, Mode6, Mode7, Mode10, Mode11, Mode14, Mode15, Mode18, Mode22, Mode26, Mode30;
    if index == 0 {
      Mode0Size();
    } else if index == 1 {
      Mode1Size();
    } else if index == 2 {
      Mode2Size();
    } else if index == 3 {
      Mode3Size();
    } else if index == 4 {
      Mode6Size();
    } else if index == 5 {
      Mode7Size();
    } else if index == 6 {
      Mode10Size();
    } else if index == 7 {
      Mode11Size();
    } else if index == 8 {
      Mode14Size();
    } else if index == 9 {
      Mode15Size();
    } else if index == 10 {
      Mode18Size();
    } else if index == 11 {
      Mode22Size();
    } else if index == 12 {
      Mode26Size();
    } else {
      Mode30Size();
    }
  }

  // ---------------------------------------------------------------- what the header loop reads

  /** What one piece contributes to bit `b` of a slot when the rest of the block is `n`. */
  predicate PieceBit(p: Piece, n: nat, slot: nat, b: nat) {
    Covers(p, slot, b) && Bit(n, if p.msb < p.lsb then HighEnd(p) - b else b - LowEnd(p))
  }

  function After(p: Piece, n: nat): nat { Shr(n, Size(p)) }

  /** Bit `b` of a slot after reading the whole layout off `n`: the pieces are ORed together. */
  predicate SlotBit(l: Layout, n: nat, slot: nat, b: nat)
    decreases l
  {
    match l
    case End => false
    case Row(x, y, z, rest) =>
      var n1 := After(x, n);
      var n2 := After(y, n1);
      PieceBit(x, n, slot, b) || PieceBit(y, n1, slot, b) || PieceBit(z, n2, slot, b) || SlotBit(rest, After(z, n2), slot, b)
  }

  /** The position in the header of bit `b` of a slot. */
  function Origin(l: Layout, slot: nat, b: nat): nat
    decreases l
  {
    match l
    case End => 0
    case Row(x, y, z, rest) =>
      if Covers(x, slot, b) then Within(x, b)
      else if Covers(y, slot, b) then Size(x) + Within(y, b)
      else if Covers(z, slot, b) then Size(x) + Size(y) + Within(z, b)
      else Size(x) + Size(y) + Size(z) + Origin(rest, slot, b)
  }

  function Within(p: Piece, b: nat): nat
    requires p.Piece? && LowEnd(p) <= b <= HighEnd(p)
  {
    if p.msb < p.lsb then HighEnd(p) - b else b - LowEnd(p)
  }

  lemma {:induction false} Uncovered(l: Layout, n: nat, slot: nat, b: nat)
    requires Count(l, slot, b) == 0
    ensures !SlotBit(l, n, slot, b)
  {
    hide Bit, Covers, After;
    if l.Row? { Uncovered(l.rest, After(l.c, After(l.b, After(l.a, n))), slot, b); }
  }

  /** A bit assigned once is the block's bit at its origin. */
  lemma {:induction false} AssignedOnce(l: Layout, n: nat, slot: nat, b: nat)
    requires Count(l, slot, b) == 1
    ensures SlotBit(l, n, slot, b) == Bit(n, Origin(l, slot, b)) && Origin(l, slot, b) < TotalSize(l)
  {
    hide Bit, Covers;
    var x, y, z := l.a, l.b, l.c;
    var n1 := After(x, n);
    var n2 := After(y, n1);
    var n3 := After(z, n2);
    ShrShr(n, Size(x), Size(y));
    ShrShr(n, Size(x) + Size(y), Size(z));
    if Covers(x, slot, b) {
      CoveredWithin(x, slot, b);
      Uncovered(l.rest, n3, slot, b);
    } else if Covers(y, slot, b) {
      CoveredWithin(y, slot, b);
      Uncovered(l.rest, n3, slot, b);
      ShrBit(n, Size(x), Within(y, b));
    } else if Covers(z, slot, b) {
      CoveredWithin(z, slot, b);
      Uncovered(l.rest, n3, slot, b);
      ShrBit(n, Size(x) + Size(y), Within(z, b));
    } else {
      AssignedOnce(l.rest, n3, slot, b);
      ShrBit(n, Size(x) + Size(y) + Size(z), Origin(l.rest, slot, b));
    }
  }

  lemma {:induction false} CoveredWithin(p: Piece, slot: nat, b: nat)
    requires Covers(p, slot, b)
    ensures p.Piece? && LowEnd(p) <= b <= HighEnd(p) && Within(p, b) < Size(p)
  {
  }

  /** Different bits come from different places. */
  lemma {:induction false} OriginsDiffer(l: Layout, slot: nat, b: nat, slot': nat, b': nat)
    requires Count(l, slot, b) == 1 && Count(l, slot', b') == 1 && (slot != slot' || b != b')
    ensures Origin(l, slot, b) != Origin(l, slot', b')
  {
    hide Bit;
    if l.Row? && Count(l.rest, slot, b) == 1 && Count(l.rest, slot', b') == 1 {
      OriginsDiffer(l.rest, slot, b, slot', b');
    }
  }
}
