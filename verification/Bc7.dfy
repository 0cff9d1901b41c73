/** Decoding a BC7 block, lines 923-1466 of externals/bc_decoder/bc_decoder.cpp. */
module Bc7 {
  import opened Bits
  import opened Blit
  import opened BptcTables
  import opened Bc6hMath

  // ---------------------------------------------------------------- bit fields

  datatype Bitfield = Bitfield(offset: nat, count: nat) {
    function Then(bits: nat): Bitfield { Bitfield(offset + count, bits) }
    function End(): nat { offset + count }
  }

  /** Lines 1218-1227: the block is two 64-bit words; a left shift drops what leaves the word. */
  function Get(low: nat, high: nat, bf: Bitfield): nat
    requires bf.End() <= 128
  {
    var mask := Pow2(bf.count) - 1;
    if bf.offset + bf.count <= 64 then And(Shr(low, bf.offset), mask)
    else if bf.offset >= 64 then And(Shr(high, bf.offset - 64), mask)
    else And(Or(Shr(low, bf.offset), Low(Shl(high, 64 - bf.offset), 64)), mask)
  }

  /** A field of the 128-bit number that lies in the lower word. */
  lemma {:induction false} FieldOfLow(low: nat, high: nat, at: nat, n: nat)
    requires low < Pow2(64) && at + n <= 64
    ensures Field(low + Shl(high, 64), at, n) == Field(low, at, n)
  {
    hide Low, Shr, Shl, Pow2;
    var all := low + Shl(high, 64);
    Split(low, high, 64);
    ShrLow(all, 64, at);
    LowLow(Shr(all, at), 64 - at, n);
  }

  /** For every block and field, `Get` is extraction from the 128-bit number, also across the word boundary. */
  lemma {:induction false} GetExtracts(low: nat, high: nat, bf: Bitfield)
    requires low < Pow2(64) && high < Pow2(64) && bf.End() <= 128 && bf.count <= 64
    ensures Get(low, high, bf) == Field(low + Shl(high, 64), bf.offset, bf.count)
  {
    hide Low, Shr, Shl, Pow2, And, Or;
    var all, at, n := low + Shl(high, 64), bf.offset, bf.count;
    Split(low, high, 64);
    if at + n <= 64 {
      AndMask(Shr(low, at), n);
      FieldOfLow(low, high, at, n);
    } else if at >= 64 {
      AndMask(Shr(high, at - 64), n);
      ShrShr(all, 64, at - 64);
    } else {
      // all >> at == (low >> at) + (high << (64 - at)), cut to a word
      ShrBound(low, 64 - at, at);
      Recombine(low, at);
      ShlShl(high, 64 - at, at);
      ShlSum(Shr(low, at), Shl(high, 64 - at), at);
      Split(Low(low, at), Shr(low, at) + Shl(high, 64 - at), at);
      LowOfShl(high, 64 - at, at);
      OrDisjoint(Shr(low, at), Low(high, at), 64 - at);
      Recombine(high, at);
      ShlSum(Low(high, at), Shl(Shr(high, at), at), 64 - at);
      ShlShl(Shr(high, at), at, 64 - at);
      var word := Shr(low, at) + Shl(Low(high, at), 64 - at);
      ShlBound(Low(high, at), at, 64 - at);
      Split(word, Shr(high, at), 64);
      AndMask(word, n);
      LowLow(Shr(all, at), 64, n);
    }
  }

  /** Cutting a left shift to its word keeps the low bits of the operand. */
  lemma {:induction false} LowOfShl(a: nat, m: nat, n: nat)
    ensures Low(Shl(a, m), m + n) == Shl(Low(a, n), m)
  {
    if m > 0 {
      LowOfShl(a, m - 1, n);
      assert Shl(a, m) / 2 == Shl(a, m - 1) && Shl(a, m) % 2 == 0;
    }
  }

  // ---------------------------------------------------------------- modes

  /** w * i, by repeated addition. */
  function Times(w: nat, i: nat): nat { if i == 0 then 0 else Times(w, i - 1) + w }

  datatype Mode = Mode(IDX: int, NS: nat, PB: nat, RB: nat, ISB: nat, CB: nat, AB: nat, EPB: nat, SPB: nat, IB: nat, IBC: nat, IB2: nat) {
    function NumColors(): nat { NS * 2 }

    function Prefix(): Bitfield { Bitfield(0, if IDX >= 0 then IDX + 1 else 0) }

    function Partition(): Bitfield { Bitfield(if IDX >= 0 then IDX + 1 else 0, PB) }

    function Rotation(): Bitfield { Partition().Then(RB) }

    function IndexSelection(): Bitfield { Rotation().Then(ISB) }

    function Red(i: nat): Bitfield { IndexSelection().Then(Times(CB, i)).Then(CB) }

    function Green(i: nat): Bitfield requires NS >= 1 { Red(NumColors() - 1).Then(Times(CB, i)).Then(CB) }

    function Blue(i: nat): Bitfield requires NS >= 1 { Green(NumColors() - 1).Then(Times(CB, i)).Then(CB) }

    function Alpha(i: nat): Bitfield requires NS >= 1 { Blue(NumColors() - 1).Then(Times(AB, i)).Then(AB) }

    function EndpointPBit(i: nat): Bitfield requires NS >= 1 { Alpha(NumColors() - 1).Then(Times(EPB, i)).Then(EPB) }

    function SharedPBit0(): Bitfield requires NS >= 1 { EndpointPBit(NumColors() - 1).Then(SPB) }

    function SharedPBit1(): Bitfield requires NS >= 1 { SharedPBit0().Then(SPB) }

    function PrimaryIndex(offset: nat, count: nat): Bitfield requires NS >= 1 { SharedPBit1().Then(offset).Then(count) }

    function SecondaryIndex(offset: nat, count: nat): Bitfield requires NS >= 1 {
      SharedPBit1().Then(IBC + offset).Then(count)
    }
  }

  /** Lines 997-1008. */
  function Modes(i: nat): Mode {
    if i == 0 then Mode(0, 3, 4, 0, 0, 4, 0, 1, 0, 3, 0x2d, 0)
    else if i == 1 then Mode(1, 2, 6, 0, 0, 6, 0, 0, 1, 3, 0x2e, 0)
    else if i == 2 then Mode(2, 3, 6, 0, 0, 5, 0, 0, 0, 2, 0x1d, 0)
    else if i == 3 then Mode(3, 2, 6, 0, 0, 7, 0, 1, 0, 2, 0x1e, 0)
    else if i == 4 then Mode(4, 1, 0, 2, 1, 5, 6, 0, 0, 2, 0x1f, 3)
    else if i == 5 then Mode(5, 1, 0, 2, 0, 7, 8, 0, 0, 2, 0x1f, 2)
    else if i == 6 then Mode(6, 1, 0, 0, 0, 7, 7, 1, 0, 4, 0x3f, 0)
    else if i == 7 then Mode(7, 2, 6, 0, 0, 5, 5, 1, 0, 2, 0x1e, 0)
    else Mode(-1, 0, 0, 0, 0, 0, 0, 0, 0, 0, 0, 0)
  }

  /** Lines 1229-1255: the position of the lowest set bit of the first byte; 8 when there is none. */
  function ModeIndex(low: nat, from: nat): nat
    decreases 8 - from
  {
    if from >= 8 then 8 else if And(low, Shl(1, from)) != 0 then from else ModeIndex(low, from + 1)
  }

  predicate BitSet(a: nat, i: nat) { Shr(a, i) % 2 == 1 }

  /** Bit `i` of the first byte is its lowest set one; 8 stands for none. */
  ghost predicate LowestSet(low: nat, i: nat) {
    i <= 8 && (i < 8 ==> BitSet(low, i)) && forall j: nat :: j < i ==> !BitSet(low, j)
  }

  lemma {:induction false} LowOne(a: nat)
    ensures Low(a, 1) == a % 2
  {
    assert Low(a / 2, 0) == 0;
  }

  lemma {:induction false} MaskedBit(a: nat, i: nat)
    ensures And(a, Shl(1, i)) != 0 <==> BitSet(a, i)
  {
    hide And, Shr;
    OneBit();
    AndField(a, i, 1);
    LowOne(Shr(a, i));
    if BitSet(a, i) { ShlIsProduct(1, i); } else { ShlZero(i); }
  }

  lemma {:induction false} SearchFinds(low: nat, from: nat)
    requires from <= 8
    ensures var i := ModeIndex(low, from);
            from <= i <= 8 && (i < 8 ==> BitSet(low, i)) && forall j: nat :: from <= j < i ==> !BitSet(low, j)
    decreases 8 - from
  {
    hide And, Shl, BitSet;
    if from < 8 {
      MaskedBit(low, from);
      SearchFinds(low, from + 1);
    }
  }

  /** The search finds the lowest set bit, and nothing else is that. */
  lemma {:induction false} ModeIndexExactly(low: nat, i: nat)
    ensures ModeIndex(low, 0) == i <==> LowestSet(low, i)
  {
    hide BitSet, ModeIndex;
    SearchFinds(low, 0);
  }

  // ---------------------------------------------------------------- the fields tile the block

  /** The fields read before the indices, in the order of the block. */
  ghost function LeadFields(m: Mode): seq<Bitfield> { [m.Prefix(), m.Partition(), m.Rotation(), m.IndexSelection()] }

  ghost function Reds(m: Mode): seq<Bitfield> { seq(m.NumColors(), i requires 0 <= i => m.Red(i)) }

  ghost function Greens(m: Mode): seq<Bitfield> requires m.NS >= 1 { seq(m.NumColors(), i requires 0 <= i => m.Green(i)) }

  ghost function Blues(m: Mode): seq<Bitfield> requires m.NS >= 1 { seq(m.NumColors(), i requires 0 <= i => m.Blue(i)) }

  ghost function Alphas(m: Mode): seq<Bitfield> requires m.NS >= 1 { seq(m.NumColors(), i requires 0 <= i => m.Alpha(i)) }

  ghost function PBits(m: Mode): seq<Bitfield> requires m.NS >= 1 { seq(m.NumColors(), i requires 0 <= i => m.EndpointPBit(i)) }

  ghost function SharedFields(m: Mode): seq<Bitfield> requires m.NS >= 1 { [m.SharedPBit0(), m.SharedPBit1()] }

  ghost function HeaderFields(m: Mode): seq<Bitfield>
    requires m.NS >= 1
  {
    LeadFields(m) + Reds(m) + Greens(m) + Blues(m) + Alphas(m) + PBits(m) + SharedFields(m)
  }

  /** The fields follow each other without gap or overlap, from bit `from` to bit `to`. */
  ghost predicate Tile(fields: seq<Bitfield>, from: nat, to: nat) {
    if fields == [] then from == to
    else fields[0].offset == from && Tile(fields[1..], fields[0].End(), to)
  }

  lemma {:induction false} TileJoin(a: seq<Bitfield>, b: seq<Bitfield>, from: nat, mid: nat, to: nat)
    requires Tile(a, from, mid) && Tile(b, mid, to)
    ensures Tile(a + b, from, to)
  {
    if a == [] {
      assert a + b == b;
    } else {
      TileJoin(a[1..], b, a[0].End(), mid, to);
      assert (a + b)[1..] == a[1..] + b;
    }
  }

  /** Fields of one width at multiples of it tile. */
  lemma {:induction false} TileRow(row: seq<Bitfield>, base: nat, width: nat)
    requires forall i :: 0 <= i < |row| ==> row[i] == Bitfield(base + Times(width, i), width)
    ensures Tile(row, base, base + Times(width, |row|))
  {
    if row == [] {
    } else {
      var last := |row| - 1;
      TileRow(row[..last], base, width);
      assert [row[last]][1..] == [];
      TileJoin(row[..last], [row[last]], base, base + Times(width, last), base + Times(width, |row|));
      assert row == row[..last] + [row[last]];
    }
  }

  lemma {:induction false} LeadTiles(m: Mode)
    ensures Tile(LeadFields(m), 0, m.IndexSelection().End())
  {
    hide Tile, Mode.Prefix, Mode.Partition, Mode.Rotation, Mode.IndexSelection, Bitfield.End;
    PrefixMeets(m);
    PartitionMeets(m);
    RotationMeets(m);
    TileFour(m.Prefix(), m.Partition(), m.Rotation(), m.IndexSelection());
  }

  lemma {:induction false} PrefixMeets(m: Mode)
    ensures m.Prefix().offset == 0 && m.Prefix().End() == m.Partition().offset
  {}

  lemma {:induction false} PartitionMeets(m: Mode) ensures m.Partition().End() == m.Rotation().offset {}

  lemma {:induction false} RotationMeets(m: Mode) ensures m.Rotation().End() == m.IndexSelection().offset {}

  lemma {:induction false} TileFour(a: Bitfield, b: Bitfield, c: Bitfield, d: Bitfield)
    requires a.End() == b.offset && b.End() == c.offset && c.End() == d.offset
    ensures Tile([a, b, c, d], a.offset, d.End())
  {
    assert [d][1..] == [] && [c, d][1..] == [d] && [b, c, d][1..] == [c, d] && [a, b, c, d][1..] == [b, c, d];
    assert Tile([d], d.offset, d.End());
    assert Tile([c, d], c.offset, d.End());
    assert Tile([b, c, d], b.offset, d.End());
  }

  lemma {:induction false} SharedTiles(m: Mode)
    requires m.NS >= 1
    ensures Tile(SharedFields(m), m.EndpointPBit(m.NumColors() - 1).End(), m.SharedPBit1().End())
  {
    hide Mode.EndpointPBit, Tile;
    TileTwo(m.SharedPBit0(), m.SharedPBit1());
  }

  lemma {:induction false} TileTwo(a: Bitfield, b: Bitfield)
    requires a.End() == b.offset
    ensures Tile([a, b], a.offset, b.End())
  {
    assert [b][1..] == [] && [a, b][1..] == [b];
    assert Tile([b], b.offset, b.End());
  }

  /** Fields of one width, the first of which follows another field, tile from there to the end of the last. */
  lemma {:induction false} FieldsRun(row: seq<Bitfield>, before: Bitfield, width: nat, last: Bitfield)
    requires row != [] && last == row[|row| - 1]
    requires forall i :: 0 <= i < |row| ==> row[i] == before.Then(Times(width, i)).Then(width)
    ensures Tile(row, before.End(), last.End())
  {
    hide Tile;
    TileRow(row, before.End(), width);
    assert row[|row| - 1] == before.Then(Times(width, |row| - 1)).Then(width);
  }

  /** Each run of colour, alpha or P-bit fields starts where the one before it ends. */
  lemma {:induction false} RedsTile(m: Mode)
    requires m.NS >= 1
    ensures Tile(Reds(m), m.IndexSelection().End(), m.Red(m.NumColors() - 1).End())
  {
    hide Tile, Times, Bitfield.Then, Bitfield.End, Mode.Prefix, Mode.Partition, Mode.Rotation, Mode.IndexSelection, Mode.Green, Mode.Blue, Mode.Alpha, Mode.EndpointPBit, Mode.SharedPBit0, Mode.SharedPBit1;
    FieldsRun(Reds(m), m.IndexSelection(), m.CB, m.Red(m.NumColors() - 1));
  }

  lemma {:induction false} GreensTile(m: Mode)
    requires m.NS >= 1
    ensures Tile(Greens(m), m.Red(m.NumColors() - 1).End(), m.Green(m.NumColors() - 1).End())
  {
    hide Tile, Times, Bitfield.Then, Bitfield.End, Mode.Prefix, Mode.Partition, Mode.Rotation, Mode.IndexSelection, Mode.Red, Mode.Blue, Mode.Alpha, Mode.EndpointPBit, Mode.SharedPBit0, Mode.SharedPBit1;
    FieldsRun(Greens(m), m.Red(m.NumColors() - 1), m.CB, m.Green(m.NumColors() - 1));
  }

  lemma {:induction false} BluesTile(m: Mode)
    requires m.NS >= 1
    ensures Tile(Blues(m), m.Green(m.NumColors() - 1).End(), m.Blue(m.NumColors() - 1).End())
  {
    hide Tile, Times, Bitfield.Then, Bitfield.End, Mode.Prefix, Mode.Partition, Mode.Rotation, Mode.IndexSelection, Mode.Red, Mode.Green, Mode.Alpha, Mode.EndpointPBit, Mode.SharedPBit0, Mode.SharedPBit1;
    FieldsRun(Blues(m), m.Green(m.NumColors() - 1), m.CB, m.Blue(m.NumColors() - 1));
  }

  lemma {:induction false} AlphasTile(m: Mode)
    requires m.NS >= 1
    ensures Tile(Alphas(m), m.Blue(m.NumColors() - 1).End(), m.Alpha(m.NumColors() - 1).End())
  {
    hide Tile, Times, Bitfield.Then, Bitfield.End, Mode.Prefix, Mode.Partition, Mode.Rotation, Mode.IndexSelection, Mode.Red, Mode.Green, Mode.Blue, Mode.EndpointPBit, Mode.SharedPBit0, Mode.SharedPBit1;
    FieldsRun(Alphas(m), m.Blue(m.NumColors() - 1), m.AB, m.Alpha(m.NumColors() - 1));
  }

  lemma {:induction false} PBitsTile(m: Mode)
    requires m.NS >= 1
    ensures Tile(PBits(m), m.Alpha(m.NumColors() - 1).End(), m.EndpointPBit(m.NumColors() - 1).End())
  {
    hide Tile, Times, Bitfield.Then, Bitfield.End, Mode.Prefix, Mode.Partition, Mode.Rotation, Mode.IndexSelection, Mode.Red, Mode.Green, Mode.Blue, Mode.Alpha, Mode.SharedPBit0, Mode.SharedPBit1;
    FieldsRun(PBits(m), m.Alpha(m.NumColors() - 1), m.EPB, m.EndpointPBit(m.NumColors() - 1));
  }

  /** For every mode: prefix, partition, rotation, selection, colours, alphas and P-bits leave no gap. */
  lemma {:induction false} HeaderTiles(m: Mode)
    requires m.NS >= 1
    ensures Tile(HeaderFields(m), 0, m.SharedPBit1().End())
  {
    hide Tile, LeadFields, Reds, Greens, Blues, Alphas, PBits, SharedFields, Mode.IndexSelection, Mode.Red, Mode.Green, Mode.Blue,
         Mode.Alpha, Mode.EndpointPBit, Mode.SharedPBit1, Bitfield.End;
    var k := m.NumColors() - 1;
    var (b0, b1, b2, b3) := (m.IndexSelection().End(), m.Red(k).End(), m.Green(k).End(), m.Blue(k).End());
    var (b4, b5) := (m.Alpha(k).End(), m.EndpointPBit(k).End());
    LeadTiles(m);
    RedsTile(m);
    GreensTile(m);
    BluesTile(m);
    AlphasTile(m);
    PBitsTile(m);
    SharedTiles(m);
    var h := LeadFields(m);
    TileJoin(h, Reds(m), 0, b0, b1);
    h := h + Reds(m);
    TileJoin(h, Greens(m), 0, b1, b2);
    h := h + Greens(m);
    TileJoin(h, Blues(m), 0, b2, b3);
    h := h + Blues(m);
    TileJoin(h, Alphas(m), 0, b3, b4);
    h := h + Alphas(m);
    TileJoin(h, PBits(m), 0, b4, b5);
    h := h + PBits(m);
    TileJoin(h, SharedFields(m), 0, b5, m.SharedPBit1().End());
  }

  // ---------------------------------------------------------------- indices

  /** Lines 1397-1406 read the subset from this shape; one-subset modes have no table. */
  function ShapeFor(m: Mode, partition: nat): Shape
    requires partition < 64
  {
    if m.NS == 2 then Partition2(partition) else if m.NS == 3 then Partition3(partition)
    else Shape(Q(0, 0, 0, 0), Q(0, 0, 0, 0), Q(0, 0, 0, 0), Q(0, 0, 0, 0), 0, 0)
  }

  function SubsetIndex(m: Mode, partition: nat, t: nat): nat
    requires partition < 64
  {
    if m.NS == 2 || m.NS == 3 then Subset(ShapeFor(m, partition), t) else 0
  }

  /** Lines 1408-1423. */
  function AnchorIndex(m: Mode, partition: nat, subset: nat): nat
    requires partition < 64
  {
    if subset == 1 then ShapeFor(m, partition).anchor1 else if subset == 2 then ShapeFor(m, partition).anchor2 else 0
  }

  predicate IsAnchor(m: Mode, partition: nat, t: nat)
    requires partition < 64
  {
    AnchorIndex(m, partition, SubsetIndex(m, partition, t)) == t
  }

  /** The anchors are one texel per subset, because each anchor lies in its own subset. */
  lemma {:induction false} AnchorsAre(m: Mode, partition: nat, t: nat)
    requires partition < 64 && 1 <= m.NS <= 3 && t < 16
    ensures var s := ShapeFor(m, partition);
            && IsAnchor(m, partition, t) == (t == 0 || (m.NS >= 2 && t == s.anchor1) || (m.NS == 3 && t == s.anchor2))
            && (m.NS >= 2 ==> 0 < s.anchor1 < 16) && (m.NS == 3 ==> 0 < s.anchor2 < 16 && s.anchor1 != s.anchor2)
            && SubsetIndex(m, partition, t) < m.NS
  {
    hide Partition2, Partition3;
    Partition2Ok(partition);
    Partition3Ok(partition);
    hide Subset;
    if m.NS == 2 { SubsetBelow(Partition2(partition), 2, t); }
    if m.NS == 3 { SubsetBelow(Partition3(partition), 3, t); }
  }

  /** Lines 1434-1439: bits read for texel `t` of an index of `bits` bits. */
  function ReadBits(m: Mode, partition: nat, bits: nat, t: nat): nat
    requires partition < 64
  {
    if IsAnchor(m, partition, t) && bits > 0 then bits - 1 else bits
  }

  /** The running bit offset before texel `t`. */
  function IndexOffset(m: Mode, partition: nat, bits: nat, t: nat): nat
    requires partition < 64
  {
    if t == 0 then 0 else IndexOffset(m, partition, bits, t - 1) + ReadBits(m, partition, bits, t - 1)
  }

  lemma {:induction false} IndexOffsetIs(m: Mode, partition: nat, bits: nat, t: nat)
    requires partition < 64 && 1 <= m.NS <= 3 && t <= 16 && bits > 0
    ensures var s := ShapeFor(m, partition);
            IndexOffset(m, partition, bits, t) + (if t > 0 then 1 else 0) + (if m.NS >= 2 && t > s.anchor1 then 1 else 0)
            + (if m.NS == 3 && t > s.anchor2 then 1 else 0) == bits * t
  {
    hide ShapeFor, IsAnchor;
    if t > 0 {
      AnchorsAre(m, partition, t - 1);
      IndexOffsetIs(m, partition, bits, t - 1);
      assert bits * t == bits * (t - 1) + bits;
    }
    AnchorsAre(m, partition, 0);
  }

  ghost function PrimaryReads(m: Mode, partition: nat): seq<Bitfield>
    requires m.NS >= 1 && partition < 64
  {
    seq(16, t requires 0 <= t => m.PrimaryIndex(IndexOffset(m, partition, m.IB, t), ReadBits(m, partition, m.IB, t)))
  }

  ghost function SecondaryReads(m: Mode, partition: nat): seq<Bitfield>
    requires m.NS >= 1 && partition < 64
  {
    seq(16, t requires 0 <= t => m.SecondaryIndex(IndexOffset(m, partition, m.IB2, t), ReadBits(m, partition, m.IB2, t)))
  }

  /** Fields at running offsets tile. */
  lemma {:induction false} TileReads(list: seq<Bitfield>, m: Mode, partition: nat, bits: nat, base: nat, from: nat)
    requires partition < 64
    requires forall k :: 0 <= k < |list| ==>
               list[k] == Bitfield(base + IndexOffset(m, partition, bits, from + k), ReadBits(m, partition, bits, from + k))
    ensures Tile(list, base + IndexOffset(m, partition, bits, from), base + IndexOffset(m, partition, bits, from + |list|))
  {
    hide IsAnchor, ShapeFor;
    if list != [] {
      var rest := list[1..];
      forall k | 0 <= k < |rest|
        ensures rest[k] == Bitfield(base + IndexOffset(m, partition, bits, from + 1 + k), ReadBits(m, partition, bits, from + 1 + k))
      {
        assert rest[k] == list[k + 1] && from + (k + 1) == from + 1 + k;
      }
      TileReads(rest, m, partition, bits, base, from + 1);
      assert list[0] == Bitfield(base + IndexOffset(m, partition, bits, from + 0), ReadBits(m, partition, bits, from + 0));
    }
  }

  /** Everything the decoder reads: header fields, then the primary and, where there are any, the secondary indices. */
  ghost function AllReads(m: Mode, partition: nat): seq<Bitfield>
    requires m.NS >= 1 && partition < 64
  {
    HeaderFields(m) + PrimaryReads(m, partition) + (if m.IB2 > 0 then SecondaryReads(m, partition) else [])
  }

  lemma {:induction false} HeaderEnd(m: Mode)
    requires m.NS >= 1 && m.IDX >= 0
    ensures var n := m.NumColors();
            m.SharedPBit1().End() == m.IDX + 1 + m.PB + m.RB + m.ISB + 3 * Times(m.CB, n) + Times(m.AB, n) + Times(m.EPB, n) + 2 * m.SPB
  {
    var n := m.NumColors();
    assert Times(m.CB, n) == Times(m.CB, n - 1) + m.CB && Times(m.AB, n) == Times(m.AB, n - 1) + m.AB
           && Times(m.EPB, n) == Times(m.EPB, n - 1) + m.EPB;
    hide Times;
  }

  /** Every run length in use. */
  lemma {:induction false} TimesTable(w: nat)
    ensures Times(w, 2) == 2 * w && Times(w, 4) == 4 * w && Times(w, 6) == 6 * w
  {
    assert Times(w, 1) == w;
    assert Times(w, 3) == 3 * w;
    assert Times(w, 5) == 5 * w;
  }

  lemma {:induction false} ModeSums(i: nat)
    requires i < 8
    ensures var m := Modes(i);
            && 1 <= m.NS <= 3 && m.IB > 0 && m.IBC + m.NS == 16 * m.IB && (m.IB2 > 0 ==> m.NS == 1)
            && m.SharedPBit1().End() + m.IBC + (if m.IB2 > 0 then 16 * m.IB2 - 1 else 0) == 128
  {
    hide Mode.SharedPBit1, Times;
    var m := Modes(i);
    HeaderEnd(m);
    TimesTable(m.CB);
    TimesTable(m.AB);
    TimesTable(m.EPB);
  }

  /** For every valid mode and every partition the reads tile the 128 bits exactly. */
  lemma {:induction false} BlockTiles(i: nat, partition: nat)
    requires i < 8 && partition < 64
    ensures Modes(i).NS >= 1 && Tile(AllReads(Modes(i), partition), 0, 128)
  {
    hide Modes, Tile, HeaderFields, IndexOffset, ReadBits, ShapeFor, Mode.SharedPBit1;
    var m := Modes(i);
    ModeSums(i);
    HeaderTiles(m);
    var base := m.SharedPBit1().End();
    FirstOffset(m, partition, m.IB);
    FirstOffset(m, partition, m.IB2);
    AnchorsAre(m, partition, 0);
    IndexOffsetIs(m, partition, m.IB, 16);
    TileReads(PrimaryReads(m, partition), m, partition, m.IB, base, 0);
    TileJoin(HeaderFields(m), PrimaryReads(m, partition), 0, base, base + m.IBC);
    if m.IB2 > 0 {
      IndexOffsetIs(m, partition, m.IB2, 16);
      TileReads(SecondaryReads(m, partition), m, partition, m.IB2, base + m.IBC, 0);
      TileJoin(HeaderFields(m) + PrimaryReads(m, partition), SecondaryReads(m, partition), 0, base + m.IBC, 128);
    } else {
      assert AllReads(m, partition) == HeaderFields(m) + PrimaryReads(m, partition);
    }
  }

  lemma {:induction false} FirstOffset(m: Mode, partition: nat, bits: nat)
    requires partition < 64
    ensures IndexOffset(m, partition, bits, 0) == 0
  {}

  // ---------------------------------------------------------------- endpoints and colours

  /** A field of the 128-bit number. */
  function Read(n: nat, bf: Bitfield): nat { Field(n, bf.offset, bf.count) }

  /** `(v << 1) | p`, as a byte. */
  function WithPBit(v: nat, p: nat): nat { Low(Or(Shl(v, 1), p), 8) }

  /** Lines 1334-1343: move `bits` bits to the top of a byte and repeat them below. */
  function Replicate(v: nat, bits: nat): nat
    requires bits <= 8
  {
    var top := Low(Shl(v, 8 - bits), 8);
    Or(top, Shr(top, bits))
  }

  /** The P-bit that joins endpoint `k`, if the mode has any (lines 1306-1327). */
  function PBit(m: Mode, n: nat, k: nat): nat
    requires m.NS >= 1
  {
    if m.SPB > 0 then Read(n, if k < 2 then m.SharedPBit0() else m.SharedPBit1()) else Read(n, m.EndpointPBit(k))
  }

  function ColourBits(m: Mode): nat { m.CB + m.SPB + m.EPB }

  function AlphaBits(m: Mode): nat { m.AB + m.SPB + m.EPB }

  /** Channel `c` (0 red, 1 green, 2 blue) of endpoint `k`, as eight bits. */
  function ColourEnd(m: Mode, n: nat, c: nat, k: nat): nat
    requires m.NS >= 1 && ColourBits(m) <= 8
  {
    var raw := Read(n, if c == 0 then m.Red(k) else if c == 1 then m.Green(k) else m.Blue(k));
    Replicate(if m.SPB > 0 || m.EPB > 0 then WithPBit(raw, PBit(m, n, k)) else raw, ColourBits(m))
  }

  /** Alpha of endpoint `k`; opaque in modes without alpha.  A shared P-bit does not join alpha. */
  function AlphaEnd(m: Mode, n: nat, k: nat): nat
    requires m.NS >= 1 && AlphaBits(m) <= 8
  {
    if m.AB == 0 then 255
    else
      var raw := Read(n, m.Alpha(k));
      Replicate(if m.EPB > 0 then WithPBit(raw, PBit(m, n, k)) else raw, AlphaBits(m))
  }

  /** Lines 1263-1270; the blend itself is the one of BC6H. */
  function Interpolate(e0: nat, e1: nat, bits: nat, index: nat): nat {
    var w := Weight(bits, index);
    Blend(e0, e1, w) % 256
  }

  /** An interpolated channel lies between its endpoints. */
  lemma {:induction false} InterpolateBetween(e0: nat, e1: nat, bits: nat, index: nat)
    requires e0 < 256 && e1 < 256
    ensures var v := Interpolate(e0, e1, bits, index); (e0 <= v <= e1) || (e1 <= v <= e0)
  {
    WeightAtMost64(bits, index);
    hide Weight, Blend;
    BlendBetween(e0, e1, Weight(bits, index));
  }

  /** Lines 1431-1434 and 1449-1452: which of the two index lists serves colour, and which alpha. */
  predicate ColourSecondary(m: Mode, n: nat) { Read(n, m.IndexSelection()) == 1 }

  predicate AlphaSecondary(m: Mode, n: nat) { m.IB2 != 0 && Read(n, m.IndexSelection()) == 0 }

  function IndexWidth(m: Mode, secondary: bool): nat { if secondary then m.IB2 else m.IB }

  function IndexField(m: Mode, partition: nat, secondary: bool, t: nat): Bitfield
    requires m.NS >= 1 && partition < 64
  {
    var bits := IndexWidth(m, secondary);
    FieldAt(m, secondary, IndexOffset(m, partition, bits, t), ReadBits(m, partition, bits, t))
  }

  function FieldAt(m: Mode, secondary: bool, offset: nat, count: nat): Bitfield
    requires m.NS >= 1
  {
    if secondary then m.SecondaryIndex(offset, count) else m.PrimaryIndex(offset, count)
  }

  /** Lines 1370-1389: red, green, blue and alpha as they lie in memory, after the channel rotation. */
  function Rotated(r: nat, g: nat, b: nat, a: nat, rotation: nat): seq<nat> {
    if rotation == 1 then [a, g, b, r] else if rotation == 2 then [r, a, b, g]
    else if rotation == 3 then [r, g, a, b] else [r, g, b, a]
  }

  function TexelFrom(m: Mode, n: nat, partition: nat, t: nat, colour: nat, alpha: nat): seq<nat>
    requires m.NS >= 1 && partition < 64 && ColourBits(m) <= 8 && AlphaBits(m) <= 8
  {
    var k := 2 * SubsetIndex(m, partition, t);
    var (cb, ab) := (IndexWidth(m, ColourSecondary(m, n)), IndexWidth(m, AlphaSecondary(m, n)));
    Rotated(Interpolate(ColourEnd(m, n, 0, k), ColourEnd(m, n, 0, k + 1), cb, colour),
            Interpolate(ColourEnd(m, n, 1, k), ColourEnd(m, n, 1, k + 1), cb, colour),
            Interpolate(ColourEnd(m, n, 2, k), ColourEnd(m, n, 2, k + 1), cb, colour),
            Interpolate(AlphaEnd(m, n, k), AlphaEnd(m, n, k + 1), ab, alpha), Read(n, m.Rotation()))
  }

  /** What texel `t` of block `n` decodes to; transparent black where no mode bit is set. */
  function Texel(n: nat, t: nat): seq<nat> {
    var i := ModeIndex(n, 0);
    if i >= 8 then [0, 0, 0, 0]
    else
      ModeSums(i);
      ModeWidths(i);
      var m := Modes(i);
      var partition := Read(n, m.Partition()) % 64;
      TexelFrom(m, n, partition, t, Read(n, IndexField(m, partition, ColourSecondary(m, n), t)),
                Read(n, IndexField(m, partition, AlphaSecondary(m, n), t)))
  }

  lemma {:induction false} ModeWidths(i: nat)
    requires i < 8
    ensures ColourBits(Modes(i)) <= 8 && AlphaBits(Modes(i)) <= 8 && Modes(i).PB <= 6
  {}

  function Put(n: nat): (nat, seq<nat>) -> seq<nat> {
    (t: nat, px: seq<nat>) => Texel(n, t)
  }

  // ---------------------------------------------------------------- the decoder

  /** Lines 1229-1255 on the lower word: the first of its eight low bits that is set. */
  method FindMode(low: nat) returns (i: nat)
    ensures i == ModeIndex(low, 0) && i <= 8
    ensures LowestSet(low, i)
  {
    hide And, Shl, LowestSet;
    ModeIndexExactly(low, ModeIndex(low, 0));
    i := 0;
    while i < 8 && And(low, Shl(1, i)) == 0
      invariant i <= 8 && ModeIndex(low, i) == ModeIndex(low, 0)
    {
      i := i + 1;
    }
  }

  /** The mode bits lie in the lower word. */
  lemma {:induction false} ModeOfLow(low: nat, high: nat, from: nat)
    requires low < Pow2(64) && from <= 8
    ensures ModeIndex(low + Shl(high, 64), from) == ModeIndex(low, from)
    decreases 8 - from
  {
    hide And, Shl, Pow2, Field;
    if from < 8 {
      OneBit();
      AndField(low, from, 1);
      AndField(low + Shl(high, 64), from, 1);
      FieldOfLow(low, high, from, 1);
      ModeOfLow(low, high, from + 1);
    }
  }

  lemma {:induction false} OneBit() ensures Pow2(1) - 1 == 1 {}

  /** Every field the decoder asks for lies inside the block. */
  lemma {:induction false} FieldsInside(i: nat, k: nat)
    requires i < 8 && k < Modes(i).NumColors()
    ensures var m := Modes(i);
            && m.NS >= 1 && m.Partition().End() <= 128 && m.Rotation().End() <= 128 && m.IndexSelection().End() <= 128
            && m.Red(k).End() <= 128 && m.Green(k).End() <= 128 && m.Blue(k).End() <= 128 && m.Alpha(k).End() <= 128
            && m.EndpointPBit(k).End() <= 128 && m.SharedPBit0().End() <= 128 && m.SharedPBit1().End() <= 128
            && m.CB <= 8 && m.AB <= 8 && m.PB <= 6 && m.RB <= 2 && m.ISB <= 1 && m.EPB <= 1 && m.SPB <= 1
  {
    hide Modes, Mode.Partition, Mode.Rotation, Mode.IndexSelection, Mode.Red, Mode.Green, Mode.Blue, Mode.Alpha,
         Mode.EndpointPBit, Mode.SharedPBit0, Mode.SharedPBit1, Bitfield.End;
    ModeSums(i);
    SmallParts(i);
    EndsGrow(Modes(i));
    KthInside(Modes(i), k);
  }

  /** The last field of each kind ends no later than the last of the next. */
  lemma {:induction false} EndsGrow(m: Mode)
    requires m.NS >= 1
    ensures var k := m.NumColors() - 1;
            && m.Partition().End() <= m.Rotation().End() <= m.IndexSelection().End() <= m.Red(k).End() <= m.Green(k).End()
            && m.Green(k).End() <= m.Blue(k).End() <= m.Alpha(k).End() <= m.EndpointPBit(k).End()
            && m.EndpointPBit(k).End() <= m.SharedPBit0().End() <= m.SharedPBit1().End()
  {
    var k := m.NumColors() - 1;
    assert m.IndexSelection().End() <= m.Red(k).End();
    assert m.Red(k).End() <= m.Green(k).End();
    assert m.Green(k).End() <= m.Blue(k).End();
    assert m.Blue(k).End() <= m.Alpha(k).End();
    assert m.Alpha(k).End() <= m.EndpointPBit(k).End();
  }

  lemma {:induction false} KthInside(m: Mode, k: nat)
    requires m.NS >= 1 && k < m.NumColors()
    ensures var l := m.NumColors() - 1;
            && m.Red(k).End() <= m.Red(l).End() && m.Green(k).End() <= m.Green(l).End() && m.Blue(k).End() <= m.Blue(l).End()
            && m.Alpha(k).End() <= m.Alpha(l).End() && m.EndpointPBit(k).End() <= m.EndpointPBit(l).End()
  {
    AtMost(m.CB, k, m.NumColors());
    AtMost(m.AB, k, m.NumColors());
    AtMost(m.EPB, k, m.NumColors());
    hide Times;
  }

  lemma {:induction false} AtMost(w: nat, k: nat, n: nat)
    requires k < n
    ensures Times(w, k) + w <= Times(w, n - 1) + w
  {
    if k < n - 1 { AtMost(w, k, n - 1); }
  }

  lemma {:induction false} SmallParts(i: nat)
    requires i < 8
    ensures var m := Modes(i); m.CB <= 8 && m.AB <= 8 && m.PB <= 6 && m.RB <= 2 && m.ISB <= 1 && m.EPB <= 1 && m.SPB <= 1
    ensures !(Modes(i).SPB > 0 && Modes(i).EPB > 0) && (Modes(i).SPB > 0 ==> Modes(i).AB == 0 && Modes(i).NS == 2)
  {}

  datatype Color = Color(r: nat, g: nat, b: nat, a: nat)

  /** Endpoint `k` before any P-bit. */
  function RawEnd(m: Mode, n: nat, k: nat): Color
    requires m.NS >= 1
  {
    Color(Read(n, m.Red(k)), Read(n, m.Green(k)), Read(n, m.Blue(k)), if m.AB > 0 then Read(n, m.Alpha(k)) else 255)
  }

  /** With its P-bit (lines 1306-1327). */
  function PEnd(m: Mode, n: nat, k: nat): Color
    requires m.NS >= 1
  {
    var c := RawEnd(m, n, k);
    if m.SPB > 0 || m.EPB > 0 then
      var p := PBit(m, n, k);
      Color(WithPBit(c.r, p), WithPBit(c.g, p), WithPBit(c.b, p), if m.EPB > 0 && m.AB > 0 then WithPBit(c.a, p) else c.a)
    else c
  }

  /** Expanded to eight bits (lines 1332-1345). */
  function FullEnd(m: Mode, n: nat, k: nat): Color
    requires m.NS >= 1 && ColourBits(m) <= 8 && AlphaBits(m) <= 8
  {
    var c := PEnd(m, n, k);
    Color(Replicate(c.r, ColourBits(m)), Replicate(c.g, ColourBits(m)), Replicate(c.b, ColourBits(m)),
          if m.AB > 0 then Replicate(c.a, AlphaBits(m)) else c.a)
  }

  lemma {:induction false} FullEndIs(m: Mode, n: nat, k: nat)
    requires m.NS >= 1 && ColourBits(m) <= 8 && AlphaBits(m) <= 8
    ensures FullEnd(m, n, k) == Color(ColourEnd(m, n, 0, k), ColourEnd(m, n, 1, k), ColourEnd(m, n, 2, k), AlphaEnd(m, n, k))
  {
    hide Replicate, WithPBit, Read, PBit;
  }

  /** One field, through the two words. */
  method Fetch(low: nat, high: nat, bf: Bitfield) returns (v: nat)
    requires low < Pow2(64) && high < Pow2(64) && bf.End() <= 128 && bf.count <= 64
    ensures v == Read(low + Shl(high, 64), bf)
  {
    hide Get, Field, Pow2, Shl;
    GetExtracts(low, high, bf);
    v := Get(low, high, bf);
  }

  /** Lines 1293-1345. */
  method ReadEnds(low: nat, high: nat, i: nat) returns (ends: seq<Color>)
    requires low < Pow2(64) && high < Pow2(64) && i < 8 && Modes(i).NS >= 1
    requires ColourBits(Modes(i)) <= 8 && AlphaBits(Modes(i)) <= 8
    ensures |ends| == Modes(i).NumColors()
    ensures forall k :: 0 <= k < |ends| ==> ends[k] == FullEnd(Modes(i), low + Shl(high, 64), k)
  {
    hide Modes, Read, Pow2, Shl, WithPBit, Replicate, Mode.Partition, Mode.Rotation, Mode.IndexSelection, Mode.Red, Mode.Green,
         Mode.Blue, Mode.Alpha, Mode.EndpointPBit, Mode.SharedPBit0, Mode.SharedPBit1, Bitfield.End;
    var m := Modes(i);
    ghost var n := low + Shl(high, 64);
    FieldCounts(m);
    SmallParts(i);
    var count := m.NumColors();
    ends := [];
    for k := 0 to count
      invariant |ends| == k && forall j :: 0 <= j < k ==> ends[j] == RawEnd(m, n, j)
    {
      FieldsInside(i, k);
      var r := Fetch(low, high, m.Red(k));
      var g := Fetch(low, high, m.Green(k));
      var b := Fetch(low, high, m.Blue(k));
      var a := 255;
      if m.AB > 0 {
        a := Fetch(low, high, m.Alpha(k));
      }
      ends := ends + [Color(r, g, b, a)];
    }
    if m.SPB > 0 || m.EPB > 0 {
      for k := 0 to count
        invariant |ends| == count && forall j :: 0 <= j < count ==> ends[j] == if j < k then PEnd(m, n, j) else RawEnd(m, n, j)
      {
        FieldsInside(i, k);
        var p: nat;
        if m.SPB > 0 {
          p := Fetch(low, high, if k < 2 then m.SharedPBit0() else m.SharedPBit1());
        } else {
          p := Fetch(low, high, m.EndpointPBit(k));
        }
        var c := ends[k];
        ends := ends[k := Color(WithPBit(c.r, p), WithPBit(c.g, p), WithPBit(c.b, p),
                                if m.EPB > 0 && m.AB > 0 then WithPBit(c.a, p) else c.a)];
      }
    }
    for k := 0 to count
      invariant |ends| == count && forall j :: 0 <= j < count ==> ends[j] == if j < k then FullEnd(m, n, j) else PEnd(m, n, j)
    {
      var c := ends[k];
      ends := ends[k := Color(Replicate(c.r, ColourBits(m)), Replicate(c.g, ColourBits(m)), Replicate(c.b, ColourBits(m)),
                              if m.AB > 0 then Replicate(c.a, AlphaBits(m)) else c.a)];
    }
  }

  lemma {:induction false} FieldCounts(m: Mode)
    requires m.NS >= 1
    ensures forall k: nat :: m.Red(k).count == m.CB && m.Green(k).count == m.CB && m.Blue(k).count == m.CB
              && m.Alpha(k).count == m.AB && m.EndpointPBit(k).count == m.EPB
    ensures m.SharedPBit0().count == m.SPB && m.SharedPBit1().count == m.SPB && m.Partition().count == m.PB
    ensures m.Rotation().count == m.RB && m.IndexSelection().count == m.ISB
  {}

  lemma {:induction false} OffsetsGrow(m: Mode, partition: nat, bits: nat, t: nat, u: nat)
    requires partition < 64 && t <= u
    ensures IndexOffset(m, partition, bits, t) <= IndexOffset(m, partition, bits, u)
  {
    hide ReadBits;
    if t < u { OffsetsGrow(m, partition, bits, t, u - 1); }
  }

  /** Every index the decoder asks for lies inside the block. */
  lemma {:induction false} IndexInside(i: nat, partition: nat, secondary: bool, t: nat)
    requires i < 8 && partition < 64 && t < 16 && Modes(i).NS >= 1 && (secondary ==> Modes(i).IB2 > 0)
    ensures var f := IndexField(Modes(i), partition, secondary, t); f.End() <= 128 && f.count <= 4
  {
    hide Modes, Mode.SharedPBit1, IndexOffset, ReadBits, ShapeFor;
    var m := Modes(i);
    var bits := IndexWidth(m, secondary);
    ModeSums(i);
    OffsetStep(m, partition, bits, t);
    OffsetsGrow(m, partition, bits, t + 1, 16);
    AnchorsAre(m, partition, 0);
    IndexOffsetIs(m, partition, bits, 16);
    WidthsSmall(i);
  }

  lemma {:induction false} OffsetStep(m: Mode, partition: nat, bits: nat, t: nat)
    requires partition < 64
    ensures IndexOffset(m, partition, bits, t + 1) == IndexOffset(m, partition, bits, t) + ReadBits(m, partition, bits, t)
    ensures ReadBits(m, partition, bits, t) <= bits
  {}

  lemma {:induction false} WidthsSmall(i: nat)
    requires i < 8
    ensures Modes(i).IB <= 4 && Modes(i).IB2 <= 4 && (Modes(i).ISB > 0 ==> Modes(i).IB2 > 0)
  {}

  /** A selection bit exists only where there is a second list to select. */
  lemma {:induction false} SecondaryExists(i: nat, n: nat)
    requires i < 8
    ensures ColourSecondary(Modes(i), n) ==> Modes(i).IB2 > 0
    ensures Read(n, Modes(i).Partition()) < 64
  {
    hide Modes, Shr, Mode.Rotation;
    var m := Modes(i);
    WidthsSmall(i);
    SmallParts(i);
    Recombine(Shr(n, m.Partition().offset), m.PB);
    Pow2Monotone(m.PB, 6);
    assert Pow2(6) == 64 by { assert Pow2(3) == 8; }
  }

  /**
    Lines 1275-1395.  The picture is the old one with every texel that lies in the image replaced by
    its decoded value, whatever the clipping: the bit offsets move on for clipped texels too.
   */
  method Decode(low: nat, high: nat, dst: array<seq<nat>>, win: Window)
    requires low < Pow2(64) && high < Pow2(64) && Fits(win, dst.Length)
    modifies dst
    ensures dst[..] == Painted(old(dst[..]), win, Put(low + Shl(high, 64)), 16)
  {
    hide Painted, Texel, Pow2, Shl, Modes, ModeIndex;
    ghost var n := low + Shl(high, 64);
    ModeOfLow(low, high, 0);
    var i := FindMode(low);
    if i == 8 {
      PaintInvalid(n, dst, win);
    } else {
      ModeSums(i);
      ModeWidths(i);
      var ends := ReadEnds(low, high, i);
      PaintTexels(low, high, i, ends, dst, win);
    }
  }

  /** Lines 1278-1288. */
  method PaintInvalid(ghost n: nat, dst: array<seq<nat>>, win: Window)
    requires Fits(win, dst.Length) && ModeIndex(n, 0) >= 8
    modifies dst
    ensures dst[..] == Painted(old(dst[..]), win, Put(n), 16)
  {
    hide Painted, ModeIndex;
    ghost var before, put := dst[..], Put(n);
    PaintNone(before, win, put);
    var y := 0;
    while y < 4 && win.y + y < win.height
      invariant 0 <= y <= 4
      invariant dst[..] == Painted(before, win, put, 4 * y)
    {
      var x := 0;
      while x < 4 && win.x + x < win.width
        invariant 0 <= x <= 4
        invariant dst[..] == Painted(before, win, put, 4 * y + x)
      {
        PaintOne(before, win, put, x, y);
        dst[Pixel(win, x, y)] := [0, 0, 0, 0];
        x := x + 1;
      }
      PaintSkip(before, win, put, 4 * y + x, 4 * (y + 1));
      y := y + 1;
    }
    PaintSkip(before, win, put, 4 * y, 16);
  }

  /** Lines 1347-1394. */
  method PaintTexels(low: nat, high: nat, i: nat, ends: seq<Color>, dst: array<seq<nat>>, win: Window)
    requires low < Pow2(64) && high < Pow2(64) && Fits(win, dst.Length)
    requires i < 8 && i == ModeIndex(low + Shl(high, 64), 0) && 1 <= Modes(i).NS <= 3
    requires ColourBits(Modes(i)) <= 8 && AlphaBits(Modes(i)) <= 8 && |ends| == Modes(i).NumColors()
    requires forall k :: 0 <= k < |ends| ==> ends[k] == FullEnd(Modes(i), low + Shl(high, 64), k)
    modifies dst
    ensures dst[..] == Painted(old(dst[..]), win, Put(low + Shl(high, 64)), 16)
  {
    hide Painted, Texel, Pow2, Shl, Modes, ModeIndex, Read, FullEnd, IndexOffset, ReadBits, ShapeFor, SubsetIndex, Interpolate, Rotated,
         TexelFrom, ColourEnd, AlphaEnd, FieldAt, IsAnchor, TexelOf, Fits, Mode.Partition, Mode.Rotation, Mode.IndexSelection, Mode.Red,
         Mode.Green, Mode.Blue, Mode.Alpha, Mode.EndpointPBit, Mode.SharedPBit0, Mode.SharedPBit1, Bitfield.End;
    var m := Modes(i);
    ghost var n := low + Shl(high, 64);
    ghost var before, put := dst[..], Put(n);
    SecondaryExists(i, n);
    FieldsInside(i, 0);
    FieldCounts(m);
    var partition := Fetch(low, high, m.Partition());
    var selection := Fetch(low, high, m.IndexSelection());
    var rotation := Fetch(low, high, m.Rotation());
    var colourSecond, alphaSecond := selection == 1, m.IB2 != 0 && selection == 0;
    var colourBits, alphaBits := IndexWidth(m, colourSecond), IndexWidth(m, alphaSecond);
    PaintNone(before, win, put);
    FirstOffset(m, partition, colourBits);
    FirstOffset(m, partition, alphaBits);
    var colourOffset, alphaOffset := 0, 0;
    var t := 0;
    while t < 16
      invariant 0 <= t <= 16
      invariant colourOffset == IndexOffset(m, partition, colourBits, t)
      invariant alphaOffset == IndexOffset(m, partition, alphaBits, t)
      invariant dst[..] == Painted(before, win, put, t)
    {
      var x, y := t % 4, t / 4;
      IndexInside(i, partition, colourSecond, t);
      IndexInside(i, partition, alphaSecond, t);
      OffsetStep(m, partition, colourBits, t);
      OffsetStep(m, partition, alphaBits, t);
      var colour := Fetch(low, high, FieldAt(m, colourSecond, colourOffset, ReadBits(m, partition, colourBits, t)));
      var alpha := Fetch(low, high, FieldAt(m, alphaSecond, alphaOffset, ReadBits(m, partition, alphaBits, t)));
      colourOffset := colourOffset + ReadBits(m, partition, colourBits, t);
      alphaOffset := alphaOffset + ReadBits(m, partition, alphaBits, t);
      if Inside(win, x, y) {
        AnchorsAre(m, partition, t);
        PaintOne(before, win, put, x, y);
        var k := 2 * SubsetIndex(m, partition, t);
        FullEndIs(m, n, k);
        FullEndIs(m, n, k + 1);
        TexelIs(n, i, partition, t, colour, alpha);
        dst[Pixel(win, x, y)] := TexelOf(ends[k], ends[k + 1], colourBits, alphaBits, colour, alpha, rotation);
      } else {
        PaintSkip(before, win, put, t, t + 1);
      }
      t := t + 1;
    }
  }

  /** Lines 1370-1389. */
  function TexelOf(e0: Color, e1: Color, cb: nat, ab: nat, colour: nat, alpha: nat, rotation: nat): seq<nat> {
    Rotated(Interpolate(e0.r, e1.r, cb, colour), Interpolate(e0.g, e1.g, cb, colour), Interpolate(e0.b, e1.b, cb, colour),
            Interpolate(e0.a, e1.a, ab, alpha), rotation)
  }

  lemma {:induction false} TexelIs(n: nat, i: nat, partition: nat, t: nat, colour: nat, alpha: nat)
    requires i < 8 && i == ModeIndex(n, 0) && Modes(i).NS >= 1 && ColourBits(Modes(i)) <= 8 && AlphaBits(Modes(i)) <= 8
    requires partition == Read(n, Modes(i).Partition()) < 64
    requires colour == Read(n, IndexField(Modes(i), partition, ColourSecondary(Modes(i), n), t))
    requires alpha == Read(n, IndexField(Modes(i), partition, AlphaSecondary(Modes(i), n), t))
    ensures var (m, k) := (Modes(i), 2 * SubsetIndex(Modes(i), partition, t));
            Texel(n, t) == TexelOf(Color(ColourEnd(m, n, 0, k), ColourEnd(m, n, 1, k), ColourEnd(m, n, 2, k), AlphaEnd(m, n, k)),
                                   Color(ColourEnd(m, n, 0, k + 1), ColourEnd(m, n, 1, k + 1), ColourEnd(m, n, 2, k + 1), AlphaEnd(m, n, k + 1)),
                                   IndexWidth(m, ColourSecondary(m, n)), IndexWidth(m, AlphaSecondary(m, n)),
                                   colour, alpha, Read(n, m.Rotation()))
  {
    hide Modes, ModeIndex, Read, SubsetIndex, ColourEnd, AlphaEnd, IndexField, Interpolate, Rotated, Mode.Partition, Mode.Rotation;
  }
}
