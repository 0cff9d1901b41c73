/**
  The colour half of a BC1/BC3 block: palettes, index choice and control flow of the encoder in
  externals/stb/stb_dxt.cpp, and the decoder of externals/bc_decoder/bc_decoder.cpp.

  The floating-point endpoint search is not modelled: whatever endpoints it returns, the theorems hold.
 */
module ColorBlock {
  import opened Bits
  import opened Blit

  type U16 = x: int | 0 <= x < 65536

  datatype Rgb = Rgb(r: int, g: int, b: int)
  datatype Rgba = Rgba(r: Byte, g: Byte, b: Byte, a: Byte)

  // ---------------------------------------------------------------- the encoder's palette

  /** Lines 87-97. */
  function From16(v: U16): Rgb {
    Rgb(Shr(And(v, 0xf800), 11) * 33 / 4, Shr(And(v, 0x07e0), 5) * 65 / 16, And(v, 0x001f) * 33 / 4)
  }

  function Lerp13(a: int, b: int): int { (2 * a + b) / 3 }

  function Lerp12(a: int, b: int): int { (a + b) / 2 }

  /** Lines 138-143, entry `k`. */
  function Eval4(c0: U16, c1: U16, k: nat): Rgb
    requires k < 4
  {
    var p, q := From16(c0), From16(c1);
    if k == 0 then p else if k == 1 then q
    else if k == 2 then Rgb(Lerp13(p.r, q.r), Lerp13(p.g, q.g), Lerp13(p.b, q.b))
    else Rgb(Lerp13(q.r, p.r), Lerp13(q.g, p.g), Lerp13(q.b, p.b))
  }

  /** Lines 145-149, entry `k`. */
  function Eval3(c0: U16, c1: U16, k: nat): Rgb
    requires k < 3
  {
    var p, q := From16(c0), From16(c1);
    if k == 0 then p else if k == 1 then q
    else Rgb(Lerp12(p.r, q.r), Lerp12(p.g, q.g), Lerp12(p.b, q.b))
  }

  // ---------------------------------------------------------------- the decoder's palette

  /** A decoder colour: c[0] blue, c[1] green, c[2] red, c[3] the alpha bits in place. */
  datatype Color = Color(c0: int, c1: int, c2: int, c3: int)

  const Opaque: int := 0xFF00_0000 - 0x1_0000_0000  // the int 0xFF000000

  /** Lines 49-53. */
  function Extract565(v: U16): Color {
    Color(Or(Shl(And(v, 0x001F), 3), Shr(And(v, 0x001C), 2)),
          Or(Shr(And(v, 0x07E0), 3), Shr(And(v, 0x0600), 9)),
          Or(Shr(And(v, 0xF800), 8), Shr(And(v, 0xE000), 13)), Opaque)
  }

  /** Lines 20-31: palette entry `k`. */
  function Palette(c0: U16, c1: U16, hasAlpha: bool, separateAlpha: bool, k: nat): Color
    requires k < 4
  {
    var p, q := Extract565(c0), Extract565(c1);
    if k == 0 then p else if k == 1 then q
    else if separateAlpha || c0 > c1 then
      var a, b := if k == 2 then p else q, if k == 2 then q else p;
      Color(Quotient(a.c0 * 2 + b.c0, 3), Quotient(a.c1 * 2 + b.c1, 3), Quotient(a.c2 * 2 + b.c2, 3),
            Quotient(a.c3 * 2 + b.c3, 3))
    else if k == 2 then
      Color((p.c0 + q.c0) / 2, (p.c1 + q.c1) / 2, (p.c2 + q.c2) / 2, (p.c3 + q.c3) / 2)
    else
      Color(0, 0, 0, if hasAlpha then 0 else Opaque)
  }

  /** Lines 55-57, as the four bytes the word is stored as. */
  function Pack8888(c: Color): (px: seq<Byte>)
    ensures |px| == 4
  {
    [c.c2 % 256, c.c1 % 256, c.c0 % 256, (c.c3 % 0x1_0000_0000) / 0x100_0000]
  }

  /** Lines 99-102. */
  function GetIdx(idx: nat, i: nat): (r: nat)
    ensures r < 4
  {
    ReadField(idx, 2 * i, 2);
    Recombine(Shr(idx, 2 * i), 2);
    assert Pow2(2) == 4;
    Shr(And(idx, Shl(3, 2 * i)), 2 * i)
  }

  function DecodedTexel(c0: U16, c1: U16, idx: nat, hasAlpha: bool, separateAlpha: bool, i: nat): seq<Byte> {
    Pack8888(Palette(c0, c1, hasAlpha, separateAlpha, GetIdx(idx, i)))
  }

  // ---------------------------------------------------------------- the two palettes agree

  /** Five bits replicated to eight: a multiplication in one file, shifts and masks in the other. */
  lemma {:induction false} Expand5(v: nat, k: nat)
    ensures var f := Field(v, k, 5); f < 32 && Field(v, k + 2, 3) == f / 4 && Or(Shl(f, 3), f / 4) == f * 33 / 4
  {
    var f := Field(v, k, 5);
    Recombine(Shr(v, k), 5);
    assert Pow2(5) == 32;
    ShrLow(Shr(v, k), 5, 2);
    ShrShr(v, k, 2);
    assert Shr(f / 2, 1) == f / 2 / 2;
    assert Pow2(3) == 8;
    OrDisjoint(f / 4, f, 3);
    OrCommutes(Shl(f, 3), f / 4);
    assert Shl(f, 1) == 2 * f;
  }

  /** Six bits likewise. */
  lemma {:induction false} Expand6(v: nat, k: nat)
    ensures var f := Field(v, k, 6); f < 64 && Field(v, k + 4, 2) == f / 16 && Or(Shl(f, 2), f / 16) == f * 65 / 16
  {
    hide Or;
    var f := Field(v, k, 6);
    Recombine(Shr(v, k), 6);
    assert Pow2(6) == 64;
    ShrLow(Shr(v, k), 6, 4);
    ShrShr(v, k, 4);
    assert Shr(f / 2 / 2, 2) == Shr(f / 2 / 2 / 2, 1) == f / 2 / 2 / 2 / 2;
    assert Pow2(2) == 4;
    OrDisjoint(f / 16, f, 2);
    OrCommutes(Shl(f, 2), f / 16);
    assert Shl(f, 1) == 2 * f;
  }

  lemma {:induction false} Masks()
    ensures Pow2(5) - 1 == 0x1F && Pow2(6) - 1 == 63 && Pow2(3) - 1 == 7 && Pow2(2) - 1 == 3
    ensures Shl(7, 2) == 0x1C && Shl(63, 5) == 0x7E0 && Shl(3, 9) == 0x600 && Shl(31, 11) == 0xF800 && Shl(7, 13) == 0xE000
  {
  }

  lemma {:induction false} BlueAgrees(v: U16)
    ensures Extract565(v).c0 == From16(v).b && 0 <= From16(v).b < 256
  {
    hide And, Or, Shl, Shr, Pow2, Low;
    Masks();
    AndMask(v, 5);
    NoShift(v);
    ReadField(v, 2, 3);
    Expand5(v, 0);
  }

  lemma {:induction false} GreenAgrees(v: U16)
    ensures Extract565(v).c1 == From16(v).g && 0 <= From16(v).g < 256
  {
    hide And, Or, Shl, Shr, Pow2, Low;
    Masks();
    AndField(v, 5, 6);
    ShrShl(Field(v, 5, 6), 5, 3);
    ShrShl(Field(v, 5, 6), 5, 5);
    NoShift(Field(v, 5, 6));
    ReadField(v, 9, 2);
    Expand6(v, 5);
  }

  lemma {:induction false} RedAgrees(v: U16)
    ensures Extract565(v).c2 == From16(v).r && 0 <= From16(v).r < 256
  {
    hide And, Or, Shl, Shr, Pow2, Low;
    Masks();
    AndField(v, 11, 5);
    ShrShl(Field(v, 11, 5), 11, 8);
    ShrShl(Field(v, 11, 5), 11, 11);
    NoShift(Field(v, 11, 5));
    ReadField(v, 13, 3);
    Expand5(v, 11);
  }

  /** Both files expand 5-6-5 to the same bytes. */
  lemma {:induction false} ExpansionAgrees(v: U16)
    ensures var c, e := Extract565(v), From16(v);
            c.c0 == e.b && c.c1 == e.g && c.c2 == e.r && c.c3 == Opaque
            && 0 <= e.r < 256 && 0 <= e.g < 256 && 0 <= e.b < 256
  {
    hide And, Or, Shl, Shr;
    BlueAgrees(v);
    GreenAgrees(v);
    RedAgrees(v);
  }

  /** A decoded pixel of an opaque colour. */
  function OpaquePixel(c: Rgb): seq<Byte> { [c.r % 256, c.g % 256, c.b % 256, 255] }

  /** Four-colour blocks: the decoder's palette is the encoder's. */
  lemma {:induction false} FourColourPalettesAgree(c0: U16, c1: U16, hasAlpha: bool, separateAlpha: bool, k: nat)
    requires k < 4 && (separateAlpha || c0 > c1)
    ensures Pack8888(Palette(c0, c1, hasAlpha, separateAlpha, k)) == OpaquePixel(Eval4(c0, c1, k))
  {
    hide Extract565, From16, Quotient, Lerp13;
    ExpansionAgrees(c0);
    ExpansionAgrees(c1);
    if k >= 2 { ThirdsAgree(if k == 2 then c0 else c1, if k == 2 then c1 else c0); }
  }

  /** Two thirds of one colour and one of another: an opaque colour again, as the alpha word is negative. */
  lemma {:induction false} ThirdsAgree(c0: U16, c1: U16)
    ensures var a, b, e, f := Extract565(c0), Extract565(c1), From16(c0), From16(c1);
            Pack8888(Color(Quotient(a.c0 * 2 + b.c0, 3), Quotient(a.c1 * 2 + b.c1, 3), Quotient(a.c2 * 2 + b.c2, 3),
                           Quotient(a.c3 * 2 + b.c3, 3)))
            == OpaquePixel(Rgb(Lerp13(e.r, f.r), Lerp13(e.g, f.g), Lerp13(e.b, f.b)))
  {
    hide Extract565, From16, Quotient, Lerp13;
    ExpansionAgrees(c0);
    ExpansionAgrees(c1);
    var e, f := From16(c0), From16(c1);
    ThirdIsLerp(e.r, f.r);
    ThirdIsLerp(e.g, f.g);
    ThirdIsLerp(e.b, f.b);
    OpaqueStays();
  }

  lemma {:induction false} ThirdIsLerp(a: int, b: int)
    requires a >= 0 && b >= 0
    ensures Quotient(a * 2 + b, 3) == Lerp13(a, b)
  {
  }

  lemma {:induction false} OpaqueStays()
    ensures Quotient(Opaque * 2 + Opaque, 3) == Opaque && (Opaque % 0x1_0000_0000) / 0x100_0000 == 255
  {
  }

  /** Three-colour blocks: entries 0 to 2 agree and are opaque, entry 3 is transparent. */
  lemma {:induction false} ThreeColourPalettesAgree(c0: U16, c1: U16, k: nat)
    requires k < 4 && c0 <= c1
    ensures var px := Pack8888(Palette(c0, c1, true, false, k));
            if k == 3 then px == [0, 0, 0, 0] else px == OpaquePixel(Eval3(c0, c1, k))
  {
    hide Extract565, From16;
    ExpansionAgrees(c0);
    ExpansionAgrees(c1);
  }

  /** With equal endpoints the third entry is the same in both kinds of block. */
  lemma {:induction false} EqualEndpoints(c: U16, k: nat)
    requires k < 3
    ensures Eval3(c, c, k) == Eval4(c, c, k)
  {
    hide From16;
  }

  /** Swapping the endpoints renumbers the palette by flipping the low bit of the index. */
  lemma {:induction false} SwapRenumbers(c0: U16, c1: U16, k: nat)
    requires k < 4
    ensures Xor(k, 1) < 4 && Eval4(c1, c0, Xor(k, 1)) == Eval4(c0, c1, k)
  {
    hide From16;
    assert Xor(0, 1) == 1 && Xor(1, 1) == 0 && Xor(2, 1) == 3 && Xor(3, 1) == 2;
  }

  // ---------------------------------------------------------------- masks

  /** `n` two-bit digits that are all `c`. */
  function Rep(c: nat, n: nat): nat {
    if n == 0 then 0 else c + 4 * Rep(c, n - 1)
  }

  lemma {:induction false} RepRead(c: nat, n: nat, i: nat)
    requires c < 4 && i < n
    ensures Field(Rep(c, n), 2 * i, 2) == c
  {
    assert Shl(Rep(c, n - 1), 2) == 4 * Rep(c, n - 1) by { assert Shl(Rep(c, n - 1), 1) == 2 * Rep(c, n - 1); }
    assert Pow2(2) == 4;
    Split(c, Rep(c, n - 1), 2);
    if i == 0 {
      assert Shr(Rep(c, n), 0) == Rep(c, n);
    } else {
      RepRead(c, n - 1, i - 1);
      ShrShr(Rep(c, n), 2, 2 * (i - 1));
    }
  }

  lemma {:induction false} RepWords(c: nat)
    requires c < 4
    ensures Rep(c, 16) == c * 0x5555_5555
  {
    assert Rep(c, 1) == c;
    assert Rep(c, 2) == 5 * c;
    assert Rep(c, 3) == 21 * c;
    assert Rep(c, 4) == 85 * c;
    assert Rep(c, 6) == 1365 * c;
    assert Rep(c, 8) == 21845 * c;
    assert Rep(c, 10) == 349525 * c;
    assert Rep(c, 12) == 5592405 * c;
    assert Rep(c, 14) == 89478485 * c;
  }

  /** A mask whose sixteen indices are all `c`. */
  lemma {:induction false} UniformMask(c: nat, i: nat)
    requires c < 4 && i < 16
    ensures GetIdx(c * 0x5555_5555, i) == c
  {
    RepWords(c);
    RepRead(c, 16, i);
    assert Pow2(2) - 1 == 3;
    ReadField(c * 0x5555_5555, 2 * i, 2);
  }

  /** Flipping every low bit flips it in every index. */
  lemma {:induction false} FlippedMask(mask: nat, i: nat)
    requires i < 16
    ensures GetIdx(Xor(mask, 0x5555_5555), i) == Xor(GetIdx(mask, i), 1)
  {
    assert Pow2(2) - 1 == 3;
    ReadField(mask, 2 * i, 2);
    ReadField(Xor(mask, 0x5555_5555), 2 * i, 2);
    XorShr(mask, 0x5555_5555, 2 * i);
    XorLow(Shr(mask, 2 * i), Shr(0x5555_5555, 2 * i), 2);
    RepWords(1);
    RepRead(1, 16, i);
  }

  // ---------------------------------------------------------------- choosing indices

  /** Position along the line between the endpoint colours. */
  function Dot(p: Rgb, dir: Rgb): int { p.r * dir.r + p.g * dir.g + p.b * dir.b }

  function Direction(c0: U16, c1: U16): Rgb {
    var p, q := From16(c0), From16(c1);
    Rgb(p.r - q.r, p.g - q.g, p.b - q.b)
  }

  function Stop(c0: U16, c1: U16, k: nat): int
    requires k < 4
  {
    Dot(Eval4(c0, c1, k), Direction(c0, c1))
  }

  function Place(t: Rgba, c0: U16, c1: U16): int { Dot(Rgb(t.r, t.g, t.b), Direction(c0, c1)) }

  /** Lines 177-188: three thresholds. */
  function MatchIndex(dot: int, s0: int, s1: int, s2: int, s3: int): nat {
    if 2 * dot < s3 + s2 then (if 2 * dot < s1 + s3 then 1 else 3) else (if 2 * dot < s2 + s0 then 2 else 0)
  }

  function Matched(t: Rgba, c0: U16, c1: U16): (k: nat)
    ensures k < 4
  {
    MatchIndex(Place(t, c0, c1), Stop(c0, c1, 0), Stop(c0, c1, 1), Stop(c0, c1, 2), Stop(c0, c1, 3))
  }

  lemma {:induction false} Scale(x: int, y: int, d: int)
    requires (d >= 0 && x >= y) || (d <= 0 && x <= y)
    ensures x * d >= y * d
  {
    assert (x - y) * d >= 0;
    assert (x - y) * d == x * d - y * d;
  }

  /** One channel: rounding down keeps the four values in order along the line. */
  lemma {:induction false} ChannelInOrder(a: int, b: int)
    ensures a * (a - b) >= Lerp13(a, b) * (a - b) >= Lerp13(b, a) * (a - b) >= b * (a - b)
  {
    Scale(a, Lerp13(a, b), a - b);
    Scale(Lerp13(a, b), Lerp13(b, a), a - b);
    Scale(Lerp13(b, a), b, a - b);
  }

  lemma {:induction false} StopsInOrder(c0: U16, c1: U16)
    ensures Stop(c0, c1, 0) >= Stop(c0, c1, 2) >= Stop(c0, c1, 3) >= Stop(c0, c1, 1)
  {
    hide From16, Lerp13;
    var p, q := From16(c0), From16(c1);
    ChannelInOrder(p.r, q.r);
    ChannelInOrder(p.g, q.g);
    ChannelInOrder(p.b, q.b);
  }

  function Distance(x: int, y: int): nat { if x < y then y - x else x - y }

  /** The chosen entry is a nearest one along the line. */
  lemma {:induction false} MatchedIsNearest(t: Rgba, c0: U16, c1: U16, k: nat)
    requires k < 4
    ensures Distance(Place(t, c0, c1), Stop(c0, c1, Matched(t, c0, c1))) <= Distance(Place(t, c0, c1), Stop(c0, c1, k))
  {
    hide Place, Stop;
    StopsInOrder(c0, c1);
  }

  /** Two entries at one place along the line are one colour, as no channel turns back along it. */
  lemma {:induction false} OnePlaceOneColour(c0: U16, c1: U16, j: nat, k: nat)
    requires j < 4 && k < 4 && Stop(c0, c1, j) == Stop(c0, c1, k)
    ensures Eval4(c0, c1, j) == Eval4(c0, c1, k)
  {
    hide From16, Lerp13;
    var p, q := From16(c0), From16(c1);
    ChannelInOrder(p.r, q.r);
    ChannelInOrder(p.g, q.g);
    ChannelInOrder(p.b, q.b);
    EqualSteps(p.r, q.r, Eval4(c0, c1, j).r, Eval4(c0, c1, k).r);
    EqualSteps(p.g, q.g, Eval4(c0, c1, j).g, Eval4(c0, c1, k).g);
    EqualSteps(p.b, q.b, Eval4(c0, c1, j).b, Eval4(c0, c1, k).b);
  }

  /** Of the four values of one channel, two at one place are equal. */
  lemma {:induction false} EqualSteps(a: int, b: int, x: int, y: int)
    requires x in [a, b, Lerp13(a, b), Lerp13(b, a)] && y in [a, b, Lerp13(a, b), Lerp13(b, a)]
    requires x * (a - b) == y * (a - b)
    ensures x == y
  {
    if a == b {
      assert Lerp13(a, b) == a;
    } else {
      hide Lerp13;
      SameFactor(x, y, a - b);
    }
  }

  lemma {:induction false} SameFactor(x: int, y: int, d: int)
    requires d != 0 && x * d == y * d
    ensures x == y
  {
    if x > y { AtLeast(x - y, d); } else if y > x { AtLeast(y - x, d); }
  }

  lemma {:induction false} AtLeast(n: int, d: int)
    requires n > 0 && d != 0
    ensures n * d != 0
  {
  }

  /** A texel that has the colour of a palette entry is matched to an entry of that colour. */
  lemma {:induction false} PaletteColourIsKept(t: Rgba, c0: U16, c1: U16, k: nat)
    requires k < 4 && Eval4(c0, c1, k) == Rgb(t.r, t.g, t.b)
    ensures Eval4(c0, c1, Matched(t, c0, c1)) == Rgb(t.r, t.g, t.b)
  {
    hide Matched, Eval4, Direction;
    MatchedIsNearest(t, c0, c1, k);
    OnePlaceOneColour(c0, c1, Matched(t, c0, c1), k);
  }

  /** Lines 152-192: indices are pushed from the last texel to the first. */
  method MatchColors(texels: seq<Rgba>, c0: U16, c1: U16) returns (mask: nat)
    requires |texels| == 16
    ensures mask < Pow2(32) && forall i :: 0 <= i < 16 ==> GetIdx(mask, i) == Matched(texels[i], c0, c1)
  {
    hide Pow2, Matched, Digits;
    var s0, s1, s2, s3 := Stop(c0, c1, 0), Stop(c0, c1, 1), Stop(c0, c1, 2), Stop(c0, c1, 3);
    mask := 0;
    ghost var digits: seq<nat> := [];
    NoDigits();
    var i := 16;
    while i > 0
      invariant 0 <= i <= 16 && |digits| == 16 - i
      invariant forall k :: 0 <= k < 16 - i ==> digits[k] == Matched(texels[i + k], c0, c1)
      invariant mask == Digits(digits, 2)
    {
      i := i - 1;
      var index := MatchIndex(Place(texels[i], c0, c1), s0, s1, s2, s3);
      MatchedIs(texels[i], c0, c1);
      PushLow(digits, index);
      digits := [index] + digits;
      mask := Or(Shl(mask, 2), index);
    }
    ReadMask(digits);
  }

  lemma {:induction false} ReadMask(digits: seq<nat>)
    requires |digits| == 16 && forall k :: 0 <= k < 16 ==> digits[k] < 4
    ensures Digits(digits, 2) < Pow2(32)
    ensures forall k :: 0 <= k < 16 ==> GetIdx(Digits(digits, 2), k) == digits[k]
  {
    FourValues();
    DigitsBound(digits, 2);
    forall k | 0 <= k < 16 ensures GetIdx(Digits(digits, 2), k) == digits[k] {
      DigitsRead(digits, 2, k);
      ReadField(Digits(digits, 2), 2 * k, 2);
    }
  }

  lemma {:induction false} MatchedIs(t: Rgba, c0: U16, c1: U16)
    ensures Matched(t, c0, c1)
            == MatchIndex(Place(t, c0, c1), Stop(c0, c1, 0), Stop(c0, c1, 1), Stop(c0, c1, 2), Stop(c0, c1, 3))
  {
  }

  lemma {:induction false} NoDigits() ensures Digits([], 2) == 0 {}

  lemma {:induction false} FourValues() ensures Pow2(2) == 4 {}

  lemma {:induction false} PushLow(digits: seq<nat>, index: nat)
    requires index < 4
    ensures Or(Shl(Digits(digits, 2), 2), index) == Digits([index] + digits, 2)
  {
    FourValues();
    OrDisjoint(index, Digits(digits, 2), 2);
    OrCommutes(index, Shl(Digits(digits, 2), 2));
    assert ([index] + digits)[1..] == digits;
  }

  /** Lines 210-222 on the three-colour palette: a transparent texel takes index 3. */
  function MatchedAlpha(t: Rgba, c0: U16, c1: U16): (k: nat)
    ensures k < 4 && (k == 3 <==> t.a == 0)
  {
    var dir, dot := Direction(c0, c1), 2 * Place(t, c0, c1);
    var s0, s1, s2 := Dot(Eval3(c0, c1, 0), dir), Dot(Eval3(c0, c1, 1), dir), Dot(Eval3(c0, c1, 2), dir);
    if t.a == 0 then 3
    else if dot < s2 + s0 then (if dot < s1 + s2 then 0 else 2)
    else (if dot < s1 + s2 then 1 else 0)
  }

  function Stop3(c0: U16, c1: U16, k: nat): int
    requires k < 3
  {
    Dot(Eval3(c0, c1, k), Direction(c0, c1))
  }

  lemma {:induction false} HalfInOrder(a: int, b: int)
    ensures a * (a - b) >= Lerp12(a, b) * (a - b) >= b * (a - b)
    ensures a * (a - b) == b * (a - b) ==> a == b
  {
    Scale(a, Lerp12(a, b), a - b);
    Scale(Lerp12(a, b), b, a - b);
    hide Lerp12;
    if a != b { SameFactorIsZero(a, b); }
  }

  lemma {:induction false} SameFactorIsZero(a: int, b: int)
    requires a != b
    ensures a * (a - b) != b * (a - b)
  {
    if a * (a - b) == b * (a - b) { SameFactor(a, b, a - b); }
  }

  lemma {:induction false} Stops3InOrder(c0: U16, c1: U16)
    ensures Stop3(c0, c1, 0) >= Stop3(c0, c1, 2) >= Stop3(c0, c1, 1)
    ensures Stop3(c0, c1, 0) == Stop3(c0, c1, 1) ==> Direction(c0, c1) == Rgb(0, 0, 0)
  {
    hide From16, Lerp12;
    var p, q := From16(c0), From16(c1);
    HalfInOrder(p.r, q.r);
    HalfInOrder(p.g, q.g);
    HalfInOrder(p.b, q.b);
  }

  ghost predicate NearestOfThree(place: int, c0: U16, c1: U16, k: nat) {
    k < 3 && forall j: nat :: j < 3 ==> Distance(place, Stop3(c0, c1, k)) <= Distance(place, Stop3(c0, c1, j))
  }

  /**
    An opaque texel of a three-colour block takes a nearest entry along the line exactly when it does not lie below
    the middle between entries 1 and 2: down there it takes entry 0, the farthest.
   */
  lemma {:induction false} MatchedAlphaIsNearestExactly(t: Rgba, c0: U16, c1: U16)
    requires t.a != 0
    ensures var low := 2 * Place(t, c0, c1) < Stop3(c0, c1, 1) + Stop3(c0, c1, 2);
            && (NearestOfThree(Place(t, c0, c1), c0, c1, MatchedAlpha(t, c0, c1)) <==> !low)
            && (low ==> MatchedAlpha(t, c0, c1) == 0)
  {
    Stops3InOrder(c0, c1);
    hide Place, Stop3, Direction, MatchedAlpha;
    MatchedAlphaIs(t, c0, c1);
    if Direction(c0, c1) == Rgb(0, 0, 0) { NoLine(t, c0, c1); }
    var place := Place(t, c0, c1);
    if 2 * place < Stop3(c0, c1, 1) + Stop3(c0, c1, 2) {
      assert Distance(place, Stop3(c0, c1, 0)) > Distance(place, Stop3(c0, c1, 1));
    }
  }

  lemma {:induction false} MatchedAlphaIs(t: Rgba, c0: U16, c1: U16)
    requires t.a != 0
    ensures var dot, s0, s1, s2 := 2 * Place(t, c0, c1), Stop3(c0, c1, 0), Stop3(c0, c1, 1), Stop3(c0, c1, 2);
            MatchedAlpha(t, c0, c1) == if dot < s2 + s0 then (if dot < s1 + s2 then 0 else 2) else (if dot < s1 + s2 then 1 else 0)
  {
    hide Place, Direction, Eval3, Dot;
  }

  /** Between equal colours there is no line: every place is 0. */
  lemma {:induction false} NoLine(t: Rgba, c0: U16, c1: U16)
    requires Direction(c0, c1) == Rgb(0, 0, 0)
    ensures Place(t, c0, c1) == Stop3(c0, c1, 0) == Stop3(c0, c1, 1) == Stop3(c0, c1, 2) == 0
  {
    hide Direction, Eval3;
  }

  method MatchColorsAlpha(texels: seq<Rgba>, c0: U16, c1: U16) returns (mask: nat)
    requires |texels| == 16
    ensures mask < Pow2(32) && forall i :: 0 <= i < 16 ==> GetIdx(mask, i) == MatchedAlpha(texels[i], c0, c1)
  {
    hide Pow2, MatchedAlpha, Digits;
    mask := 0;
    ghost var digits: seq<nat> := [];
    NoDigits();
    var i := 16;
    while i > 0
      invariant 0 <= i <= 16 && |digits| == 16 - i
      invariant forall k :: 0 <= k < 16 - i ==> digits[k] == MatchedAlpha(texels[i + k], c0, c1)
      invariant mask == Digits(digits, 2)
    {
      i := i - 1;
      var index := MatchedAlpha(texels[i], c0, c1);
      PushLow(digits, index);
      digits := [index] + digits;
      mask := Or(Shl(mask, 2), index);
    }
    ReadMask(digits);
  }

  // ---------------------------------------------------------------- the encoder's control flow

  /** Whatever the searches return: the single-colour table, the first fit and each refinement, as (max16, min16). */
  datatype Search = Search(solid: (U16, U16), first: (U16, U16), refined: seq<(U16, U16)>)

  /** Lines 228-234. */
  function Reorder(e: (U16, U16)): (r: (U16, U16))
    ensures r.0 <= r.1
  {
    if e.1 < e.0 then (e.1, e.0) else e
  }

  ghost predicate Uniform(texels: seq<Rgba>) {
    forall i :: 0 <= i < |texels| ==> texels[i] == texels[0]
  }

  /** The tail of the alpha-aware search, lines 470-489. */
  function AlphaEndpoints(anyOpaque: bool, found: (U16, U16)): (r: (U16, U16))
    ensures r.0 < r.1
  {
    if !anyOpaque then (0, 0xffff)
    else if found.0 != found.1 then Reorder(found)
    else if found.0 > 0 then Reorder((found.0 - 1, found.1))
    else Reorder((found.0, found.1 + 1))
  }

  /** The indices of an opaque block are those chosen against the endpoints it ends up with. */
  ghost predicate ChosenOpaque(texels: seq<Rgba>, hi: U16, lo: U16, mask: nat) {
    && |texels| == 16
    && if Uniform(texels) then forall i :: 0 <= i < 16 ==> GetIdx(mask, i) == 2
       else if hi == lo then forall i :: 0 <= i < 16 ==> GetIdx(mask, i) == 0
       else forall i :: 0 <= i < 16 ==> GetIdx(mask, i) == Matched(texels[i], hi, lo)
  }

  /** Likewise for a block with transparency. */
  ghost predicate ChosenAlpha(texels: seq<Rgba>, hi: U16, lo: U16, mask: nat) {
    && |texels| == 16
    && if Uniform(texels) && texels[0].a != 0 then forall i :: 0 <= i < 16 ==> GetIdx(mask, i) == 2
       else hi < lo && forall i :: 0 <= i < 16 ==>
              (GetIdx(mask, i) == 3 <==> texels[i].a == 0)
              && (!Uniform(texels) ==> GetIdx(mask, i) == MatchedAlpha(texels[i], hi, lo))
  }

  /** Lines 679-686. */
  function Stored(c0: U16, c1: U16, mask: nat): (r: seq<Byte>)
    ensures |r| == 8
  {
    Bytes(c0, 2) + Bytes(c1, 2) + Bytes(mask, 4)
  }

  /** Lines 628-630. */
  method IsUniform(texels: seq<Rgba>) returns (u: bool)
    requires |texels| == 16
    ensures u <==> Uniform(texels)
  {
    var i := 1;
    while i < 16
      invariant 1 <= i <= 16 && forall k :: 0 <= k < i ==> texels[k] == texels[0]
    {
      if texels[i] != texels[0] {
        return false;
      }
      i := i + 1;
    }
    return true;
  }

  /** Lines 648-672: fit, match, and refine once or twice while that changes the endpoints. */
  method FitOpaque(texels: seq<Rgba>, rounds: nat, search: Search) returns (hi: U16, lo: U16, mask: nat)
    requires |texels| == 16 && |search.refined| >= rounds && !Uniform(texels)
    ensures mask < Pow2(32) && ChosenOpaque(texels, hi, lo, mask)
  {
    hide Matched, Pow2;
    var e := Reorder(search.first);
    hi, lo := e.0, e.1;
    mask := MatchOrZero(texels, hi, lo);
    for i := 0 to rounds
      invariant mask < Pow2(32) && ChosenOpaque(texels, hi, lo, mask) && hi <= lo
    {
      var lastMask := mask;
      var oldHi, oldLo := hi, lo;
      var raw := search.refined[i];
      e := Reorder(raw);
      hi, lo := e.0, e.1;
      if oldLo != raw.1 || oldHi != raw.0 {
        mask := MatchOrZero(texels, hi, lo);
        if hi == lo {
          break;
        }
      }
      if mask == lastMask {
        break;
      }
    }
  }

  /** Lines 650-654 and 661-667. */
  method MatchOrZero(texels: seq<Rgba>, hi: U16, lo: U16) returns (mask: nat)
    requires |texels| == 16 && !Uniform(texels)
    ensures mask < Pow2(32) && ChosenOpaque(texels, hi, lo, mask)
  {
    hide Matched, Pow2;
    if hi != lo {
      mask := MatchColors(texels, hi, lo);
    } else {
      mask := 0;
      forall i | 0 <= i < 16 ensures GetIdx(0, i) == 0 { UniformMask(0, i); }
      Pow2Monotone(0, 32);
    }
  }

  /** Lines 470-471: does any texel have a colour to fit? */
  method HasOpaque(texels: seq<Rgba>) returns (any: bool)
    ensures any <==> exists i :: 0 <= i < |texels| && texels[i].a != 0
  {
    any := false;
    for i := 0 to |texels|
      invariant any <==> exists k :: 0 <= k < i && texels[k].a != 0
    {
      any := any || texels[i].a != 0;
    }
  }

  /** Lines 617-687; also hands back the endpoints and mask from before the final swap. */
  method CompressColor(dest: array<Byte>, texels: seq<Rgba>, alpha: bool, highQuality: bool, search: Search)
    returns (hi: U16, lo: U16, mask: nat)
    requires dest.Length >= 8 && |texels| == 16 && |search.refined| >= 2
    modifies dest
    ensures mask < Pow2(32) && dest[8..] == old(dest[8..])
    ensures alpha ==> ChosenAlpha(texels, hi, lo, mask) && dest[..8] == Stored(hi, lo, mask)
    ensures !alpha ==> ChosenOpaque(texels, hi, lo, mask)
    ensures !alpha ==> dest[..8] == if hi < lo then Stored(lo, hi, Xor(mask, 0x5555_5555)) else Stored(hi, lo, mask)
  {
    hide Pow2, GetIdx, Matched, MatchedAlpha, Xor, Shr;
    MaskWidth();
    var uniform := IsUniform(texels);
    if uniform && texels[0].a == 0 && alpha {
      mask, hi, lo := 0xffff_ffff, 0, 0xffff;
      forall i | 0 <= i < 16 ensures GetIdx(mask, i) == 3 { UniformMask(3, i); }
    } else if uniform {
      mask, hi, lo := 0xaaaa_aaaa, search.solid.0, search.solid.1;
      forall i | 0 <= i < 16 ensures GetIdx(mask, i) == 2 { UniformMask(2, i); }
    } else if alpha {
      var any := HasOpaque(texels);
      var e := AlphaEndpoints(any, search.first);
      hi, lo := e.0, e.1;
      mask := MatchColorsAlpha(texels, hi, lo);
      forall i | 0 <= i < 16 ensures GetIdx(mask, i) == 3 <==> texels[i].a == 0 { AlphaIndexMeans(texels[i], hi, lo); }
    } else {
      hi, lo, mask := FitOpaque(texels, if highQuality then 2 else 1, search);
    }
    var c0, c1, idx := hi, lo, mask;
    if !alpha && c0 < c1 {
      c0, c1, idx := c1, c0, Xor(idx, 0x5555_5555);
    }
    WriteBlock(dest, c0, c1, idx);
  }

  lemma {:induction false} AlphaIndexMeans(t: Rgba, c0: U16, c1: U16)
    ensures MatchedAlpha(t, c0, c1) == 3 <==> t.a == 0
  {
  }

  lemma {:induction false} MaskWidth()
    ensures Pow2(32) == 0x1_0000_0000
  {
    assert Pow2(4) == 16;
    assert Pow2(8) == 256;
    assert Pow2(12) == 4096;
    assert Pow2(16) == 65536;
    assert Pow2(20) == 0x10_0000;
    assert Pow2(24) == 0x100_0000;
    assert Pow2(28) == 0x1000_0000;
  }

  /** Lines 679-686. */
  method WriteBlock(dest: array<Byte>, c0: U16, c1: U16, mask: nat)
    requires dest.Length >= 8
    modifies dest
    ensures dest[..8] == Stored(c0, c1, mask) && dest[8..] == old(dest[8..])
  {
    hide Shr;
    NoShift(c0);
    NoShift(c1);
    NoShift(mask);
    dest[0] := c0 % 256;
    dest[1] := Shr(c0, 8) % 256;
    dest[2] := c1 % 256;
    dest[3] := Shr(c1, 8) % 256;
    dest[4] := mask % 256;
    dest[5] := Shr(mask, 8) % 256;
    dest[6] := Shr(mask, 16) % 256;
    dest[7] := Shr(mask, 24) % 256;
    assert dest[..8] == Stored(c0, c1, mask);
  }

  // ---------------------------------------------------------------- the decoder

  function Put8888(c0: U16, c1: U16, idx: nat, hasAlpha: bool, separateAlpha: bool): (nat, seq<Byte>) -> seq<Byte> {
    (t: nat, px: seq<Byte>) => DecodedTexel(c0, c1, idx, hasAlpha, separateAlpha, t)
  }

  /** Lines 19-40. */
  method DecodeColor(c0: U16, c1: U16, idx: nat, dst: array<seq<Byte>>, win: Window, hasAlpha: bool, separateAlpha: bool)
    requires Fits(win, dst.Length)
    modifies dst
    ensures dst[..] == Painted(old(dst[..]), win, Put8888(c0, c1, idx, hasAlpha, separateAlpha), 16)
  {
    hide Painted, Palette, GetIdx, Pack8888;
    ghost var before, put := dst[..], Put8888(c0, c1, idx, hasAlpha, separateAlpha);
    var c := seq(4, k requires 0 <= k < 4 => Palette(c0, c1, hasAlpha, separateAlpha, k));
    PaintNone(before, win, put);
    var j := 0;
    while j < 4 && win.y + j < win.height
      invariant 0 <= j <= 4
      invariant dst[..] == Painted(before, win, put, 4 * j)
    {
      var i := 0;
      while i < 4 && win.x + i < win.width
        invariant 0 <= i <= 4
        invariant dst[..] == Painted(before, win, put, 4 * j + i)
      {
        PaintOne(before, win, put, i, j);
        dst[Pixel(win, i, j)] := Pack8888(c[GetIdx(idx, 4 * j + i)]);
        i := i + 1;
      }
      PaintSkip(before, win, put, 4 * j + i, 4 * (j + 1));
      j := j + 1;
    }
    PaintSkip(before, win, put, 4 * j, 16);
  }

  // ---------------------------------------------------------------- encoder against decoder

  /** The struct the decoder overlays on the eight bytes. */
  function ReadBlock(block: seq<Byte>): (U16, U16, nat)
    requires |block| == 8
  {
    (block[0] as int + 256 * block[1] as int, block[2] as int + 256 * block[3] as int, LittleEndian(block[4..]))
  }

  lemma {:induction false} TwoBytes(v: U16)
    ensures Bytes(v, 2)[0] as int + 256 * Bytes(v, 2)[1] as int == v
  {
    hide Shr, Low;
    ByteSplit(v);
    NoShift(v);
    assert Bytes(v, 2)[0] == Shr(v, 0) % 256 && Bytes(v, 2)[1] == Shr(v, 8) % 256;
  }

  lemma {:induction false} StoredReadsBack(c0: U16, c1: U16, mask: nat)
    requires mask < Pow2(32)
    ensures ReadBlock(Stored(c0, c1, mask)) == (c0, c1, mask)
  {
    hide Shr, Digits, Pow2, Low;
    var s := Stored(c0, c1, mask);
    TwoBytes(c0);
    TwoBytes(c1);
    assert s[0] == Bytes(c0, 2)[0] && s[1] == Bytes(c0, 2)[1] && s[2] == Bytes(c1, 2)[0] && s[3] == Bytes(c1, 2)[1];
    assert s[4..] == Bytes(mask, 4);
    BytesReadBack(mask, 4);
  }

  /**
    An opaque block decodes, texel by texel, to the palette entry the encoder chose, through the
    final swap of the endpoints, equal endpoints and the single-colour case; as BC1 or inside BC3.
   */
  lemma {:induction false} OpaqueRoundTrip(texels: seq<Rgba>, hi: U16, lo: U16, mask: nat, separateAlpha: bool, i: nat)
    requires ChosenOpaque(texels, hi, lo, mask) && i < 16
    ensures var (c0, c1, idx) := if hi < lo then (lo, hi, Xor(mask, 0x5555_5555)) else (hi, lo, mask);
            DecodedTexel(c0, c1, idx, !separateAlpha, separateAlpha, i) == OpaquePixel(Eval4(hi, lo, GetIdx(mask, i)))
  {
    hide Palette, Pack8888, Eval4, Eval3, Matched, GetIdx, Xor;
    var k := GetIdx(mask, i);
    if hi < lo {
      FlippedMask(mask, i);
      SwapRenumbers(hi, lo, k);
      FourColourPalettesAgree(lo, hi, !separateAlpha, separateAlpha, Xor(k, 1));
    } else if hi > lo || separateAlpha {
      FourColourPalettesAgree(hi, lo, !separateAlpha, separateAlpha, k);
    } else {
      ThreeColourPalettesAgree(hi, lo, k);
      EqualEndpoints(hi, k);
    }
  }

  /** A texel that has the colour of a palette entry is decoded to its own colour. */
  lemma {:induction false} PaletteTexelRoundTrip(texels: seq<Rgba>, hi: U16, lo: U16, mask: nat, separateAlpha: bool, i: nat, k: nat)
    requires ChosenOpaque(texels, hi, lo, mask) && !Uniform(texels) && i < 16 && k < 4
    requires Eval4(hi, lo, k) == Rgb(texels[i].r, texels[i].g, texels[i].b)
    ensures var (c0, c1, idx) := if hi < lo then (lo, hi, Xor(mask, 0x5555_5555)) else (hi, lo, mask);
            DecodedTexel(c0, c1, idx, !separateAlpha, separateAlpha, i) == [texels[i].r, texels[i].g, texels[i].b, 255]
  {
    hide DecodedTexel, Matched, GetIdx, Xor, Uniform, Eval4;
    OpaqueRoundTrip(texels, hi, lo, mask, separateAlpha, i);
    PaletteColourIsKept(texels[i], hi, lo, k);
    if hi == lo { OnlyColour(hi, k); }
  }

  lemma {:induction false} OnlyColour(c: U16, k: nat)
    requires k < 4
    ensures Eval4(c, c, k) == Eval4(c, c, 0)
  {
    hide From16;
  }

  /** The same, down to the eight bytes of the block. */
  lemma {:induction false} OpaqueBytesRoundTrip(block: seq<Byte>, texels: seq<Rgba>, hi: U16, lo: U16, mask: nat,
                                                separateAlpha: bool, i: nat)
    requires ChosenOpaque(texels, hi, lo, mask) && i < 16 && mask < Pow2(32)
    requires block == if hi < lo then Stored(lo, hi, Xor(mask, 0x5555_5555)) else Stored(hi, lo, mask)
    ensures var (c0, c1, idx) := ReadBlock(block);
            DecodedTexel(c0, c1, idx, !separateAlpha, separateAlpha, i) == OpaquePixel(Eval4(hi, lo, GetIdx(mask, i)))
  {
    hide DecodedTexel, Eval4, GetIdx, Matched, Stored, Xor, Pow2;
    MaskWidth();
    XorBound(mask, 0x5555_5555, 32);
    StoredReadsBack(lo, hi, Xor(mask, 0x5555_5555));
    StoredReadsBack(hi, lo, mask);
    OpaqueRoundTrip(texels, hi, lo, mask, separateAlpha, i);
  }

  /** A block with transparency: a texel decodes transparent exactly when its source alpha is 0. */
  lemma {:induction false} AlphaRoundTrip(texels: seq<Rgba>, hi: U16, lo: U16, mask: nat, i: nat)
    requires ChosenAlpha(texels, hi, lo, mask) && i < 16
    ensures var px := DecodedTexel(hi, lo, mask, true, false, i);
            && px[3] == (if texels[i].a == 0 then 0 else 255)
            && (hi <= lo && texels[i].a != 0 ==> px == OpaquePixel(Eval3(hi, lo, GetIdx(mask, i))))
  {
    hide Palette, Pack8888, Eval4, Eval3, MatchedAlpha, GetIdx;
    var k := GetIdx(mask, i);
    if Uniform(texels) { assert texels[i] == texels[0]; }
    if hi > lo {
      FourColourPalettesAgree(hi, lo, true, false, k);
    } else {
      ThreeColourPalettesAgree(hi, lo, k);
    }
  }
}
