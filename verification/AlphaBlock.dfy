/**
  The alpha half of a BC3 block (and the single channel of BC4): the encoder of
  externals/stb/stb_dxt.cpp against the decoder of externals/bc_decoder/bc_decoder.cpp.
 */
module AlphaBlock {
  import opened Bits
  import opened Blit

  function Abs(x: int): nat { if x < 0 then -x else x }

  // ---------------------------------------------------------------- the decoder's levels

  /** Entry `i` of the eight levels (lines 122-132). */
  function Level(c0: int, c1: int, signed: bool, i: nat): int
    requires i < 8
  {
    if i == 0 then c0
    else if i == 1 then c1
    else if c0 > c1 then Quotient((8 - i) * c0 + (i - 1) * c1, 7)
    else if i < 6 then Quotient((6 - i) * c0 + (i - 1) * c1, 5)
    else if i == 6 then (if signed then -128 else 0)
    else (if signed then 127 else 255)
  }

  /** No level of the block is closer to `v` than level `i`. */
  ghost predicate Nearest(c0: int, c1: int, v: int, i: nat) {
    i < 8 && forall j: nat :: j < 8 ==> Abs(Level(c0, c1, false, i) - v) <= Abs(Level(c0, c1, false, j) - v)
  }

  lemma {:induction false} QuotientNear(a: int, d: int)
    requires d > 0
    ensures Abs(d * Quotient(a, d) - a) < d
  {
  }

  lemma {:induction false} QuotientInOrder(a: int, b: int, d: int)
    requires (d == 5 || d == 7) && a <= b
    ensures Quotient(a, d) <= Quotient(b, d)
  {
    if d == 5 { assert Quotient(a, 5) <= Quotient(b, 5); } else { assert Quotient(a, 7) <= Quotient(b, 7); }
  }

  /**
    Between the first two levels the others stand in equal steps, off by less than one: six of them going down
    where c0 > c1, four going up otherwise, and then the least and the greatest value of the format.
   */
  lemma {:induction false} LevelsAreEven(c0: int, c1: int, signed: bool, i: nat)
    requires i < 8
    ensures Level(c0, c1, signed, 0) == c0 && Level(c0, c1, signed, 1) == c1
    ensures c0 > c1 && 2 <= i ==> Abs(7 * (Level(c0, c1, signed, i) - c0) - (i - 1) * (c1 - c0)) < 7
    ensures c0 <= c1 && 2 <= i < 6 ==> Abs(5 * (Level(c0, c1, signed, i) - c0) - (i - 1) * (c1 - c0)) < 5
    ensures c0 <= c1 && i == 6 ==> Level(c0, c1, signed, i) == if signed then -128 else 0
    ensures c0 <= c1 && i == 7 ==> Level(c0, c1, signed, i) == if signed then 127 else 255
  {
    hide Quotient;
    if 2 <= i && c0 > c1 {
      QuotientNear((8 - i) * c0 + (i - 1) * c1, 7);
      assert (8 - i) * c0 + (i - 1) * c1 == 7 * c0 + (i - 1) * (c1 - c0);
    } else if 2 <= i < 6 {
      QuotientNear((6 - i) * c0 + (i - 1) * c1, 5);
      assert (6 - i) * c0 + (i - 1) * c1 == 5 * c0 + (i - 1) * (c1 - c0);
    }
  }

  /** ... and they run from c0 to c1 without turning back. */
  lemma {:induction false} LevelsInOrder(c0: int, c1: int, signed: bool, i: nat)
    ensures c0 > c1 && 2 <= i < 7 ==> c0 >= Level(c0, c1, signed, i) >= Level(c0, c1, signed, i + 1) >= c1
    ensures c0 <= c1 && 2 <= i < 5 ==> c0 <= Level(c0, c1, signed, i) <= Level(c0, c1, signed, i + 1) <= c1
  {
    hide Quotient;
    if 2 <= i < 7 && c0 > c1 {
      WholeQuotient(c0, 7);
      WholeQuotient(c1, 7);
      QuotientInOrder(7 * c1, (7 - i) * c0 + i * c1, 7);
      QuotientInOrder((7 - i) * c0 + i * c1, (8 - i) * c0 + (i - 1) * c1, 7);
      QuotientInOrder((8 - i) * c0 + (i - 1) * c1, 7 * c0, 7);
    } else if 2 <= i < 5 && c0 <= c1 {
      WholeQuotient(c0, 5);
      WholeQuotient(c1, 5);
      QuotientInOrder(5 * c0, (6 - i) * c0 + (i - 1) * c1, 5);
      QuotientInOrder((6 - i) * c0 + (i - 1) * c1, (5 - i) * c0 + i * c1, 5);
      QuotientInOrder((5 - i) * c0 + i * c1, 5 * c1, 5);
    }
  }

  lemma {:induction false} WholeQuotient(a: int, d: int)
    requires d == 5 || d == 7
    ensures Quotient(d * a, d) == a
  {
    if d == 5 { assert Quotient(5 * a, 5) == a; } else { assert Quotient(7 * a, 7) == a; }
  }

  // ---------------------------------------------------------------- the encoder's index

  /** Lines 725-731: a branch-free clamp of a / dist to 0..7. */
  function LinearIndex(dist: nat, a: int): nat {
    var i4 := if a >= 4 * dist then 4 else 0;
    var a4 := if a >= 4 * dist then a - 4 * dist else a;
    var i2 := if a4 >= 2 * dist then 2 else 0;
    var a2 := if a4 >= 2 * dist then a4 - 2 * dist else a4;
    i4 + i2 + (if a2 >= dist then 1 else 0)
  }

  /** Lines 734-735: the linear scale in the order of the format, extremes first. */
  function FormatIndex(linear: nat): nat
    requires linear < 8
  {
    var ind := (8 - linear) % 8;
    if ind < 2 then 1 - ind else ind
  }

  function Bias(dist: nat): int {
    if dist < 8 then dist - 1 else dist / 2 + 2
  }

  /** The index chosen for alpha `v` when the block's extremes are mx and mn. */
  function AlphaIndex(mx: int, mn: int, v: int): (i: nat)
    requires mn <= v <= mx
    ensures i < 8
  {
    FormatIndex(LinearIndex(mx - mn, v * 7 + (Bias(mx - mn) - mn * 7)))
  }

  /** Step `k` of the linear scale: k sevenths of the way up, rounded down. */
  function Rung(mx: int, mn: int, k: nat): int
    requires mn <= mx
  {
    mn + k * (mx - mn) / 7
  }

  /** The format's levels are the rungs, renumbered. */
  lemma {:induction false} LevelIsRung(mx: int, mn: int, k: nat)
    requires 0 <= mn < mx && k < 8
    ensures Level(mx, mn, false, FormatIndex(k)) == Rung(mx, mn, k)
  {
    var d := mx - mn;
    if 1 <= k <= 6 {
      assert (8 - (8 - k)) * mx + ((8 - k) - 1) * mn == 7 * mn + k * d by {
        assert k * mx == k * mn + k * d;
      }
      assert (7 * mn + k * d) / 7 == mn + k * d / 7;
    }
  }

  lemma {:induction false} RungsCoverLevels(mx: int, mn: int, j: nat) returns (k: nat)
    requires 0 <= mn < mx && j < 8
    ensures k < 8 && FormatIndex(k) == j && Level(mx, mn, false, j) == Rung(mx, mn, k)
  {
    k := if j == 0 then 7 else if j == 1 then 0 else 8 - j;
    LevelIsRung(mx, mn, k);
  }

  /** The clamp is a division. */
  lemma {:induction false} LinearIndexDivides(dist: nat, a: int)
    requires dist > 0 && 0 <= a < 8 * dist
    ensures var k := LinearIndex(dist, a); k < 8 && k * dist <= a < (k + 1) * dist
  {
  }

  /** With at most seven steps between the extremes every value is a rung: the chosen one. */
  lemma {:induction false} NarrowIsExact(d: nat, x: nat, k: nat)
    requires 0 < d < 8 && x <= d && k < 8 && k * d <= 7 * x + (d - 1) < (k + 1) * d
    ensures k * d / 7 == x
  {
    assert 7 * x <= k * d < 7 * x + 7;
  }

  /**
    The rounding argument: with bias d/2 + 2 the chosen rung lies between the midpoints to its
    neighbours.  Everything is a multiple of 7 up to remainders, and the remainders of two
    neighbouring rungs cannot both be 6.
   */
  lemma {:induction false} ChosenBetweenMidpoints(d: nat, x: nat, k: nat)
    requires d >= 8 && x <= d && k < 8 && k * d <= 7 * x + (d / 2 + 2) < (k + 1) * d
    ensures k < 7 ==> 2 * x <= k * d / 7 + (k + 1) * d / 7
    ensures k > 0 ==> (k - 1) * d / 7 + k * d / 7 <= 2 * x
  {
    var lo, mid, hi := (k - 1) * d, k * d, (k + 1) * d;
    if k < 7 {
      assert 14 * x <= mid + hi - 5;
      RemaindersNotBothSix(d, k);
      assert 7 * (mid / 7 + hi / 7) == mid + hi - (mid % 7 + hi % 7);
    }
    if k > 0 {
      assert 14 * x >= lo + mid - 4;
      assert 7 * (lo / 7 + mid / 7) <= lo + mid;
    }
  }

  lemma {:induction false} RemaindersNotBothSix(d: nat, k: nat)
    requires k < 7
    ensures !(k * d % 7 == 6 && (k + 1) * d % 7 == 6)
  {
  }

  lemma {:induction false} RungsRise(mx: int, mn: int, j: nat, k: nat)
    requires mn <= mx && j <= k
    ensures Rung(mx, mn, j) <= Rung(mx, mn, k)
    ensures Rung(mx, mn, j + 1) <= Rung(mx, mn, j) + (mx - mn + 6) / 7
  {
    var d := mx - mn;
    assert j * d <= k * d;
    assert (j + 1) * d == j * d + d;
  }

  /** The chosen level is a nearest one, exact on narrow blocks and within half a step on wide ones. */
  lemma {:induction false} ChosenIsNearest(mx: int, mn: int, v: int)
    requires 0 <= mn <= v <= mx
    ensures var i := AlphaIndex(mx, mn, v);
            && Nearest(mx, mn, v, i)
            && (mx - mn <= 7 ==> Level(mx, mn, false, i) == v)
            && 2 * Abs(Level(mx, mn, false, i) - v) <= (mx - mn + 6) / 7
  {
    hide Level, Rung, LinearIndex, FormatIndex;
    if mx == mn {
      SameExtremes(mx, AlphaIndex(mx, mn, v));
    } else {
      ChosenRung(mx, mn, v);
      var k := LinearIndex(mx - mn, v * 7 + (Bias(mx - mn) - mn * 7));
      LevelIsRung(mx, mn, k);
      if mx - mn < 8 { NarrowChosen(mx, mn, v, k); } else { WideChosen(mx, mn, v, k); }
    }
  }

  /** With equal extremes every level that the encoder uses is the value. */
  lemma {:induction false} SameExtremes(m: int, i: nat)
    requires m >= 0 && i == AlphaIndex(m, m, m)
    ensures Level(m, m, false, i) == m && Nearest(m, m, m, i)
  {
  }

  /** The clamp is a division also with the bias put in. */
  lemma {:induction false} ChosenRung(mx: int, mn: int, v: int)
    requires 0 <= mn <= v <= mx && mn < mx
    ensures var d := mx - mn;
            var k := LinearIndex(d, v * 7 + (Bias(d) - mn * 7));
            k < 8 && k * d <= 7 * (v - mn) + Bias(d) < (k + 1) * d
  {
    hide LinearIndex;
    assert v * 7 + (Bias(mx - mn) - mn * 7) == 7 * (v - mn) + Bias(mx - mn);
    LinearIndexDivides(mx - mn, 7 * (v - mn) + Bias(mx - mn));
  }

  lemma {:induction false} NarrowChosen(mx: int, mn: int, v: int, k: nat)
    requires 0 <= mn <= v <= mx && 0 < mx - mn < 8 && k < 8
    requires k * (mx - mn) <= 7 * (v - mn) + Bias(mx - mn) < (k + 1) * (mx - mn)
    ensures Rung(mx, mn, k) == v
  {
    NarrowIsExact(mx - mn, v - mn, k);
  }

  lemma {:induction false} WideChosen(mx: int, mn: int, v: int, k: nat)
    requires 0 <= mn <= v <= mx && mx - mn >= 8 && k < 8
    requires k * (mx - mn) <= 7 * (v - mn) + Bias(mx - mn) < (k + 1) * (mx - mn)
    ensures Nearest(mx, mn, v, FormatIndex(k)) && 2 * Abs(Rung(mx, mn, k) - v) <= (mx - mn + 6) / 7
  {
    hide Nearest, FormatIndex, Abs;
    ChosenBetweenMidpoints(mx - mn, v - mn, k);
    ChosenBeatsOthers(mx, mn, v, k);
  }

  /** Between the midpoints to its neighbours, a rung beats every other rung. */
  lemma {:induction false} ChosenBeatsOthers(mx: int, mn: int, v: int, k: nat)
    requires 0 <= mn < mx && mn <= v <= mx && k < 8
    requires k < 7 ==> 2 * v <= Rung(mx, mn, k) + Rung(mx, mn, k + 1)
    requires k > 0 ==> Rung(mx, mn, k - 1) + Rung(mx, mn, k) <= 2 * v
    ensures Nearest(mx, mn, v, FormatIndex(k))
    ensures 2 * Abs(Rung(mx, mn, k) - v) <= (mx - mn + 6) / 7
  {
    LevelIsRung(mx, mn, k);
    forall j: nat | j < 8
      ensures Abs(Level(mx, mn, false, FormatIndex(k)) - v) <= Abs(Level(mx, mn, false, j) - v)
    {
      var m := RungsCoverLevels(mx, mn, j);
      if m < k { RungsRise(mx, mn, m, k - 1); }
      if m > k { RungsRise(mx, mn, k + 1, m); }
    }
    RungsRise(mx, mn, k, k + 1);
    if k > 0 { RungsRise(mx, mn, k - 1, k); }
  }

  // ---------------------------------------------------------------- the encoder

  /** The 16 alphas the encoder reads. */
  function Strided(src: seq<Byte>, stride: nat): (alphas: seq<Byte>)
    requires forall i :: 0 <= i < 16 ==> i * stride < |src|
    ensures |alphas| == 16
  {
    seq(16, i requires 0 <= i < 16 => src[i * stride])
  }

  ghost predicate Extremes(alphas: seq<Byte>, mx: int, mn: int) {
    && (forall i :: 0 <= i < |alphas| ==> mn <= alphas[i] <= mx)
    && (exists i :: 0 <= i < |alphas| && alphas[i] == mx) && (exists i :: 0 <= i < |alphas| && alphas[i] == mn)
  }

  function Indices(alphas: seq<Byte>, mx: int, mn: int): (r: seq<nat>)
    requires forall i :: 0 <= i < |alphas| ==> mn <= alphas[i] <= mx
    ensures |r| == |alphas|
  {
    seq(|alphas|, i requires 0 <= i < |alphas| => AlphaIndex(mx, mn, alphas[i]))
  }

  /** Eight bytes: the extremes, then sixteen 3-bit indices in a row. */
  ghost predicate Encodes(block: seq<Byte>, alphas: seq<Byte>) {
    && |block| == 8 && |alphas| == 16
    && Extremes(alphas, block[0], block[1])
    && LittleEndian(block[2..]) == Digits(Indices(alphas, block[0], block[1]), 3)
  }

  /** Lines 694-702. */
  method FindExtremes(src: seq<Byte>, stride: nat) returns (mx: Byte, mn: Byte)
    requires forall i :: 0 <= i < 16 ==> i * stride < |src|
    ensures Extremes(Strided(src, stride), mx, mn)
  {
    ghost var alphas := Strided(src, stride);
    assert alphas[0] == src[0 * stride] == src[0];
    mn, mx := src[0], src[0];
    for i := 1 to 16
      invariant forall k :: 0 <= k < i ==> mn <= alphas[k] <= mx
      invariant exists k :: 0 <= k < 16 && alphas[k] == mx
      invariant exists k :: 0 <= k < 16 && alphas[k] == mn
    {
      assert alphas[i] == src[i * stride];
      if src[i * stride] < mn {
        mn := src[i * stride];
      } else if src[i * stride] > mx {
        mx := src[i * stride];
      }
    }
  }

  /** `mask |= ind << bits` appends an index above the pending bits. */
  lemma {:induction false} PushIndex(done: nat, n: nat, mask: nat, bits: nat, total: nat, count: nat, ind: nat)
    requires mask < Pow2(bits) && ind < 8 && 3 * count == 8 * n + bits
    requires total == done + Shl(mask, 8 * n)
    ensures Or(mask, Shl(ind, bits)) < Pow2(bits + 3)
    ensures total + Shl(ind, 3 * count) == done + Shl(Or(mask, Shl(ind, bits)), 8 * n)
  {
    OrDisjoint(mask, ind, bits);
    ShlSum(mask, Shl(ind, bits), 8 * n);
    ShlShl(ind, bits, 8 * n);
    assert Pow2(3) == 8;
    ShlBound(ind, 3, bits);
  }

  /** Flushing the low byte moves it from the pending bits to the bytes written. */
  lemma {:induction false} FlushByte(bytes: seq<Byte>, mask: nat, bits: nat, total: nat)
    requires bits >= 8 && mask < Pow2(bits) && total == LittleEndian(bytes) + Shl(mask, 8 * |bytes|)
    ensures mask / 256 < Pow2(bits - 8)
    ensures total == LittleEndian(bytes + [mask % 256]) + Shl(mask / 256, 8 * (|bytes| + 1))
  {
    ByteSplit(mask);
    ShrBound(mask, bits - 8, 8);
    DigitsAppend(bytes, 8, mask % 256);
    Recombine(mask, 8);
    ShlSum(mask % 256, Shl(mask / 256, 8), 8 * |bytes|);
    ShlShl(mask / 256, 8, 8 * |bytes|);
  }

  lemma {:induction false} IndexIs(src: seq<Byte>, stride: nat, mx: int, mn: int, i: nat)
    requires i < 16 && forall i :: 0 <= i < 16 ==> i * stride < |src|
    requires mn <= mx && forall i :: 0 <= i < 16 ==> mn <= Strided(src, stride)[i] <= mx
    ensures 0 <= i * stride < |src|
    ensures LinearIndex(mx - mn, src[i * stride] * 7 + (Bias(mx - mn) - mn * 7)) < 8
    ensures FormatIndex(LinearIndex(mx - mn, src[i * stride] * 7 + (Bias(mx - mn) - mn * 7))) == Indices(Strided(src, stride), mx, mn)[i] < 8
  {
    assert Strided(src, stride)[i] == src[i * stride];
  }

  /** Lines 712-744: choose and pack the indices. */
  method EmitIndices(dest: array<Byte>, src: seq<Byte>, stride: nat, mx: int, mn: int)
    requires dest.Length >= 8 && forall i :: 0 <= i < 16 ==> i * stride < |src|
    requires mn <= mx && forall i :: 0 <= i < 16 ==> mn <= Strided(src, stride)[i] <= mx
    modifies dest
    ensures dest[..2] == old(dest[..2]) && dest[8..] == old(dest[8..])
    ensures LittleEndian(dest[2..8]) == Digits(Indices(Strided(src, stride), mx, mn), 3)
  {
    hide Digits, Pow2, Shl, Or, LittleEndian, LinearIndex, FormatIndex, Indices, Strided, Bias;
    ghost var alphas := Strided(src, stride);
    var dist := mx - mn;
    var bias := Bias(dist) - mn * 7;
    var bits, mask, out := 0, 0, 2;
    ghost var indices, total, bytes := Indices(alphas, mx, mn), 0, [];
    StartPacking();
    for i := 0 to 16
      invariant forall k :: 0 <= k < dest.Length && !(2 <= k < out) ==> dest[k] == old(dest[k])
      invariant 2 <= out && 3 * i == 8 * (out - 2) + bits && 0 <= bits < 8
      invariant 0 <= mask < Pow2(bits)
      invariant |bytes| == out - 2 && forall k :: 0 <= k < |bytes| ==> dest[2 + k] == bytes[k]
      invariant total == Digits(indices[..i], 3) == LittleEndian(bytes) + Shl(mask, 8 * |bytes|)
    {
      IndexIs(src, stride, mx, mn, i);
      var ind := FormatIndex(LinearIndex(dist, src[i * stride] * 7 + bias));
      DigitsAppend(indices[..i], 3, ind);
      assert indices[..i] + [ind] == indices[..i + 1];
      PushIndex(LittleEndian(bytes), out - 2, mask, bits, total, i, ind);
      total := total + Shl(ind, 3 * i);
      mask := Or(mask, Shl(ind, bits));
      bits := bits + 3;
      if bits >= 8 {
        FlushByte(bytes, mask, bits, total);
        bytes := bytes + [mask % 256];
        dest[out] := mask % 256;
        out := out + 1;
        mask := mask / 256;
        bits := bits - 8;
      }
    }
    assert indices[..16] == indices && dest[2..8] == bytes;
    NothingPending(mask);
  }

  /** Lines 690-745. */
  method CompressAlpha(dest: array<Byte>, src: seq<Byte>, stride: nat)
    requires dest.Length >= 8 && forall i :: 0 <= i < 16 ==> i * stride < |src|
    modifies dest
    ensures Encodes(dest[..8], Strided(src, stride)) && dest[8..] == old(dest[8..])
  {
    var mx, mn := FindExtremes(src, stride);
    dest[0], dest[1] := mx, mn;
    assert mn <= Strided(src, stride)[0] <= mx;
    EmitIndices(dest, src, stride, mx, mn);
    assert dest[..2][0] == mx && dest[..2][1] == mn && dest[..8][2..] == dest[2..8];
  }

  lemma {:induction false} StartPacking()
    ensures Digits([], 3) == 0 && LittleEndian([]) == 0 && Pow2(0) == 1 && Shl(0, 8 * 0) == 0
  {
  }

  lemma {:induction false} NothingPending(mask: nat)
    requires mask < Pow2(0)
    ensures mask == 0 && Shl(mask, 48) == 0
  {
    ShlZero(48);
  }

  // ---------------------------------------------------------------- the decoder

  /** `static_cast<signed char>` of a byte. */
  function AsSigned(b: Byte): int { if b < 128 then b else b - 256 }

  function Endpoint(data: nat, k: nat, signed: bool): int
    requires k < 2
  {
    var b: Byte := Shr(data, 8 * k) % 256;
    if signed then AsSigned(b) else b
  }

  /** Lines 142-145. */
  function IndexOf(data: nat, i: nat): (r: nat)
    ensures r < 8
  {
    ReadField(data, 3 * i + 16, 3);
    Recombine(Shr(data, 3 * i + 16), 3);
    assert Pow2(3) == 8;
    Shr(And(data, Shl(7, 3 * i + 16)), 3 * i + 16)
  }

  /** The value texel `i` decodes to, before it is stored as a byte. */
  function DecodedAlpha(data: nat, signed: bool, i: nat): int {
    Level(Endpoint(data, 0, signed), Endpoint(data, 1, signed), signed, IndexOf(data, i))
  }

  /** Storing texel `i` into one channel of a pixel. */
  function PutChannel(data: nat, signed: bool, channel: nat): (nat, seq<Byte>) -> seq<Byte> {
    (t: nat, px: seq<Byte>) => if channel < |px| then px[channel := DecodedAlpha(data, signed, t) % 256] else px
  }

  /** Lines 111-139. */
  method DecodeChannel(data: nat, dst: array<seq<Byte>>, win: Window, channel: nat, signed: bool)
    requires Fits(win, dst.Length) && forall p :: 0 <= p < dst.Length ==> channel < |dst[p]|
    modifies dst
    ensures dst[..] == Painted(old(dst[..]), win, PutChannel(data, signed, channel), 16)
  {
    hide Painted, DecodedAlpha, IndexOf, Level, Endpoint;
    ghost var before, put := dst[..], PutChannel(data, signed, channel);
    var c := Levels(Endpoint(data, 0, signed), Endpoint(data, 1, signed), signed);
    PaintNone(before, win, put);
    var j := 0;
    while j < 4 && win.y + j < win.height
      invariant 0 <= j <= 4
      invariant dst[..] == Painted(before, win, put, 4 * j)
    {
      var i := 0;
      while i < 4 && win.x + i < win.width
        invariant 0 <= i <= 4
        invariant dst[..] == Painted(before, win, put, 4 * j + i)
      {
        PaintOne(before, win, put, i, j);
        var p := Pixel(win, i, j);
        assert dst[..][p] == before[p];
        LevelsDecode(data, signed, 4 * j + i);
        dst[p] := dst[p][channel := c[IndexOf(data, 4 * j + i)] % 256];
        i := i + 1;
      }
      PaintSkip(before, win, put, 4 * j + i, 4 * (j + 1));
      j := j + 1;
    }
    PaintSkip(before, win, put, 4 * j, 16);
  }

  /** Lines 122-132. */
  method Levels(c0: int, c1: int, signed: bool) returns (c: seq<int>)
    ensures |c| == 8 && forall i :: 0 <= i < 8 ==> c[i] == Level(c0, c1, signed, i)
  {
    c := [c0, c1, 0, 0, 0, 0, 0, 0];
    if c0 > c1 {
      for i := 2 to 8
        invariant |c| == 8 && forall k :: 0 <= k < i ==> c[k] == Level(c0, c1, signed, k)
      {
        c := c[i := Quotient((8 - i) * c0 + (i - 1) * c1, 7)];
      }
    } else {
      for i := 2 to 6
        invariant |c| == 8 && forall k :: 0 <= k < i ==> c[k] == Level(c0, c1, signed, k)
      {
        c := c[i := Quotient((6 - i) * c0 + (i - 1) * c1, 5)];
      }
      c := c[6 := if signed then -128 else 0][7 := if signed then 127 else 255];
    }
  }

  lemma {:induction false} LevelsDecode(data: nat, signed: bool, t: nat)
    ensures DecodedAlpha(data, signed, t)
            == Level(Endpoint(data, 0, signed), Endpoint(data, 1, signed), signed, IndexOf(data, t))
  {
  }

  // ---------------------------------------------------------------- encoder against decoder

  /** The decoder finds the encoder's extremes and indices where the encoder put them. */
  lemma {:induction false} DecoderReadsBlock(block: seq<Byte>, alphas: seq<Byte>, i: nat)
    requires Encodes(block, alphas) && i < 16
    ensures var data := LittleEndian(block);
            && Endpoint(data, 0, false) == block[0] && Endpoint(data, 1, false) == block[1]
            && IndexOf(data, i) == AlphaIndex(block[0], block[1], alphas[i])
  {
    hide Shr, Shl, Low, And, Digits, Pow2, AlphaIndex;
    var data, indices := LittleEndian(block), Indices(alphas, block[0], block[1]);
    ThreeParts(block);
    DigitsRead(indices, 3, i) by { assert Pow2(3) == 8 by { ThreePower(); } }
    ShrShr(data, 16, 3 * i);
    ReadField(data, 3 * i + 16, 3);
    assert Pow2(3) == 8 by { ThreePower(); }
  }

  lemma {:induction false} ThreePower() ensures Pow2(3) == 8 {}

  /** The two extremes lie in the low bytes, and everything else above them. */
  lemma {:induction false} ThreeParts(block: seq<Byte>)
    requires |block| == 8
    ensures var data := LittleEndian(block);
            && Endpoint(data, 0, false) == block[0] && Endpoint(data, 1, false) == block[1]
            && Shr(data, 16) == LittleEndian(block[2..])
  {
    hide Shr, Shl, Low, Pow2;
    var data := LittleEndian(block);
    var tail := block[1..];
    assert tail[1..] == block[2..];
    PowByte();
    Split(block[0], Digits(tail, 8), 8);
    Split(block[1], Digits(tail[1..], 8), 8);
    ByteSplit(data);
    ByteSplit(Digits(tail, 8));
    ShrShr(data, 8, 8);
    NoShift(data);
  }

  /**
    Encoding sixteen alphas and decoding the block gives every texel a level at least distance from
    its source among the levels the decoder has; exactly the source when the alphas span at most 7,
    and within half of the largest step otherwise.
   */
  lemma {:induction false} AlphaRoundTrip(block: seq<Byte>, alphas: seq<Byte>, i: nat)
    requires Encodes(block, alphas) && i < 16
    ensures var data := LittleEndian(block);
            var v := DecodedAlpha(data, false, i);
            var mx: int, mn: int := block[0], block[1];
            && 0 <= v < 256
            && (forall j: nat :: j < 8 ==>
                  Abs(v - alphas[i]) <= Abs(Level(Endpoint(data, 0, false), Endpoint(data, 1, false), false, j) - alphas[i]))
            && (mx - mn <= 7 ==> v == alphas[i])
            && 2 * Abs(v - alphas[i]) <= (mx - mn + 6) / 7
  {
    DecoderReadsBlock(block, alphas, i);
    ChosenIsNearest(block[0], block[1], alphas[i]);
    LevelInRange(block[0], block[1], AlphaIndex(block[0], block[1], alphas[i]));
  }

  lemma {:induction false} LevelInRange(c0: Byte, c1: Byte, i: nat)
    requires i < 8
    ensures 0 <= Level(c0, c1, false, i) < 256
  {
    if i >= 2 {
      assert c0 > c1 ==> 0 <= (8 - i) * c0 + (i - 1) * c1 <= (8 - i) * 255 + (i - 1) * 255;
      assert c0 <= c1 && i < 6 ==> 0 <= (6 - i) * c0 + (i - 1) * c1 <= (6 - i) * 255 + (i - 1) * 255;
    }
  }
}
