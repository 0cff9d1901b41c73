/**
  Writing a 4x4 block into an image, clipped at the image's edges.

  The destination is an array of pixels that starts at the block's first texel; a row further down is
  `width` pixels further on, as every caller of the decoders passes a pitch of `bpp * width`.
 */
module Blit {

  datatype Window = Window(x: nat, y: nat, width: nat, height: nat)

  /** Texel (i, j) of the block lies in the image. */
  predicate Inside(win: Window, i: nat, j: nat) {
    i < 4 && j < 4 && win.x + i < win.width && win.y + j < win.height
  }

  function RowStart(win: Window, j: nat): nat
    requires j < 4
  {
    if j == 0 then 0 else RowStart(win, j - 1) + win.width
  }

  function Pixel(win: Window, i: nat, j: nat): nat
    requires j < 4
  {
    RowStart(win, j) + i
  }

  /** Every texel that is inside has a pixel. */
  ghost predicate Fits(win: Window, length: nat) {
    forall i: nat, j: nat :: Inside(win, i, j) ==> Pixel(win, i, j) < length
  }

  /** The block row that pixel `p` would lie in. */
  function RowOf(win: Window, p: nat): nat {
    if p < win.width then 0 else if p < 2 * win.width then 1 else if p < 3 * win.width then 2 else 3
  }

  /** The number of texel `p` shows, in raster order, or 16 when it shows none. */
  function TexelAt(win: Window, p: nat): nat {
    var j := RowOf(win, p);
    var s := RowStart(win, j);
    if s <= p && Inside(win, p - s, j) then 4 * j + (p - s) else 16
  }

  /** `before` after the first `upto` texels were put. */
  function Painted<T>(before: seq<T>, win: Window, put: (nat, T) -> T, upto: nat): (after: seq<T>)
  {
    seq(|before|, p requires 0 <= p < |before| =>
      if TexelAt(win, p) < upto then put(TexelAt(win, p), before[p]) else before[p])
  }

  /** Rows of the block lie one image row apart. */
  lemma {:induction false} PixelPlace(win: Window, i: nat, j: nat)
    requires j < 4
    ensures Pixel(win, i, j) == j * win.width + i
  {
    assert RowStart(win, 1) == win.width && RowStart(win, 2) == 2 * win.width && RowStart(win, 3) == 3 * win.width;
  }

  lemma {:induction false} PixelShowsTexel(win: Window, i: nat, j: nat)
    requires Inside(win, i, j)
    ensures TexelAt(win, Pixel(win, i, j)) == 4 * j + i
  {
    assert RowStart(win, 1) == win.width;
    assert RowStart(win, 2) == 2 * win.width;
    assert RowStart(win, 3) == 3 * win.width;
    assert RowOf(win, Pixel(win, i, j)) == j;
  }

  lemma {:induction false} TexelShownOnce(win: Window, p: nat, t: nat)
    requires t < 16 && TexelAt(win, p) == t
    ensures Inside(win, t % 4, t / 4) && p == Pixel(win, t % 4, t / 4)
  {
    var j := RowOf(win, p);
    assert j == t / 4 && p - RowStart(win, j) == t % 4;
  }

  lemma {:induction false} PaintNone<T>(before: seq<T>, win: Window, put: (nat, T) -> T)
    ensures Painted(before, win, put, 0) == before
  {
    assert forall p: nat :: TexelAt(win, p) >= 0;
  }

  /** Putting one texel that is inside. */
  lemma {:induction false} PaintOne<T>(before: seq<T>, win: Window, put: (nat, T) -> T, i: nat, j: nat)
    requires Inside(win, i, j) && Fits(win, |before|)
    ensures var p := Pixel(win, i, j);
            && p < |before| && Painted(before, win, put, 4 * j + i)[p] == before[p]
            && Painted(before, win, put, 4 * j + i + 1)
               == Painted(before, win, put, 4 * j + i)[p := put(4 * j + i, before[p])]
  {
    var t, q := 4 * j + i, Pixel(win, i, j);
    PixelShowsTexel(win, i, j);
    var a, b := Painted(before, win, put, t), Painted(before, win, put, t + 1);
    forall p | 0 <= p < |before|
      ensures b[p] == a[q := put(t, before[q])][p]
    {
      if TexelAt(win, p) == t { TexelShownOnce(win, p, t); }
    }
  }

  /** Texels outside leave no trace. */
  lemma {:induction false} PaintSkip<T>(before: seq<T>, win: Window, put: (nat, T) -> T, from: nat, to: nat)
    requires from <= to <= 16 && forall t :: from <= t < to ==> !Inside(win, t % 4, t / 4)
    ensures Painted(before, win, put, from) == Painted(before, win, put, to)
  {
    forall p | 0 <= p < |before|
      ensures Painted(before, win, put, from)[p] == Painted(before, win, put, to)[p]
    {
      var t := TexelAt(win, p);
      if from <= t < to { TexelShownOnce(win, p, t); }
    }
  }

  /** A painted block shows every texel that is inside at its own pixel and changes no other pixel. */
  lemma {:induction false} PaintedShows<T>(before: seq<T>, win: Window, put: (nat, T) -> T)
    requires Fits(win, |before|)
    ensures var after := Painted(before, win, put, 16);
            && |after| == |before|
            && (forall i: nat, j: nat :: Inside(win, i, j) ==>
                  after[Pixel(win, i, j)] == put(4 * j + i, before[Pixel(win, i, j)]))
            && (forall p :: 0 <= p < |before| && after[p] != before[p] ==>
                  exists i: nat, j: nat :: Inside(win, i, j) && p == Pixel(win, i, j))
  {
    var after := Painted(before, win, put, 16);
    forall i: nat, j: nat | Inside(win, i, j)
      ensures after[Pixel(win, i, j)] == put(4 * j + i, before[Pixel(win, i, j)])
    {
      PixelShowsTexel(win, i, j);
    }
    forall p | 0 <= p < |before| && after[p] != before[p]
      ensures exists i: nat, j: nat :: Inside(win, i, j) && p == Pixel(win, i, j)
    {
      TexelShownOnce(win, p, TexelAt(win, p));
    }
  }
}
