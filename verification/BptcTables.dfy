/**
  The partition and anchor tables of BC6H and BC7, lines 178-254 and 1013-1184 of
  externals/bc_decoder/bc_decoder.cpp (the two-subset tables appear there twice, with equal contents).
 */
module BptcTables {

  /** Four texels of a row. */
  datatype Quad = Q(a: nat, b: nat, c: nat, d: nat)

  /** The subset of each texel, row by row, and the anchor texels of subsets 1 and 2. */
  datatype Shape = Shape(r0: Quad, r1: Quad, r2: Quad, r3: Quad, anchor1: nat, anchor2: nat)

  function Cell(q: Quad, i: nat): nat {
    if i == 0 then q.a else if i == 1 then q.b else if i == 2 then q.c else q.d
  }

  function Subset(s: Shape, t: nat): nat {
    if t < 4 then Cell(s.r0, t) else if t < 8 then Cell(s.r1, t - 4)
    else if t < 12 then Cell(s.r2, t - 8) else Cell(s.r3, t - 12)
  }

  predicate Below(q: Quad, n: nat) { q.a < n && q.b < n && q.c < n && q.d < n }

  predicate AllBelow(s: Shape, n: nat) { Below(s.r0, n) && Below(s.r1, n) && Below(s.r2, n) && Below(s.r3, n) }

  /** Texel 0 is in subset 0 and the anchor of subset 1 is in subset 1. */
  predicate Sound2(s: Shape) {
    AllBelow(s, 2) && Subset(s, 0) == 0 && 0 < s.anchor1 < 16 && Subset(s, s.anchor1) == 1
  }

  predicate Sound3(s: Shape) {
    && AllBelow(s, 3) && Subset(s, 0) == 0 && 0 < s.anchor1 < 16 && Subset(s, s.anchor1) == 1
    && 0 < s.anchor2 < 16 && Subset(s, s.anchor2) == 2
  }

  function Two0(i: nat): Shape {
    if i == 0 then Shape(Q(0, 0, 1, 1), Q(0, 0, 1, 1), Q(0, 0, 1, 1), Q(0, 0, 1, 1), 15, 0)
    else if i == 1 then Shape(Q(0, 0, 0, 1), Q(0, 0, 0, 1), Q(0, 0, 0, 1), Q(0, 0, 0, 1), 15, 0)
    else if i == 2 then Shape(Q(0, 1, 1, 1), Q(0, 1, 1, 1), Q(0, 1, 1, 1), Q(0, 1, 1, 1), 15, 0)
    else if i == 3 then Shape(Q(0, 0, 0, 1), Q(0, 0, 1, 1), Q(0, 0, 1, 1), Q(0, 1, 1, 1), 15, 0)
    else if i == 4 then Shape(Q(0, 0, 0, 0), Q(0, 0, 0, 1), Q(0, 0, 0, 1), Q(0, 0, 1, 1), 15, 0)
    else if i == 5 then Shape(Q(0, 0, 1, 1), Q(0, 1, 1, 1), Q(0, 1, 1, 1), Q(1, 1, 1, 1), 15, 0)
    else if i == 6 then Shape(Q(0, 0, 0, 1), Q(0, 0, 1, 1), Q(0, 1, 1, 1), Q(1, 1, 1, 1), 15, 0)
    else Shape(Q(0, 0, 0, 0), Q(0, 0, 0, 1), Q(0, 0, 1, 1), Q(0, 1, 1, 1), 15, 0)
  }

  function Two1(i: nat): Shape {
    if i == 0 then Shape(Q(0, 0, 0, 0), Q(0, 0, 0, 0), Q(0, 0, 0, 1), Q(0, 0, 1, 1), 15, 0)
    else if i == 1 then Shape(Q(0, 0, 1, 1), Q(0, 1, 1, 1), Q(1, 1, 1, 1), Q(1, 1, 1, 1), 15, 0)
    else if i == 2 then Shape(Q(0, 0, 0, 0), Q(0, 0, 0, 1), Q(0, 1, 1, 1), Q(1, 1, 1, 1), 15, 0)
    else if i == 3 then Shape(Q(0, 0, 0, 0), Q(0, 0, 0, 0), Q(0, 0, 0, 1), Q(0, 1, 1, 1), 15, 0)
    else if i == 4 then Shape(Q(0, 0, 0, 1), Q(0, 1, 1, 1), Q(1, 1, 1, 1), Q(1, 1, 1, 1), 15, 0)
    else if i == 5 then Shape(Q(0, 0, 0, 0), Q(0, 0, 0, 0), Q(1, 1, 1, 1), Q(1, 1, 1, 1), 15, 0)
    else if i == 6 then Shape(Q(0, 0, 0, 0), Q(1, 1, 1, 1), Q(1, 1, 1, 1), Q(1, 1, 1, 1), 15, 0)
    else Shape(Q(0, 0, 0, 0), Q(0, 0, 0, 0), Q(0, 0, 0, 0), Q(1, 1, 1, 1), 15, 0)
  }

  function Two2(i: nat): Shape {
    if i == 0 then Shape(Q(0, 0, 0, 0), Q(1, 0, 0, 0), Q(1, 1, 1, 0), Q(1, 1, 1, 1), 15, 0)
    else if i == 1 then Shape(Q(0, 1, 1, 1), Q(0, 0, 0, 1), Q(0, 0, 0, 0), Q(0, 0, 0, 0), 2, 0)
    else if i == 2 then Shape(Q(0, 0, 0, 0), Q(0, 0, 0, 0), Q(1, 0, 0, 0), Q(1, 1, 1, 0), 8, 0)
    else if i == 3 then Shape(Q(0, 1, 1, 1), Q(0, 0, 1, 1), Q(0, 0, 0, 1), Q(0, 0, 0, 0), 2, 0)
    else if i == 4 then Shape(Q(0, 0, 1, 1), Q(0, 0, 0, 1), Q(0, 0, 0, 0), Q(0, 0, 0, 0), 2, 0)
    else if i == 5 then Shape(Q(0, 0, 0, 0), Q(1, 0, 0, 0), Q(1, 1, 0, 0), Q(1, 1, 1, 0), 8, 0)
    else if i == 6 then Shape(Q(0, 0, 0, 0), Q(0, 0, 0, 0), Q(1, 0, 0, 0), Q(1, 1, 0, 0), 8, 0)
    else Shape(Q(0, 1, 1, 1), Q(0, 0, 1, 1), Q(0, 0, 1, 1), Q(0, 0, 0, 1), 15, 0)
  }

  function Two3(i: nat): Shape {
    if i == 0 then Shape(Q(0, 0, 1, 1), Q(0, 0, 0, 1), Q(0, 0, 0, 1), Q(0, 0, 0, 0), 2, 0)
    else if i == 1 then Shape(Q(0, 0, 0, 0), Q(1, 0, 0, 0), Q(1, 0, 0, 0), Q(1, 1, 0, 0), 8, 0)
    else if i == 2 then Shape(Q(0, 1, 1, 0), Q(0, 1, 1, 0), Q(0, 1, 1, 0), Q(0, 1, 1, 0), 2, 0)
    else if i == 3 then Shape(Q(0, 0, 1, 1), Q(0, 1, 1, 0), Q(0, 1, 1, 0), Q(1, 1, 0, 0), 2, 0)
    else if i == 4 then Shape(Q(0, 0, 0, 1), Q(0, 1, 1, 1), Q(1, 1, 1, 0), Q(1, 0, 0, 0), 8, 0)
    else if i == 5 then Shape(Q(0, 0, 0, 0), Q(1, 1, 1, 1), Q(1, 1, 1, 1), Q(0, 0, 0, 0), 8, 0)
    else if i == 6 then Shape(Q(0, 1, 1, 1), Q(0, 0, 0, 1), Q(1, 0, 0, 0), Q(1, 1, 1, 0), 2, 0)
    else Shape(Q(0, 0, 1, 1), Q(1, 0, 0, 1), Q(1, 0, 0, 1), Q(1, 1, 0, 0), 2, 0)
  }

  function Two4(i: nat): Shape {
    if i == 0 then Shape(Q(0, 1, 0, 1), Q(0, 1, 0, 1), Q(0, 1, 0, 1), Q(0, 1, 0, 1), 15, 0)
    else if i == 1 then Shape(Q(0, 0, 0, 0), Q(1, 1, 1, 1), Q(0, 0, 0, 0), Q(1, 1, 1, 1), 15, 0)
    else if i == 2 then Shape(Q(0, 1, 0, 1), Q(1, 0, 1, 0), Q(0, 1, 0, 1), Q(1, 0, 1, 0), 6, 0)
    else if i == 3 then Shape(Q(0, 0, 1, 1), Q(0, 0, 1, 1), Q(1, 1, 0, 0), Q(1, 1, 0, 0), 8, 0)
    else if i == 4 then Shape(Q(0, 0, 1, 1), Q(1, 1, 0, 0), Q(0, 0, 1, 1), Q(1, 1, 0, 0), 2, 0)
    else if i == 5 then Shape(Q(0, 1, 0, 1), Q(0, 1, 0, 1), Q(1, 0, 1, 0), Q(1, 0, 1, 0), 8, 0)
    else if i == 6 then Shape(Q(0, 1, 1, 0), Q(1, 0, 0, 1), Q(0, 1, 1, 0), Q(1, 0, 0, 1), 15, 0)
    else Shape(Q(0, 1, 0, 1), Q(1, 0, 1, 0), Q(1, 0, 1, 0), Q(0, 1, 0, 1), 15, 0)
  }

  function Two5(i: nat): Shape {
    if i == 0 then Shape(Q(0, 1, 1, 1), Q(0, 0, 1, 1), Q(1, 1, 0, 0), Q(1, 1, 1, 0), 2, 0)
    else if i == 1 then Shape(Q(0, 0, 0, 1), Q(0, 0, 1, 1), Q(1, 1, 0, 0), Q(1, 0, 0, 0), 8, 0)
    else if i == 2 then Shape(Q(0, 0, 1, 1), Q(0, 0, 1, 0), Q(0, 1, 0, 0), Q(1, 1, 0, 0), 2, 0)
    else if i == 3 then Shape(Q(0, 0, 1, 1), Q(1, 0, 1, 1), Q(1, 1, 0, 1), Q(1, 1, 0, 0), 2, 0)
    else if i == 4 then Shape(Q(0, 1, 1, 0), Q(1, 0, 0, 1), Q(1, 0, 0, 1), Q(0, 1, 1, 0), 2, 0)
    else if i == 5 then Shape(Q(0, 0, 1, 1), Q(1, 1, 0, 0), Q(1, 1, 0, 0), Q(0, 0, 1, 1), 15, 0)
    else if i == 6 then Shape(Q(0, 1, 1, 0), Q(0, 1, 1, 0), Q(1, 0, 0, 1), Q(1, 0, 0, 1), 15, 0)
    else Shape(Q(0, 0, 0, 0), Q(0, 1, 1, 0), Q(0, 1, 1, 0), Q(0, 0, 0, 0), 6, 0)
  }

  function Two6(i: nat): Shape {
    if i == 0 then Shape(Q(0, 1, 0, 0), Q(1, 1, 1, 0), Q(0, 1, 0, 0), Q(0, 0, 0, 0), 6, 0)
    else if i == 1 then Shape(Q(0, 0, 1, 0), Q(0, 1, 1, 1), Q(0, 0, 1, 0), Q(0, 0, 0, 0), 2, 0)
    else if i == 2 then Shape(Q(0, 0, 0, 0), Q(0, 0, 1, 0), Q(0, 1, 1, 1), Q(0, 0, 1, 0), 6, 0)
    else if i == 3 then Shape(Q(0, 0, 0, 0), Q(0, 1, 0, 0), Q(1, 1, 1, 0), Q(0, 1, 0, 0), 8, 0)
    else if i == 4 then Shape(Q(0, 1, 1, 0), Q(1, 1, 0, 0), Q(1, 0, 0, 1), Q(0, 0, 1, 1), 15, 0)
    else if i == 5 then Shape(Q(0, 0, 1, 1), Q(0, 1, 1, 0), Q(1, 1, 0, 0), Q(1, 0, 0, 1), 15, 0)
    else if i == 6 then Shape(Q(0, 1, 1, 0), Q(0, 0, 1, 1), Q(1, 0, 0, 1), Q(1, 1, 0, 0), 2, 0)
    else Shape(Q(0, 0, 1, 1), Q(1, 0, 0, 1), Q(1, 1, 0, 0), Q(0, 1, 1, 0), 2, 0)
  }

  function Two7(i: nat): Shape {
    if i == 0 then Shape(Q(0, 1, 1, 0), Q(1, 1, 0, 0), Q(1, 1, 0, 0), Q(1, 0, 0, 1), 15, 0)
    else if i == 1 then Shape(Q(0, 1, 1, 0), Q(0, 0, 1, 1), Q(0, 0, 1, 1), Q(1, 0, 0, 1), 15, 0)
    else if i == 2 then Shape(Q(0, 1, 1, 1), Q(1, 1, 1, 0), Q(1, 0, 0, 0), Q(0, 0, 0, 1), 15, 0)
    else if i == 3 then Shape(Q(0, 0, 0, 1), Q(1, 0, 0, 0), Q(1, 1, 1, 0), Q(0, 1, 1, 1), 15, 0)
    else if i == 4 then Shape(Q(0, 0, 0, 0), Q(1, 1, 1, 1), Q(0, 0, 1, 1), Q(0, 0, 1, 1), 15, 0)
    else if i == 5 then Shape(Q(0, 0, 1, 1), Q(0, 0, 1, 1), Q(1, 1, 1, 1), Q(0, 0, 0, 0), 2, 0)
    else if i == 6 then Shape(Q(0, 0, 1, 0), Q(0, 0, 1, 0), Q(1, 1, 1, 0), Q(1, 1, 1, 0), 2, 0)
    else Shape(Q(0, 1, 0, 0), Q(0, 1, 0, 0), Q(0, 1, 1, 1), Q(0, 1, 1, 1), 15, 0)
  }

  function Three0(i: nat): Shape {
    if i == 0 then Shape(Q(0, 0, 1, 1), Q(0, 0, 1, 1), Q(0, 2, 2, 1), Q(2, 2, 2, 2), 3, 15)
    else if i == 1 then Shape(Q(0, 0, 0, 1), Q(0, 0, 1, 1), Q(2, 2, 1, 1), Q(2, 2, 2, 1), 3, 8)
    else if i == 2 then Shape(Q(0, 0, 0, 0), Q(2, 0, 0, 1), Q(2, 2, 1, 1), Q(2, 2, 1, 1), 15, 8)
    else if i == 3 then Shape(Q(0, 2, 2, 2), Q(0, 0, 2, 2), Q(0, 0, 1, 1), Q(0, 1, 1, 1), 15, 3)
    else if i == 4 then Shape(Q(0, 0, 0, 0), Q(0, 0, 0, 0), Q(1, 1, 2, 2), Q(1, 1, 2, 2), 8, 15)
    else if i == 5 then Shape(Q(0, 0, 1, 1), Q(0, 0, 1, 1), Q(0, 0, 2, 2), Q(0, 0, 2, 2), 3, 15)
    else if i == 6 then Shape(Q(0, 0, 2, 2), Q(0, 0, 2, 2), Q(1, 1, 1, 1), Q(1, 1, 1, 1), 15, 3)
    else Shape(Q(0, 0, 1, 1), Q(0, 0, 1, 1), Q(2, 2, 1, 1), Q(2, 2, 1, 1), 15, 8)
  }

  function Three1(i: nat): Shape {
    if i == 0 then Shape(Q(0, 0, 0, 0), Q(0, 0, 0, 0), Q(1, 1, 1, 1), Q(2, 2, 2, 2), 8, 15)
    else if i == 1 then Shape(Q(0, 0, 0, 0), Q(1, 1, 1, 1), Q(1, 1, 1, 1), Q(2, 2, 2, 2), 8, 15)
    else if i == 2 then Shape(Q(0, 0, 0, 0), Q(1, 1, 1, 1), Q(2, 2, 2, 2), Q(2, 2, 2, 2), 6, 15)
    else if i == 3 then Shape(Q(0, 0, 1, 2), Q(0, 0, 1, 2), Q(0, 0, 1, 2), Q(0, 0, 1, 2), 6, 15)
    else if i == 4 then Shape(Q(0, 1, 1, 2), Q(0, 1, 1, 2), Q(0, 1, 1, 2), Q(0, 1, 1, 2), 6, 15)
    else if i == 5 then Shape(Q(0, 1, 2, 2), Q(0, 1, 2, 2), Q(0, 1, 2, 2), Q(0, 1, 2, 2), 5, 15)
    else if i == 6 then Shape(Q(0, 0, 1, 1), Q(0, 1, 1, 2), Q(1, 1, 2, 2), Q(1, 2, 2, 2), 3, 15)
    else Shape(Q(0, 0, 1, 1), Q(2, 0, 0, 1), Q(2, 2, 0, 0), Q(2, 2, 2, 0), 3, 8)
  }

  function Three2(i: nat): Shape {
    if i == 0 then Shape(Q(0, 0, 0, 1), Q(0, 0, 1, 1), Q(0, 1, 1, 2), Q(1, 1, 2, 2), 3, 15)
    else if i == 1 then Shape(Q(0, 1, 1, 1), Q(0, 0, 1, 1), Q(2, 0, 0, 1), Q(2, 2, 0, 0), 3, 8)
    else if i == 2 then Shape(Q(0, 0, 0, 0), Q(1, 1, 2, 2), Q(1, 1, 2, 2), Q(1, 1, 2, 2), 8, 15)
    else if i == 3 then Shape(Q(0, 0, 2, 2), Q(0, 0, 2, 2), Q(0, 0, 2, 2), Q(1, 1, 1, 1), 15, 3)
    else if i == 4 then Shape(Q(0, 1, 1, 1), Q(0, 1, 1, 1), Q(0, 2, 2, 2), Q(0, 2, 2, 2), 3, 15)
    else if i == 5 then Shape(Q(0, 0, 0, 1), Q(0, 0, 0, 1), Q(2, 2, 2, 1), Q(2, 2, 2, 1), 3, 8)
    else if i == 6 then Shape(Q(0, 0, 0, 0), Q(0, 0, 1, 1), Q(0, 1, 2, 2), Q(0, 1, 2, 2), 6, 15)
    else Shape(Q(0, 0, 0, 0), Q(1, 1, 0, 0), Q(2, 2, 1, 0), Q(2, 2, 1, 0), 10, 8)
  }

  function Three3(i: nat): Shape {
    if i == 0 then Shape(Q(0, 1, 2, 2), Q(0, 1, 2, 2), Q(0, 0, 1, 1), Q(0, 0, 0, 0), 5, 3)
    else if i == 1 then Shape(Q(0, 0, 1, 2), Q(0, 0, 1, 2), Q(1, 1, 2, 2), Q(2, 2, 2, 2), 8, 15)
    else if i == 2 then Shape(Q(0, 1, 1, 0), Q(1, 2, 2, 1), Q(1, 2, 2, 1), Q(0, 1, 1, 0), 8, 6)
    else if i == 3 then Shape(Q(0, 0, 0, 0), Q(0, 1, 1, 0), Q(1, 2, 2, 1), Q(1, 2, 2, 1), 6, 10)
    else if i == 4 then Shape(Q(0, 0, 2, 2), Q(1, 1, 0, 2), Q(1, 1, 0, 2), Q(0, 0, 2, 2), 8, 15)
    else if i == 5 then Shape(Q(0, 1, 1, 0), Q(0, 1, 1, 0), Q(2, 0, 0, 2), Q(2, 2, 2, 2), 5, 15)
    else if i == 6 then Shape(Q(0, 0, 1, 1), Q(0, 1, 2, 2), Q(0, 1, 2, 2), Q(0, 0, 1, 1), 15, 10)
    else Shape(Q(0, 0, 0, 0), Q(2, 0, 0, 0), Q(2, 2, 1, 1), Q(2, 2, 2, 1), 15, 8)
  }

  function Three4(i: nat): Shape {
    if i == 0 then Shape(Q(0, 0, 0, 0), Q(0, 0, 0, 2), Q(1, 1, 2, 2), Q(1, 2, 2, 2), 8, 15)
    else if i == 1 then Shape(Q(0, 2, 2, 2), Q(0, 0, 2, 2), Q(0, 0, 1, 2), Q(0, 0, 1, 1), 15, 3)
    else if i == 2 then Shape(Q(0, 0, 1, 1), Q(0, 0, 1, 2), Q(0, 0, 2, 2), Q(0, 2, 2, 2), 3, 15)
    else if i == 3 then Shape(Q(0, 1, 2, 0), Q(0, 1, 2, 0), Q(0, 1, 2, 0), Q(0, 1, 2, 0), 5, 10)
    else if i == 4 then Shape(Q(0, 0, 0, 0), Q(1, 1, 1, 1), Q(2, 2, 2, 2), Q(0, 0, 0, 0), 6, 10)
    else if i == 5 then Shape(Q(0, 1, 2, 0), Q(1, 2, 0, 1), Q(2, 0, 1, 2), Q(0, 1, 2, 0), 10, 8)
    else if i == 6 then Shape(Q(0, 1, 2, 0), Q(2, 0, 1, 2), Q(1, 2, 0, 1), Q(0, 1, 2, 0), 8, 9)
    else Shape(Q(0, 0, 1, 1), Q(2, 2, 0, 0), Q(1, 1, 2, 2), Q(0, 0, 1, 1), 15, 10)
  }

  function Three5(i: nat): Shape {
    if i == 0 then Shape(Q(0, 0, 1, 1), Q(1, 1, 2, 2), Q(2, 2, 0, 0), Q(0, 0, 1, 1), 15, 6)
    else if i == 1 then Shape(Q(0, 1, 0, 1), Q(0, 1, 0, 1), Q(2, 2, 2, 2), Q(2, 2, 2, 2), 3, 15)
    else if i == 2 then Shape(Q(0, 0, 0, 0), Q(0, 0, 0, 0), Q(2, 1, 2, 1), Q(2, 1, 2, 1), 15, 8)
    else if i == 3 then Shape(Q(0, 0, 2, 2), Q(1, 1, 2, 2), Q(0, 0, 2, 2), Q(1, 1, 2, 2), 5, 15)
    else if i == 4 then Shape(Q(0, 0, 2, 2), Q(0, 0, 1, 1), Q(0, 0, 2, 2), Q(0, 0, 1, 1), 15, 3)
    else if i == 5 then Shape(Q(0, 2, 2, 0), Q(1, 2, 2, 1), Q(0, 2, 2, 0), Q(1, 2, 2, 1), 15, 6)
    else if i == 6 then Shape(Q(0, 1, 0, 1), Q(2, 2, 2, 2), Q(2, 2, 2, 2), Q(0, 1, 0, 1), 15, 6)
    else Shape(Q(0, 0, 0, 0), Q(2, 1, 2, 1), Q(2, 1, 2, 1), Q(2, 1, 2, 1), 15, 8)
  }

  function Three6(i: nat): Shape {
    if i == 0 then Shape(Q(0, 1, 0, 1), Q(0, 1, 0, 1), Q(0, 1, 0, 1), Q(2, 2, 2, 2), 3, 15)
    else if i == 1 then Shape(Q(0, 2, 2, 2), Q(0, 1, 1, 1), Q(0, 2, 2, 2), Q(0, 1, 1, 1), 15, 3)
    else if i == 2 then Shape(Q(0, 0, 0, 2), Q(1, 1, 1, 2), Q(0, 0, 0, 2), Q(1, 1, 1, 2), 5, 15)
    else if i == 3 then Shape(Q(0, 0, 0, 0), Q(2, 1, 1, 2), Q(2, 1, 1, 2), Q(2, 1, 1, 2), 5, 15)
    else if i == 4 then Shape(Q(0, 2, 2, 2), Q(0, 1, 1, 1), Q(0, 1, 1, 1), Q(0, 2, 2, 2), 5, 15)
    else if i == 5 then Shape(Q(0, 0, 0, 2), Q(1, 1, 1, 2), Q(1, 1, 1, 2), Q(0, 0, 0, 2), 8, 15)
    else if i == 6 then Shape(Q(0, 1, 1, 0), Q(0, 1, 1, 0), Q(0, 1, 1, 0), Q(2, 2, 2, 2), 5, 15)
    else Shape(Q(0, 0, 0, 0), Q(0, 0, 0, 0), Q(2, 1, 1, 2), Q(2, 1, 1, 2), 10, 15)
  }

  function Three7(i: nat): Shape {
    if i == 0 then Shape(Q(0, 1, 1, 0), Q(0, 1, 1, 0), Q(2, 2, 2, 2), Q(2, 2, 2, 2), 5, 15)
    else if i == 1 then Shape(Q(0, 0, 2, 2), Q(0, 0, 1, 1), Q(0, 0, 1, 1), Q(0, 0, 2, 2), 10, 15)
    else if i == 2 then Shape(Q(0, 0, 2, 2), Q(1, 1, 2, 2), Q(1, 1, 2, 2), Q(0, 0, 2, 2), 8, 15)
    else if i == 3 then Shape(Q(0, 0, 0, 0), Q(0, 0, 0, 0), Q(0, 0, 0, 0), Q(2, 1, 1, 2), 13, 15)
    else if i == 4 then Shape(Q(0, 0, 0, 2), Q(0, 0, 0, 1), Q(0, 0, 0, 2), Q(0, 0, 0, 1), 15, 3)
    else if i == 5 then Shape(Q(0, 2, 2, 2), Q(1, 2, 2, 2), Q(0, 2, 2, 2), Q(1, 2, 2, 2), 12, 15)
    else if i == 6 then Shape(Q(0, 1, 0, 1), Q(2, 2, 2, 2), Q(2, 2, 2, 2), Q(2, 2, 2, 2), 3, 15)
    else Shape(Q(0, 1, 1, 1), Q(2, 0, 1, 1), Q(2, 2, 0, 1), Q(2, 2, 2, 0), 3, 8)
  }

  /** Two subsets. */
  function Partition2(p: nat): Shape
    requires p < 64
  {
    if p < 8 then Two0(p)
    else if p < 16 then Two1(p - 8)
    else if p < 24 then Two2(p - 16)
    else if p < 32 then Two3(p - 24)
    else if p < 40 then Two4(p - 32)
    else if p < 48 then Two5(p - 40)
    else if p < 56 then Two6(p - 48)
    else Two7(p - 56)
  }

  /** Three subsets. */
  function Partition3(p: nat): Shape
    requires p < 64
  {
    if p < 8 then Three0(p)
    else if p < 16 then Three1(p - 8)
    else if p < 24 then Three2(p - 16)
    else if p < 32 then Three3(p - 24)
    else if p < 40 then Three4(p - 32)
    else if p < 48 then Three5(p - 40)
    else if p < 56 then Three6(p - 48)
    else Three7(p - 56)
  }

  lemma {:induction false} Two0Ok(i: nat)
    requires i < 8
    ensures Sound2(Two0(i))
  {}

  lemma {:induction false} Two1Ok(i: nat)
    requires i < 8
    ensures Sound2(Two1(i))
  {}

  lemma {:induction false} Two2Ok(i: nat)
    requires i < 8
    ensures Sound2(Two2(i))
  {}

  lemma {:induction false} Two3Ok(i: nat)
    requires i < 8
    ensures Sound2(Two3(i))
  {}

  lemma {:induction false} Two4Ok(i: nat)
    requires i < 8
    ensures Sound2(Two4(i))
  {}

  lemma {:induction false} Two5Ok(i: nat)
    requires i < 8
    ensures Sound2(Two5(i))
  {}

  lemma {:induction false} Two6Ok(i: nat)
    requires i < 8
    ensures Sound2(Two6(i))
  {}

  lemma {:induction false} Two7Ok(i: nat)
    requires i < 8
    ensures Sound2(Two7(i))
  {}

  lemma {:induction false} Three0Ok(i: nat)
    requires i < 8
    ensures Sound3(Three0(i))
  {}

  lemma {:induction false} Three1Ok(i: nat)
    requires i < 8
    ensures Sound3(Three1(i))
  {}

  lemma {:induction false} Three2Ok(i: nat)
    requires i < 8
    ensures Sound3(Three2(i))
  {}

  lemma {:induction false} Three3Ok(i: nat)
    requires i < 8
    ensures Sound3(Three3(i))
  {}

  lemma {:induction false} Three4Ok(i: nat)
    requires i < 8
    ensures Sound3(Three4(i))
  {}

  lemma {:induction false} Three5Ok(i: nat)
    requires i < 8
    ensures Sound3(Three5(i))
  {}

  lemma {:induction false} Three6Ok(i: nat)
    requires i < 8
    ensures Sound3(Three6(i))
  {}

  lemma {:induction false} Three7Ok(i: nat)
    requires i < 8
    ensures Sound3(Three7(i))
  {}

  /** Each anchor lies in its own subset. */
  lemma {:induction false} Partition2Ok(p: nat)
    requires p < 64
    ensures Sound2(Partition2(p))
  {
    hide Sound2, Two0, Two1, Two2, Two3, Two4, Two5, Two6, Two7;
    if p < 8 { Two0Ok(p); }
    else if p < 16 { Two1Ok(p - 8); }
    else if p < 24 { Two2Ok(p - 16); }
    else if p < 32 { Two3Ok(p - 24); }
    else if p < 40 { Two4Ok(p - 32); }
    else if p < 48 { Two5Ok(p - 40); }
    else if p < 56 { Two6Ok(p - 48); }
    else { Two7Ok(p - 56); }
  }

  /** Likewise for three subsets. */
  lemma {:induction false} Partition3Ok(p: nat)
    requires p < 64
    ensures Sound3(Partition3(p))
  {
    hide Sound3, Three0, Three1, Three2, Three3, Three4, Three5, Three6, Three7;
    if p < 8 { Three0Ok(p); }
    else if p < 16 { Three1Ok(p - 8); }
    else if p < 24 { Three2Ok(p - 16); }
    else if p < 32 { Three3Ok(p - 24); }
    else if p < 40 { Three4Ok(p - 32); }
    else if p < 48 { Three5Ok(p - 40); }
    else if p < 56 { Three6Ok(p - 48); }
    else { Three7Ok(p - 56); }
  }

  lemma {:induction false} SubsetBelow(s: Shape, n: nat, t: nat)
    requires AllBelow(s, n) && t < 16
    ensures Subset(s, t) < n
  {}
}
