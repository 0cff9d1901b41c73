/**
  The demangler's bump allocator: a list of blocks, the first of which is filled from its start on.
  Requests too large for a block get one of their own, placed behind the first.
 */
module BumpAllocator {
  import opened Bits

  const HeaderSize: nat := 16
  const AllocSize: nat := 4096
  const UsableAllocSize: nat := AllocSize - HeaderSize
  const Null: int := -1
  /** The block inside the allocator object itself; every other block comes from `malloc`. */
  const InitialBuffer: nat := 0

  /** A block's header, and the size of the memory it heads. */
  datatype Block = Block(next: int, current: nat, size: nat)

  type Heap = map<nat, Block>

  /** Bytes handed out: `size` bytes from `offset` bytes behind the header of `block` on. */
  datatype Region = Region(block: nat, offset: nat, size: nat)

  // ---------------------------------------------------------------- rounding

  /** `(N + 15u) & ~15u`: the mask is a 32-bit constant, widened to 64 bits with zeros. */
  function Rounded(n: nat): nat { And(Low(n + 15, 64), Shl(Pow2(28) - 1, 4)) }

  lemma {:induction false} SixteenTimes(a: nat)
    ensures Shl(a, 4) == 16 * a
  {
    ShlIsProduct(a, 4);
    PowersUsed();
  }

  lemma {:induction false} PowersUsed()
    ensures Pow2(4) == 16 && Pow2(28) == 0x1000_0000 && Pow2(64) == 0x1_0000_0000_0000_0000
  {
    assert Pow2(8) == 256;
    assert Pow2(14) == 16384;
    assert Pow2(21) == 0x20_0000;
    assert Pow2(28) == 0x1000_0000;
    assert Pow2(35) == 0x8_0000_0000;
    assert Pow2(42) == 0x400_0000_0000;
    assert Pow2(49) == 0x2_0000_0000_0000;
    assert Pow2(56) == 0x100_0000_0000_0000;
  }

  /** Rounding gives a multiple of sixteen below 2^32 ... */
  lemma {:induction false} RoundedIsField(n: nat)
    ensures Rounded(n) == 16 * ((Low(n + 15, 64) / 16) % 0x1000_0000)
  {
    hide And, Shl, Shr, Low, Pow2;
    var x := Low(n + 15, 64);
    AndField(x, 4, 28);
    SixteenTimes(Field(x, 4, 28));
    var q := Shr(x, 4);
    Recombine(x, 4);
    SixteenTimes(q);
    PowersUsed();
    assert q == x / 16;
    Recombine(q, 28);
    var top := Shr(q, 28);
    ShlTwentyEight(top);
    assert q == Low(q, 28) + 0x1000_0000 * top;
  }

  lemma {:induction false} ShlTwentyEight(a: nat)
    ensures Shl(a, 28) == 0x1000_0000 * a
  {
    ShlIsProduct(a, 28);
    PowersUsed();
  }

  /** ... that covers the request exactly when the request is at most 2^32 - 16 bytes. */
  lemma {:induction false} RoundedCovers(n: nat)
    requires n < Pow2(64)
    ensures Rounded(n) % 16 == 0
    ensures n <= Rounded(n) <==> n <= 0xFFFF_FFF0
    ensures n <= 0xFFFF_FFF0 ==> Rounded(n) < n + 16
  {
    hide Pow2, Rounded, Low;
    RoundedIsField(n);
    PowersUsed();
    if n + 15 < Pow2(64) {
      LowSmall(n + 15, 64);
      Quotients((n + 15) / 16, n);
    } else {
      assert (Low(n + 15, 64) / 16) % 0x1000_0000 <= 0xFFF_FFFF;
    }
  }

  /** The first request of the failing kind: 4 GiB are rounded to nothing. */
  lemma {:induction false} FourGiBRoundedToNothing()
    ensures Rounded(0x1_0000_0000) == 0
  {
    hide Pow2, Rounded, Low;
    PowersUsed();
    LowSmall(0x1_0000_000F, 64);
    RoundedIsField(0x1_0000_0000);
  }

  lemma {:induction false} Quotients(q: nat, n: nat)
    requires 16 * q <= n + 15 < 16 * q + 16
    ensures var m := q % 0x1000_0000;
            (n <= 16 * m <==> n <= 0xFFFF_FFF0) && (n <= 0xFFFF_FFF0 ==> 16 * m < n + 16)
  {
    var m := q % 0x1000_0000;
    if n <= 0xFFFF_FFF0 {
      assert m == q;
    } else {
      assert m <= 0xFFF_FFFF;
    }
  }

  // ---------------------------------------------------------------- lists of blocks

  /** Following `next` from `p` on visits `order` and ends. */
  ghost predicate Linked(heap: Heap, p: int, order: seq<nat>)
    decreases |order|
  {
    if order == [] then p == Null
    else p == order[0] && order[0] in heap && Linked(heap, heap[order[0]].next, order[1..])
  }

  ghost predicate Distinct(order: seq<nat>) { forall i, j :: 0 <= i < j < |order| ==> order[i] != order[j] }

  ghost predicate Covers(heap: Heap, order: seq<nat>) { forall b :: b in heap <==> b in order }

  /** A list does not notice changes to blocks it does not hold. */
  lemma {:induction false} LinkedElsewhere(heap: Heap, other: Heap, p: int, order: seq<nat>)
    requires Linked(heap, p, order)
    requires forall b :: b in order ==> b in heap && b in other && other[b].next == heap[b].next
    ensures Linked(other, p, order)
    decreases |order|
  {
    if order != [] {
      LinkedElsewhere(heap, other, heap[order[0]].next, order[1..]);
    }
  }

  // ---------------------------------------------------------------- what was handed out

  /** The part of a block that may have been handed out: all of an oversized one. */
  function Filled(b: Block): int { if b.size == AllocSize then b.current else b.size - HeaderSize }

  ghost predicate WellFormed(b: Block) {
    && b.size >= AllocSize && b.current % 16 == 0 && HeaderSize + b.current <= b.size
    && (b.size > AllocSize ==> b.current == 0)
  }

  /** The region lies in its own block, behind the header, on a multiple of sixteen. */
  ghost predicate Placed(heap: Heap, r: Region) {
    && r.block in heap && HeaderSize + r.offset + r.size <= heap[r.block].size
    && r.offset % 16 == 0 && r.offset + r.size <= Filled(heap[r.block])
  }

  predicate Apart(r: Region, s: Region) {
    r.block != s.block || r.offset + r.size <= s.offset || s.offset + s.size <= r.offset
  }

  ghost predicate Sound(heap: Heap, given: seq<Region>) {
    && (forall b :: b in heap ==> WellFormed(heap[b]))
    && (forall i :: 0 <= i < |given| ==> Placed(heap, given[i]))
    && (forall i, j :: 0 <= i < j < |given| ==> Apart(given[i], given[j]))
  }

  /** The first block was filled further. */
  lemma {:induction false} BumpSound(heap: Heap, given: seq<Region>, b: nat, n: nat)
    requires Sound(heap, given) && b in heap && heap[b].size == AllocSize && n % 16 == 0
    requires heap[b].current + n <= UsableAllocSize
    ensures Sound(heap[b := heap[b].(current := heap[b].current + n)], given + [Region(b, heap[b].current, n)])
  {
    var after, r := heap[b := heap[b].(current := heap[b].current + n)], Region(b, heap[b].current, n);
    forall i | 0 <= i < |given| ensures Placed(after, given[i]) && Apart(given[i], r) {
      assert Placed(heap, given[i]);
    }
  }

  /** A block of its own. */
  lemma {:induction false} MassiveSound(heap: Heap, given: seq<Region>, head: nat, b: nat, next: int, n: nat)
    requires Sound(heap, given) && b !in heap && head in heap && n > UsableAllocSize && n % 16 == 0
    ensures Sound(heap[b := Block(next, 0, HeaderSize + n)][head := heap[head].(next := b)],
                  given + [Region(b, 0, n)])
  {
    var after := heap[b := Block(next, 0, HeaderSize + n)][head := heap[head].(next := b)];
    forall i | 0 <= i < |given| ensures Placed(after, given[i]) && Apart(given[i], Region(b, 0, n)) {
      assert Placed(heap, given[i]);
    }
  }

  /** A new first block. */
  lemma {:induction false} GrowSound(heap: Heap, given: seq<Region>, b: nat, next: int)
    requires Sound(heap, given) && b !in heap
    ensures Sound(heap[b := Block(next, 0, AllocSize)], given)
  {
    var after := heap[b := Block(next, 0, AllocSize)];
    forall i | 0 <= i < |given| ensures Placed(after, given[i]) {
      assert Placed(heap, given[i]);
    }
  }

  /** Over all resets: no block was freed twice, and no block that is in use was freed. */
  ghost predicate FreedForGood(freed: seq<nat>, heap: Heap, nextBlock: nat) {
    Distinct(freed) && forall b :: b in freed ==> b !in heap && b < nextBlock && b != InitialBuffer
  }

  lemma {:induction false} FreedStays(freed: seq<nat>, heap: Heap, nextBlock: nat, after: Heap, next: nat)
    requires FreedForGood(freed, heap, nextBlock) && nextBlock <= next
    requires forall b :: b in after ==> b in heap || b >= nextBlock
    ensures FreedForGood(freed, after, next)
  {
  }

  /** A reset frees blocks that were in use, which had therefore not been freed before. */
  lemma {:induction false} ResetFrees(freed: seq<nat>, heap: Heap, nextBlock: nat, order: seq<nat>)
    requires FreedForGood(freed, heap, nextBlock) && Distinct(order)
    requires forall b :: b in order ==> b in heap && b < nextBlock
    ensures FreedForGood(freed + Without(order, InitialBuffer), map[InitialBuffer := Block(Null, 0, AllocSize)], nextBlock)
  {
    FreedOnce(order, InitialBuffer);
    var more := Without(order, InitialBuffer);
    var all := freed + more;
    forall i, j | 0 <= i < j < |all| ensures all[i] != all[j] {
      if i < |freed| <= j {
        assert all[i] in freed && all[j] in more;
      }
    }
  }

  // ---------------------------------------------------------------- the allocator

  class Allocator {
    var blockList: int
    var heap: Heap
    /** Where `malloc` will place the next block; blocks are never placed twice. */
    var nextBlock: nat
    /** Every block `free` was called on, in that order. */
    var freed: seq<nat>
    ghost var order: seq<nat>
    /** Every region handed out since construction or the last reset. */
    ghost var given: seq<Region>

    ghost predicate Valid()
      reads this
    {
      && order != [] && Linked(heap, blockList, order) && Distinct(order) && Covers(heap, order)
      && InitialBuffer in order && heap[order[0]].size == AllocSize
      && (forall b :: b in heap ==> b < nextBlock)
      && Sound(heap, given) && FreedForGood(freed, heap, nextBlock)
    }

    constructor ()
      ensures Valid() && given == [] && freed == [] && order == [InitialBuffer]
    {
      blockList := InitialBuffer;
      heap := map[InitialBuffer := Block(Null, 0, AllocSize)];
      nextBlock, freed, order, given := 1, [], [InitialBuffer], [];
    }

    method Grow()
      requires Valid()
      modifies this`blockList, this`heap, this`nextBlock, this`order
      ensures Valid() && heap[order[0]].current == 0
      ensures order == [old(nextBlock)] + old(order) && old(nextBlock) !in old(order)
    {
      hide Sound, FreedForGood, Linked, Distinct, Covers;
      GrowSound(heap, given, nextBlock, blockList);
      FreedStays(freed, heap, nextBlock, heap[nextBlock := Block(blockList, 0, AllocSize)], nextBlock + 1);
      GrowLinked(heap, blockList, order, nextBlock);
      heap := heap[nextBlock := Block(blockList, 0, AllocSize)];
      order := [nextBlock] + order;
      blockList := nextBlock;
      nextBlock := nextBlock + 1;
    }

    method AllocateMassive(n: nat) returns (r: Region)
      requires Valid() && n > UsableAllocSize && n % 16 == 0
      modifies this`heap, this`nextBlock, this`order, this`given
      ensures Valid() && given == old(given) + [r] && r == Region(old(nextBlock), 0, n)
      ensures order == [old(order[0]), old(nextBlock)] + old(order[1..]) && old(nextBlock) !in old(order)
    {
      hide Sound, Linked, Distinct, Covers, FreedForGood;
      var head, b := blockList, nextBlock;
      FirstBlock(heap, blockList, order);
      assert b !in order by { NotYetPlaced(heap, order, nextBlock); }
      var next := heap[head].next;
      MassiveSound(heap, given, head, b, next, n);
      MassiveLinked(heap, order, b, n);
      FreedStays(freed, heap, b, heap[b := Block(next, 0, HeaderSize + n)][head := heap[head].(next := b)], b + 1);
      heap := heap[b := Block(next, 0, HeaderSize + n)][head := heap[head].(next := b)];
      order := [order[0], b] + order[1..];
      nextBlock := nextBlock + 1;
      r := Region(b, 0, n);
      given := given + [r];
    }

    /**
      A region of the rounded size: behind the others in the first block while they leave it unfilled, else in a new
      block, which becomes the second if the region is too large for a common one and the first otherwise.  All
      regions since the last reset stay in place and apart.
     */
    method Allocate(request: nat) returns (r: Region)
      requires Valid() && request < Pow2(64)
      modifies this`blockList, this`heap, this`nextBlock, this`order, this`given
      ensures Valid() && given == old(given) + [r]
      ensures r.size == Rounded(request)
      ensures request <= r.size <==> request <= 0xFFFF_FFF0
      ensures forall b :: b in old(order) ==> b in order
      ensures old(order[0]) in old(heap)
      ensures var head, unused, full := old(order[0]), old(nextBlock), old(heap)[old(order[0])].current;
              if r.size + full < UsableAllocSize then r == Region(head, full, r.size) && order == old(order)
              else if r.size > UsableAllocSize then r == Region(unused, 0, r.size) && order == [head, unused] + old(order[1..])
              else r == Region(unused, 0, r.size) && order == [unused] + old(order)
    {
      hide Rounded, Sound, Pow2, Linked, Distinct, Covers, FreedForGood;
      RoundedCovers(request);
      FirstBlock(heap, blockList, order);
      var n := Rounded(request);
      if n + heap[blockList].current >= UsableAllocSize {
        if n > UsableAllocSize {
          r := AllocateMassive(n);
          return;
        }
        Grow();
      }
      FirstBlock(heap, blockList, order);
      BumpSound(heap, given, blockList, n);
      var after := heap[blockList := heap[blockList].(current := heap[blockList].current + n)];
      BumpLinked(heap, blockList, order, after);
      FreedStays(freed, heap, nextBlock, after, nextBlock);
      r := Region(blockList, heap[blockList].current, n);
      heap := after;
      given := given + [r];
    }

    /** Frees every block but the initial one, once each, in list order. */
    method Reset()
      requires Valid()
      modifies this
      ensures Valid() && given == [] && order == [InitialBuffer]
      ensures freed == old(freed) + Without(old(order), InitialBuffer)
      ensures nextBlock == old(nextBlock)
    {
      hide Sound, FreedForGood, Linked, Distinct, Covers, Without, StillLinked;
      CoversAll(heap, order, nextBlock);
      ResetFrees(freed, heap, nextBlock, order);
      StartWalk(heap, blockList, order);
      ghost var left := order;
      while blockList != Null
        invariant StillLinked(heap, blockList, left) && nextBlock == old(nextBlock)
        invariant freed + Without(left, InitialBuffer) == old(freed) + Without(old(order), InitialBuffer)
        decreases |left|
      {
        WalkOn(heap, blockList, left);
        var tmp := blockList;
        blockList := heap[tmp].next;
        if tmp != InitialBuffer {
          freed := freed + [tmp];
          heap := heap - {tmp};
        }
        left := left[1..];
      }
      WalkEnds(heap, left, freed);
      blockList := InitialBuffer;
      heap := map[InitialBuffer := Block(Null, 0, AllocSize)];
      order, given := [InitialBuffer], [];
      FreshBlock();
    }
  }

  lemma {:induction false} CoversAll(heap: Heap, order: seq<nat>, nextBlock: nat)
    requires Covers(heap, order) && forall b :: b in heap ==> b < nextBlock
    requires InitialBuffer in order
    ensures (forall b :: b in order ==> b in heap && b < nextBlock) && nextBlock > InitialBuffer
  {
  }

  /** What is left of a list that is being freed. */
  ghost predicate StillLinked(heap: Heap, p: int, left: seq<nat>) {
    Linked(heap, p, left) && Distinct(left) && forall b :: b in left ==> b in heap
  }

  lemma {:induction false} StartWalk(heap: Heap, p: int, order: seq<nat>)
    requires Linked(heap, p, order) && Distinct(order) && Covers(heap, order)
    ensures StillLinked(heap, p, order)
  {
  }

  lemma {:induction false} WalkOn(heap: Heap, p: int, left: seq<nat>)
    requires StillLinked(heap, p, left) && p != Null
    ensures left != [] && p == left[0] && p in heap
    ensures StillLinked(heap, heap[p].next, left[1..]) && StillLinked(heap - {p}, heap[p].next, left[1..])
    ensures Without(left, InitialBuffer) == (if p == InitialBuffer then [] else [p]) + Without(left[1..], InitialBuffer)
  {
    var rest := left[1..];
    assert left == [left[0]] + rest;
    assert forall i :: 0 <= i < |rest| ==> rest[i] == left[i + 1];
    LinkedElsewhere(heap, heap - {p}, heap[p].next, rest);
  }

  lemma {:induction false} WalkEnds(heap: Heap, left: seq<nat>, freed: seq<nat>)
    requires StillLinked(heap, Null, left)
    ensures left == [] && freed + Without(left, InitialBuffer) == freed
  {
  }

  lemma {:induction false} FreshBlock()
    ensures var heap: Heap := map[InitialBuffer := Block(Null, 0, AllocSize)];
            && Sound(heap, []) && Linked(heap, InitialBuffer, [InitialBuffer])
            && Distinct([InitialBuffer]) && Covers(heap, [InitialBuffer])
  {
    assert [InitialBuffer][1..] == [];
  }

  function Without(s: seq<nat>, x: nat): seq<nat> {
    if s == [] then [] else (if s[0] == x then [] else [s[0]]) + Without(s[1..], x)
  }

  /** So no block is freed twice, and only the initial one is left. */
  lemma {:induction false} FreedOnce(order: seq<nat>, x: nat)
    requires Distinct(order)
    ensures Distinct(Without(order, x))
    ensures forall b :: b in Without(order, x) <==> b in order && b != x
  {
    if order != [] {
      var rest := order[1..];
      assert order == [order[0]] + rest;
      assert forall i :: 0 <= i < |rest| ==> rest[i] == order[i + 1];
      FreedOnce(rest, x);
      var kept := Without(rest, x);
      forall i, j | 0 <= i < j < |[order[0]] + kept| ensures ([order[0]] + kept)[i] != ([order[0]] + kept)[j] {
        assert kept[j - 1] in rest;
      }
    }
  }

  lemma {:induction false} FirstBlock(heap: Heap, p: int, order: seq<nat>)
    requires Linked(heap, p, order) && order != []
    ensures p == order[0] && order[0] in heap
  {
  }

  lemma {:induction false} NotYetPlaced(heap: Heap, order: seq<nat>, nextBlock: nat)
    requires Covers(heap, order) && forall b :: b in heap ==> b < nextBlock
    ensures nextBlock !in order && nextBlock !in heap
  {
  }

  /** A block put in front. */
  lemma {:induction false} GrowLinked(heap: Heap, p: int, order: seq<nat>, b: nat)
    requires Linked(heap, p, order) && Distinct(order) && Covers(heap, order) && b !in heap
    ensures var after := heap[b := Block(p, 0, AllocSize)];
            && b !in order && Linked(after, b, [b] + order) && Distinct([b] + order) && Covers(after, [b] + order)
  {
    var after := heap[b := Block(p, 0, AllocSize)];
    LinkedElsewhere(heap, after, p, order);
    assert ([b] + order)[1..] == order;
  }

  lemma {:induction false} BumpLinked(heap: Heap, p: int, order: seq<nat>, after: Heap)
    requires Linked(heap, p, order) && Covers(heap, order) && after.Keys == heap.Keys
    requires forall b :: b in heap ==> after[b].next == heap[b].next
    ensures Linked(after, p, order) && Covers(after, order)
  {
    LinkedElsewhere(heap, after, p, order);
  }

  /** A block put in behind the first. */
  lemma {:induction false} MassiveLinked(heap: Heap, order: seq<nat>, b: nat, n: nat)
    requires order != [] && Linked(heap, order[0], order) && Distinct(order) && Covers(heap, order) && b !in order
    ensures order[0] in heap
    ensures var head := order[0];
            var after := heap[b := Block(heap[head].next, 0, HeaderSize + n)][head := heap[head].(next := b)];
            var list := [head, b] + order[1..];
            && Linked(after, head, list) && Distinct(list) && Covers(after, list)
            && forall x :: x in order ==> x in list
  {
    var head, rest := order[0], order[1..];
    var after := heap[b := Block(heap[head].next, 0, HeaderSize + n)][head := heap[head].(next := b)];
    assert forall i :: 0 <= i < |rest| ==> rest[i] == order[i + 1];
    LinkedElsewhere(heap, after, heap[head].next, rest);
    LinkedBehind(after, head, b, rest);
    InsertedSecond(order, b, after, heap);
  }

  lemma {:induction false} LinkedBehind(heap: Heap, head: nat, b: nat, rest: seq<nat>)
    requires head in heap && b in heap && heap[head].next == b && Linked(heap, heap[b].next, rest)
    ensures Linked(heap, head, [head, b] + rest)
  {
    assert ([head, b] + rest)[1..] == [b] + rest;
    assert ([b] + rest)[1..] == rest;
  }

  lemma {:induction false} InsertedSecond(order: seq<nat>, b: nat, heap: Heap, before: Heap)
    requires order != [] && Distinct(order) && b !in order && Covers(before, order)
    requires heap.Keys == before.Keys + {b}
    ensures var after := [order[0], b] + order[1..];
            Distinct(after) && Covers(heap, after) && forall x :: x in order ==> x in after
  {
    var after := [order[0], b] + order[1..];
    assert order == [order[0]] + order[1..];
    forall i, j | 0 <= i < j < |after| ensures after[i] != after[j] {
      if i != 1 && j != 1 { assert order[if i == 0 then 0 else i - 1] != order[j - 1]; }
    }
  }
}
