/**
  Log entries of the profiler: a 64-bit word holding a kind, a 14-bit timer index and the low 48 bits
  of a tick counter.
 */
module ProfileEntry {
  import opened Bits

  const Leave: nat := 0
  const Enter: nat := 1
  /** Kinds from here on open and close nothing; 3 marks GPU times. */
  const Meta: nat := 2

  const TickSpan: int := 0x1_0000_0000_0000
  const WordSpan: int := 0x1_0000_0000_0000_0000

  function LogType(e: nat): nat { And(Shr(And(e, Shl(Pow2(2) - 1, 62)), 62), Pow2(2) - 1) }

  function TimerIndex(e: nat): nat { And(Shr(e, 48), Pow2(14) - 1) }

  function LogTick(e: nat): nat { And(e, Pow2(48) - 1) }

  function MakeLogIndex(begin: nat, token: nat, tick: nat): (e: nat) {
    Or(Or(And(tick, Pow2(48) - 1), Shl(And(token, Pow2(14) - 1), 48)), Low(Shl(begin, 62), 64))
  }

  /** Both shifts drop everything above the tick; the difference is a signed word, shifted back down. */
  function TickDifference(start: nat, end: nat): (d: int) {
    var difference := (Low(Shl(end, 16), 64) - Low(Shl(start, 16), 64)) % WordSpan;
    (if difference < WordSpan / 2 then difference else difference - WordSpan) / 65536
  }

  // ---------------------------------------------------------------- packing

  lemma {:induction false} ReadsFields(e: nat)
    ensures LogType(e) == Field(e, 62, 2) && TimerIndex(e) == Field(e, 48, 14) && LogTick(e) == Low(e, 48)
  {
    hide And, Shl, Shr, Low, Pow2;
    ReadField(e, 62, 2);
    AndMask(Field(e, 62, 2), 2);
    LowLow(Shr(e, 62), 2, 2);
    AndMask(Shr(e, 48), 14);
    AndMask(e, 48);
  }

  /** The three parts sit side by side. */
  lemma {:induction false} PackedSum(begin: nat, token: nat, tick: nat)
    requires begin < Pow2(2)
    ensures MakeLogIndex(begin, token, tick)
            == Low(tick, 48) + Shl(Low(token, 14) + Shl(begin, 14), 48)
  {
    hide And, Shl, Shr, Low, Pow2, Or;
    AndMask(tick, 48);
    AndMask(token, 14);
    Recombine(tick, 48);
    Recombine(token, 14);
    ShlBound(begin, 2, 62);
    assert Shl(begin, 62) < Pow2(64) by { assert Pow2(62) > 0; }
    LowSmall(Shl(begin, 62), 64);
    OrDisjoint(Low(tick, 48), Low(token, 14), 48);
    ShlBound(Low(token, 14), 14, 48);
    assert Low(tick, 48) + Shl(Low(token, 14), 48) < Pow2(62);
    OrDisjoint(Low(tick, 48) + Shl(Low(token, 14), 48), begin, 62);
    ShlSum(Low(token, 14), Shl(begin, 14), 48);
    ShlShl(begin, 14, 48);
  }

  /** What `MicroProfileMakeLogIndex` asserts, and the tick: every part is read back. */
  lemma {:induction false} PackedReadsBack(begin: nat, token: nat, tick: nat)
    requires begin < Pow2(2)
    ensures var e := MakeLogIndex(begin, token, tick);
            LogType(e) == begin && TimerIndex(e) == Low(token, 14) && LogTick(e) == Low(tick, 48)
  {
    hide And, Shl, Shr, Low, Pow2, Or, MakeLogIndex, LogType, TimerIndex, LogTick;
    var e := MakeLogIndex(begin, token, tick);
    ReadsFields(e);
    PackedSum(begin, token, tick);
    Recombine(tick, 48);
    Recombine(token, 14);
    var upper := Low(token, 14) + Shl(begin, 14);
    Split(Low(tick, 48), upper, 48);
    Split(Low(token, 14), begin, 14);
    ShrShr(e, 48, 14);
    LowSmall(begin, 2);
  }

  /** Every 64-bit word is the packing of its parts. */
  lemma {:induction false} WordIsPacked(e: nat)
    requires e < Pow2(64)
    ensures LogType(e) < Pow2(2) && MakeLogIndex(LogType(e), TimerIndex(e), LogTick(e)) == e
  {
    hide And, Shl, Shr, Low, Pow2, Or, MakeLogIndex, LogType, TimerIndex, LogTick;
    ReadsFields(e);
    ShrBound(e, 2, 62);
    LowSmall(Shr(e, 62), 2);
    PackedSum(Shr(e, 62), TimerIndex(e), LogTick(e));
    LowLow(e, 48, 48);
    LowLow(Shr(e, 48), 14, 14);
    Recombine(e, 48);
    Recombine(Shr(e, 48), 14);
    ShrShr(e, 48, 14);
  }

  // ---------------------------------------------------------------- durations

  lemma {:induction false} Spans()
    ensures Pow2(16) == 65536 && Pow2(48) == TickSpan && Pow2(64) == WordSpan
  {
    assert Pow2(8) == 256;
    assert Pow2(16) == 65536;
    assert Pow2(24) == 0x100_0000;
    assert Pow2(32) == 0x1_0000_0000;
    assert Pow2(40) == 0x100_0000_0000;
    assert Pow2(48) == TickSpan;
    assert Pow2(56) == 0x100_0000_0000_0000;
  }

  lemma {:induction false} LowIsRemainder(a: nat)
    ensures Low(a, 48) == a % TickSpan
  {
    hide Shl, Shr, Low, Pow2;
    Recombine(a, 48);
    ShlIsProduct(Shr(a, 48), 48);
    Spans();
    var q := Shr(a, 48);
    assert a == Low(a, 48) + q * TickSpan;
  }

  /** Shifted up by 16 in a 64-bit word, only the tick is left. */
  lemma {:induction false} ShiftedTick(e: nat)
    ensures Low(Shl(e, 16), 64) == 65536 * Low(e, 48) && 0 <= Low(e, 48) < TickSpan
  {
    hide Shl, Shr, Low, Pow2;
    Recombine(e, 48);
    ShlSum(Low(e, 48), Shl(Shr(e, 48), 48), 16);
    ShlShl(Shr(e, 48), 48, 16);
    ShlBound(Low(e, 48), 48, 16);
    Spans();
    Split(Shl(Low(e, 48), 16), Shr(e, 48), 64);
    ShlIsProduct(Low(e, 48), 16);
  }

  /** The difference depends on the 48-bit ticks alone, as the signed remainder of their distance. */
  lemma {:induction false} DifferenceIsSigned(start: nat, end: nat)
    ensures var r := (Low(end, 48) - Low(start, 48)) % TickSpan;
            TickDifference(start, end) == if r < TickSpan / 2 then r else r - TickSpan
  {
    hide Shl, Low;
    ShiftedTick(start);
    ShiftedTick(end);
    var s, t := Low(start, 48), Low(end, 48);
    var r := (t - s) % TickSpan;
    assert r == if t >= s then t - s else t - s + TickSpan;
    assert (65536 * t - 65536 * s) % WordSpan == 65536 * r;
  }

  /**
    A duration measured between two ticks of a counter that never wraps is exact, wherever the 48-bit
    ticks wrap, exactly when it is shorter than half the span of the stored ticks.
   */
  lemma {:induction false} DurationExact(start: nat, end: nat, from: nat, to: nat)
    requires LogTick(start) == Low(from, 48) && LogTick(end) == Low(to, 48)
    ensures TickDifference(start, end) == to - from <==> -TickSpan / 2 <= to - from < TickSpan / 2
  {
    hide Low, LogType, TimerIndex, LogTick, TickDifference;
    ReadsFields(start);
    ReadsFields(end);
    DifferenceIsSigned(start, end);
    LowIsRemainder(from);
    LowIsRemainder(to);
    RemainderOfDifference(from, to);
  }

  lemma {:induction false} RemainderOfDifference(from: nat, to: nat)
    ensures (to % TickSpan - from % TickSpan) % TickSpan == (to - from) % TickSpan
  {
    var a, b := to / TickSpan, from / TickSpan;
    assert to - from == (to % TickSpan - from % TickSpan) + (a - b) * TickSpan;
    RemainderShift(to % TickSpan - from % TickSpan, a - b);
  }

  lemma {:induction false} RemainderShift(x: int, k: int)
    ensures (x + k * TickSpan) % TickSpan == x % TickSpan
  {
    var q := x / TickSpan;
    var y := x + k * TickSpan;
    assert y == x % TickSpan + (q + k) * TickSpan;
    assert y == y % TickSpan + (y / TickSpan) * TickSpan;
  }
}
