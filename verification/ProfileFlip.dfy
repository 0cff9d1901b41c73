/**
  The replay as the profiler runs it: fixed stacks indexed by a depth, tables updated in place, and a
  flip that drives ring and replay together.
 */
module ProfileFlip {
  import opened ProfileEntry
  import opened ProfileTicks
  import opened ProfileRing

  const StackMax: nat := 32

  // ---------------------------------------------------------------- the guard

  /** The guard of the replay: an enter entry that finds every slot of the scope stack taken. */
  predicate Refused(log: Log, a: Accounts, k: nat)
    requires k < |log|
  {
    LogType(log[k]) == Enter && |a.stack| >= StackMax
  }

  /** How many entries of a run are replayed before the guard ends it. */
  function Kept(log: Log, groupOf: seq<nat>, a: Accounts, ks: seq<nat>): (n: nat)
    requires Ready(log, groupOf, a) && InLog(log, ks)
    ensures n <= |ks|
    decreases |ks|
  {
    if ks == [] || Refused(log, a, ks[0]) then 0 else 1 + Kept(log, groupOf, Step(log, groupOf, a, ks[0]), ks[1..])
  }

  /** One run as it is replayed, with its rest dropped when the guard fires. */
  function ReplayGuarded(log: Log, groupOf: seq<nat>, a: Accounts, ks: seq<nat>): (r: Accounts)
    requires Ready(log, groupOf, a) && InLog(log, ks)
    ensures Ready(log, groupOf, r)
  {
    Replay(log, groupOf, a, ks[..Kept(log, groupOf, a, ks)])
  }

  /** The guard leaves the loop over one run only; the second run of a range is begun all the same. */
  function ReplayRuns(log: Log, groupOf: seq<nat>, a: Accounts, range: Range): (r: Accounts)
    requires Ready(log, groupOf, a) && InLog(log, Run(range.start0, range.end0)) && InLog(log, Run(range.start1, range.end1))
    ensures Ready(log, groupOf, r)
  {
    var b := ReplayGuarded(log, groupOf, a, Run(range.start0, range.end0));
    ReplayGuarded(log, groupOf, b, Run(range.start1, range.end1))
  }

  lemma {:induction false} ReplayFirst(log: Log, groupOf: seq<nat>, a: Accounts, ks: seq<nat>, n: nat)
    requires Ready(log, groupOf, a) && InLog(log, ks) && 0 < n <= |ks|
    ensures Replay(log, groupOf, a, ks[..n]) == Replay(log, groupOf, Step(log, groupOf, a, ks[0]), ks[1..][..n - 1])
  {
    hide Ready, Step, Replay;
    assert [ks[0]][..0] == [];
    ReplayNone(log, groupOf, a, []);
    ReplayLast(log, groupOf, a, [ks[0]]);
    assert ks[..n] == [ks[0]] + ks[1..][..n - 1];
    ReplayConcat(log, groupOf, a, [ks[0]], ks[1..][..n - 1]);
  }

  /**
    What a run leaves behind: no entry before the first refused one is dropped and none from it on is
    replayed; once the guard has fired, all the slots of the stack are taken.
   */
  lemma {:induction false} GuardFires(log: Log, groupOf: seq<nat>, a: Accounts, ks: seq<nat>)
    requires Ready(log, groupOf, a) && InLog(log, ks) && |a.stack| <= StackMax
    ensures var n := Kept(log, groupOf, a, ks);
            && (forall m :: 0 <= m < n ==> !Refused(log, Replay(log, groupOf, a, ks[..m]), ks[m]))
            && (forall m :: 0 <= m <= n ==> |Replay(log, groupOf, a, ks[..m]).stack| <= StackMax)
            && (n < |ks| ==> LogType(log[ks[n]]) == Enter && |ReplayGuarded(log, groupOf, a, ks).stack| == StackMax)
    decreases |ks|
  {
    hide Ready, Step, Replay, LogType;
    ReplayNone(log, groupOf, a, ks[..0]);
    if ks != [] && !Refused(log, a, ks[0]) {
      var b, rest, n := Step(log, groupOf, a, ks[0]), ks[1..], Kept(log, groupOf, a, ks);
      StackGrowsByOne(log, groupOf, a, ks[0]);
      GuardFires(log, groupOf, b, rest);
      forall m | 0 < m <= n
        ensures Replay(log, groupOf, a, ks[..m]) == Replay(log, groupOf, b, rest[..m - 1])
      {
        ReplayFirst(log, groupOf, a, ks, m);
      }
      assert forall m :: 0 < m < n ==> ks[m] == rest[m - 1];
    }
  }

  lemma {:induction false} StackGrowsByOne(log: Log, groupOf: seq<nat>, a: Accounts, k: nat)
    requires Ready(log, groupOf, a) && k < |log|
    ensures var r := Step(log, groupOf, a, k);
            if LogType(log[k]) == Enter then |r.stack| == |a.stack| + 1 else |r.stack| <= |a.stack|
  {
    hide LogType, TimerIndex, TickDifference, Word, Tally, Add;
  }

  // ---------------------------------------------------------------- when the stacks suffice

  /** The slot of `nChildTickStack` that an entry stores to; -1 for none. */
  function ChildStore(log: Log, a: Accounts, k: nat): int
    requires k < |log|
  {
    if LogType(log[k]) == Enter then |a.stack| + 1
    else if LogType(log[k]) == Leave then |a.stack| - 1
    else -1
  }

  /** The slot of `nStack` that an entry stores to; -1 for none. */
  function ScopeStore(log: Log, a: Accounts, k: nat): int
    requires k < |log|
  {
    if LogType(log[k]) == Enter then |a.stack| else -1
  }

  /** Every entry that is replayed stores inside both arrays, which have `StackMax` slots each. */
  ghost predicate StoresInside(log: Log, groupOf: seq<nat>, a: Accounts, ks: seq<nat>)
    requires Ready(log, groupOf, a) && InLog(log, ks)
  {
    forall n :: 0 <= n < Kept(log, groupOf, a, ks) ==>
      var b := Replay(log, groupOf, a, ks[..n]);
      ChildStore(log, b, ks[n]) < StackMax && ScopeStore(log, b, ks[n]) < StackMax
  }

  /** No prefix of the segment leaves `StackMax` scopes open. */
  ghost predicate Shallow(log: Log, groupOf: seq<nat>, a: Accounts, ks: seq<nat>)
    requires Ready(log, groupOf, a) && InLog(log, ks)
  {
    forall n :: 0 <= n <= |ks| ==> |Replay(log, groupOf, a, ks[..n]).stack| < StackMax
  }

  /** No entry that is replayed brings the open scopes up to `StackMax`. */
  ghost predicate NeverFills(log: Log, groupOf: seq<nat>, a: Accounts, ks: seq<nat>)
    requires Ready(log, groupOf, a) && InLog(log, ks)
  {
    forall n :: 0 <= n < Kept(log, groupOf, a, ks) ==>
      |Replay(log, groupOf, a, ks[..n]).stack| < StackMax ==>
      |Step(log, groupOf, Replay(log, groupOf, a, ks[..n]), ks[n]).stack| < StackMax
  }

  /**
    For every log and all books: the stores stay inside both stacks exactly when no entry fills the
    stack.  The guard comes one scope too late: it refuses the scope after that.
   */
  lemma {:induction false} StoresInsideExactly(log: Log, groupOf: seq<nat>, a: Accounts, ks: seq<nat>)
    requires Ready(log, groupOf, a) && InLog(log, ks) && |a.stack| <= StackMax
    ensures StoresInside(log, groupOf, a, ks) <==> NeverFills(log, groupOf, a, ks)
  {
    hide Ready, Step, Replay, LogType, Kept;
    GuardFires(log, groupOf, a, ks);
    forall n | 0 <= n < Kept(log, groupOf, a, ks)
      ensures var b := Replay(log, groupOf, a, ks[..n]);
              ChildStore(log, b, ks[n]) < StackMax && ScopeStore(log, b, ks[n]) < StackMax
              <==> (|b.stack| < StackMax ==> |Step(log, groupOf, b, ks[n]).stack| < StackMax)
    {
      var b := Replay(log, groupOf, a, ks[..n]);
      assert !Refused(log, b, ks[n]) && |b.stack| <= StackMax;
      StackGrowsByOne(log, groupOf, b, ks[n]);
    }
  }

  /** From books with a free slot: exactly when no prefix of the segment leaves 32 scopes open; then nothing is dropped. */
  lemma {:induction false} ShallowExactly(log: Log, groupOf: seq<nat>, a: Accounts, ks: seq<nat>)
    requires Ready(log, groupOf, a) && InLog(log, ks) && |a.stack| < StackMax
    ensures StoresInside(log, groupOf, a, ks) <==> Shallow(log, groupOf, a, ks)
    ensures Shallow(log, groupOf, a, ks) ==> Kept(log, groupOf, a, ks) == |ks|
  {
    hide Ready, Step, Replay, LogType, Kept, StoresInside;
    StoresInsideExactly(log, groupOf, a, ks);
    GuardFires(log, groupOf, a, ks);
    var n := Kept(log, groupOf, a, ks);
    if NeverFills(log, groupOf, a, ks) {
      StaysBelow(log, groupOf, a, ks, n);
    }
    if Shallow(log, groupOf, a, ks) {
      forall m | 0 <= m < n
        ensures |Step(log, groupOf, Replay(log, groupOf, a, ks[..m]), ks[m]).stack| < StackMax
      {
        assert ks[..m + 1][..m] == ks[..m];
        ReplayLast(log, groupOf, a, ks[..m + 1]);
      }
    }
  }

  lemma {:induction false} StaysBelow(log: Log, groupOf: seq<nat>, a: Accounts, ks: seq<nat>, n: nat)
    requires Ready(log, groupOf, a) && InLog(log, ks) && |a.stack| < StackMax
    requires NeverFills(log, groupOf, a, ks) && n <= Kept(log, groupOf, a, ks)
    ensures forall m :: 0 <= m <= n ==> |Replay(log, groupOf, a, ks[..m]).stack| < StackMax
  {
    hide Ready, Step, Replay, Kept;
    if n == 0 {
      ReplayNone(log, groupOf, a, ks[..0]);
    } else {
      StaysBelow(log, groupOf, a, ks, n - 1);
      assert ks[..n][..n - 1] == ks[..n - 1];
      ReplayLast(log, groupOf, a, ks[..n]);
    }
  }

  /** Books of a thread with nothing open and nothing counted. */
  function Blank(): Accounts {
    Accounts([], [0], seq(MaxTimers, _ => 0), seq(MaxTimers, _ => 0), seq(MaxTimers, _ => 0),
             seq(MaxGroups, _ => 0), seq(MaxGroups, _ => 0), seq(MetaMax, _ => seq(MaxTimers, _ => 0)))
  }

  /** Enter entries pile up scopes. */
  lemma {:induction false} EntersPile(log: Log, groupOf: seq<nat>, a: Accounts, ks: seq<nat>)
    requires Ready(log, groupOf, a) && InLog(log, ks)
    requires forall i :: 0 <= i < |ks| ==> LogType(log[ks[i]]) == Enter
    ensures |Replay(log, groupOf, a, ks).stack| == |a.stack| + |ks|
  {
    hide Ready, Step, Replay, LogType;
    if ks == [] {
      ReplayNone(log, groupOf, a, ks);
    } else {
      var front := ks[..|ks| - 1];
      EntersPile(log, groupOf, a, front);
      ReplayLast(log, groupOf, a, ks);
      StackGrowsByOne(log, groupOf, Replay(log, groupOf, a, front), ks[|ks| - 1]);
    }
  }

  /** As many as there are slots: all are replayed, and the stores leave the arrays. */
  lemma {:induction false} EntersFill(log: Log, groupOf: seq<nat>, a: Accounts, ks: seq<nat>)
    requires Ready(log, groupOf, a) && InLog(log, ks) && ks != [] && |a.stack| + |ks| == StackMax
    requires forall i :: 0 <= i < |ks| ==> LogType(log[ks[i]]) == Enter
    ensures Kept(log, groupOf, a, ks) == |ks| && !StoresInside(log, groupOf, a, ks)
  {
    hide Ready, Replay, Kept, LogType, StoresInside, Step;
    var n := Kept(log, groupOf, a, ks);
    GuardFires(log, groupOf, a, ks);
    EntersPile(log, groupOf, a, ks[..n]);
    EntersPile(log, groupOf, a, ks);
    assert ks[..|ks|] == ks;
    ShallowExactly(log, groupOf, a, ks);
  }

  /** `n` enter entries of timer 0. */
  function Enters(n: nat): (log: Log)
    ensures |log| == n
  {
    seq(n, _ => MakeLogIndex(Enter, 0, 0))
  }

  function FirstPositions(n: nat): (ks: seq<nat>)
    ensures |ks| == n
  {
    seq(n, i requires 0 <= i => i)
  }

  lemma {:induction false} EntersAreReady(n: nat)
    ensures var log, groupOf := Enters(n), seq(MaxTimers, _ => 0);
            && Ready(log, groupOf, Blank()) && InLog(log, FirstPositions(n))
            && forall k :: 0 <= k < n ==> LogType(log[k]) == Enter
  {
    hide LogType, TimerIndex, MakeLogIndex;
    assert Bits.Pow2(2) == 4;
    PackedReadsBack(Enter, 0, 0);
    ZeroLow(14);
  }

  lemma {:induction false} ZeroLow(n: nat)
    ensures Bits.Low(0, n) == 0
  {
    if n > 0 { ZeroLow(n - 1); }
  }

  /** Thirty-two scopes opened inside each other pass the guard, and the last one stores behind the child sums. */
  lemma {:induction false} ThirtyTwoScopesStoreOutside()
    ensures var log, groupOf := Enters(StackMax), seq(MaxTimers, _ => 0);
            && Ready(log, groupOf, Blank()) && InLog(log, FirstPositions(StackMax))
            && Kept(log, groupOf, Blank(), FirstPositions(StackMax)) == StackMax
            && !StoresInside(log, groupOf, Blank(), FirstPositions(StackMax))
  {
    hide Ready, Kept, LogType, StoresInside, Enters, FirstPositions, Blank;
    EntersAreReady(StackMax);
    PositionsOf(StackMax);
    assert |Blank().stack| == 0 by { BlankIsEmpty(); }
    EntersFill(Enters(StackMax), seq(MaxTimers, _ => 0), Blank(), FirstPositions(StackMax));
  }

  lemma {:induction false} PositionsOf(n: nat)
    ensures forall i :: 0 <= i < n ==> FirstPositions(n)[i] == i
  {
  }

  lemma {:induction false} BlankIsEmpty()
    ensures Blank().stack == []
  {
  }

  // ---------------------------------------------------------------- the books

  /** The tables as a flip clears them before the replay. */
  function Cleared(a: Accounts, totalTimers: nat, activeMeta: seq<bool>): (r: Accounts)
    requires |activeMeta| >= |a.counters|
  {
    a.(ticks := ZeroBelow(a.ticks, totalTimers),
       exclusive := ZeroBelow(a.exclusive, totalTimers),
       count := seq(|a.count|, t requires 0 <= t < |a.count| => if t < totalTimers then 0 else a.count[t]),
       groupTicks := ZeroBelow(a.groupTicks, |a.groupTicks|),
       counters := seq(|a.counters|, m requires 0 <= m < |a.counters| =>
         if activeMeta[m] then ZeroBelow(a.counters[m], totalTimers) else a.counters[m]))
  }

  function ZeroBelow(s: seq<Word64>, n: nat): (r: seq<Word64>)
    ensures |r| == |s|
  {
    seq(|s|, t requires 0 <= t < |s| => if t < n then 0 else s[t])
  }

  /**
    The books of one thread: its scope stack and the tables its replay adds to.  `child` has one slot
    more than the array of the source, for the sum that a 32nd scope puts behind that array.
   */
  class Books {
    var stack: seq<nat>
    var child: seq<Word64>
    var stackPos: nat
    var ticks: seq<Word64>
    var exclusive: seq<Word64>
    var count: seq<Word32>
    var groupPos: seq<nat>
    var groupTicks: seq<Word64>
    var counters: seq<seq<Word64>>

    ghost predicate Valid()
      reads this
    {
      |stack| == StackMax && |child| == StackMax + 1 && stackPos <= StackMax
    }

    ghost function View(): Accounts
      reads this
      requires Valid()
    {
      Accounts(stack[..stackPos], child[..stackPos + 1], ticks, exclusive, count, groupPos, groupTicks, counters)
    }

    method Enter(log: array<nat>, groupOf: seq<nat>, k: nat)
      requires Valid() && stackPos < StackMax
      requires Ready(log[..], groupOf, View()) && k < log.Length && LogType(log[k]) == ProfileEntry.Enter
      modifies this
      ensures Valid() && View() == EnterScope(log[..], groupOf, old(View()), k)
    {
      hide LogType, TimerIndex;
      var group := groupOf[TimerIndex(log[k])];
      groupPos := groupPos[group := (groupPos[group] + 1) % 256];
      stack := stack[stackPos := k];
      stackPos := stackPos + 1;
      child := child[stackPos := 0];
      assert stack[..stackPos] == old(stack[..stackPos]) + [k];
      assert child[..stackPos + 1] == old(child[..stackPos + 1]) + [0];
    }

    method CountMeta(log: array<nat>, groupOf: seq<nat>, k: nat)
      requires Valid()
      requires Ready(log[..], groupOf, View()) && k < log.Length && LogType(log[k]) == Meta
      modifies this
      ensures Valid() && View() == ProfileTicks.CountMeta(log[..], groupOf, old(View()), k)
    {
      hide LogType, TimerIndex, LogTick;
      if stackPos != 0 {
        assert View().stack[stackPos - 1] == stack[stackPos - 1];
        var meta, timer := TimerIndex(log[k]), TimerIndex(log[stack[stackPos - 1]]);
        counters := counters[meta := Add(counters[meta], timer, LogTick(log[k]))];
      }
    }

    method Leave(log: array<nat>, groupOf: seq<nat>, k: nat)
      requires Valid()
      requires Ready(log[..], groupOf, View()) && k < log.Length && LogType(log[k]) == ProfileEntry.Leave
      modifies this
      ensures Valid() && View() == LeaveScope(log[..], groupOf, old(View()), k)
    {
      hide LogType, TimerIndex, TickDifference, Word, Tally, Add, Ready, LeaveScope;
      CloseInPlace(log[..], groupOf, View(), stack, child, stackPos, k);
      if stackPos != 0 {
        var timer := TimerIndex(log[k]);
        var group := groupOf[timer];
        var spent := TickDifference(log[stack[stackPos - 1]], log[k]);
        var childTicks := child[stackPos];
        stackPos := stackPos - 1;
        child := Add(child, stackPos, spent);
        ticks := Add(ticks, timer, spent);
        exclusive := Add(exclusive, timer, spent - childTicks);
        count := count[timer := Tally(count[timer], 1)];
        var below := groupPos[group];
        if below != 0 {
          below := below - 1;
          if below == 0 { groupTicks := Add(groupTicks, group, spent); }
          groupPos := groupPos[group := below];
        }
      }
    }

    method Clear(totalTimers: nat, activeMeta: seq<bool>)
      requires Valid() && |activeMeta| >= |counters|
      modifies this
      ensures Valid() && View() == Cleared(old(View()), totalTimers, activeMeta)
    {
      ticks, exclusive := ZeroBelow(ticks, totalTimers), ZeroBelow(exclusive, totalTimers);
      count := seq(|count|, t requires 0 <= t < |count| reads this => if t < totalTimers then 0 else count[t]);
      groupTicks := ZeroBelow(groupTicks, |groupTicks|);
      counters := seq(|counters|, m requires 0 <= m < |counters| && |activeMeta| >= |counters| reads this =>
        if activeMeta[m] then ZeroBelow(counters[m], totalTimers) else counters[m]);
    }

    method ReplayRange(log: array<nat>, groupOf: seq<nat>, range: Range)
      requires Valid() && range.end0 <= log.Length && range.end1 <= log.Length
      requires Ready(log[..], groupOf, View())
      requires InLog(log[..], Run(range.start0, range.end0)) && InLog(log[..], Run(range.start1, range.end1))
      modifies this
      ensures Valid() && View() == ReplayRuns(log[..], groupOf, old(View()), range)
    {
      hide Ready, Run, ReplayGuarded;
      ReplayRun(log, groupOf, range.start0, range.end0);
      ReplayRun(log, groupOf, range.start1, range.end1);
    }

    /** One of the two runs of a range. */
    method ReplayRun(log: array<nat>, groupOf: seq<nat>, from: nat, to: nat)
      requires Valid() && to <= log.Length
      requires Ready(log[..], groupOf, View()) && InLog(log[..], Run(from, to))
      modifies this
      ensures Valid() && View() == ReplayGuarded(log[..], groupOf, old(View()), Run(from, to))
    {
      hide Ready, LogType, EnterScope, LeaveScope, ProfileTicks.CountMeta, ReplayGuarded, Run, InLog;
      var k := from;
      while k < to
        invariant from <= k && (k <= to || k == from) && Valid()
        invariant InLog(log[..], Run(k, to)) && Ready(log[..], groupOf, View())
        invariant ReplayGuarded(log[..], groupOf, View(), Run(k, to))
                  == ReplayGuarded(log[..], groupOf, old(View()), Run(from, to))
      {
        RunStep(log[..], groupOf, View(), k, to);
        if LogType(log[k]) == ProfileEntry.Enter {
          if stackPos >= StackMax { return; }
          Enter(log, groupOf, k);
        } else if LogType(log[k]) == Meta {
          CountMeta(log, groupOf, k);
        } else if LogType(log[k]) == ProfileEntry.Leave {
          Leave(log, groupOf, k);
        }
        k := k + 1;
      }
      RunEnd(log[..], groupOf, View(), k, to);
    }
  }

  lemma {:induction false} RunEnd(log: Log, groupOf: seq<nat>, a: Accounts, k: nat, to: nat)
    requires Ready(log, groupOf, a) && k >= to && InLog(log, Run(k, to))
    ensures ReplayGuarded(log, groupOf, a, Run(k, to)) == a
  {
  }

  lemma {:induction false} RunStep(log: Log, groupOf: seq<nat>, a: Accounts, k: nat, to: nat)
    requires Ready(log, groupOf, a) && k < to <= |log| && InLog(log, Run(k, to))
    ensures InLog(log, Run(k + 1, to))
    ensures ReplayGuarded(log, groupOf, a, Run(k, to))
            == if Refused(log, a, k) then a else ReplayGuarded(log, groupOf, Step(log, groupOf, a, k), Run(k + 1, to))
  {
    hide Ready, Step, Replay, LogType;
    var ks := Run(k, to);
    assert ks[1..] == Run(k + 1, to);
    ReplayNone(log, groupOf, a, ks[..0]);
    if !Refused(log, a, k) { ReplayFirst(log, groupOf, a, ks, Kept(log, groupOf, a, ks)); }
  }

  /** A range whose replay never has 32 scopes open is replayed whole, wherever the ring's end cuts it. */
  lemma {:induction false} TwoRuns(log: Log, groupOf: seq<nat>, a: Accounts, range: Range)
    requires Ready(log, groupOf, a) && InLog(log, Slots(range)) && Shallow(log, groupOf, a, Slots(range))
    ensures InLog(log, Run(range.start0, range.end0)) && InLog(log, Run(range.start1, range.end1))
    ensures ReplayRuns(log, groupOf, a, range) == Replay(log, groupOf, a, Slots(range))
  {
    hide Ready, Replay, Run, Kept;
    var ks, ls := Run(range.start0, range.end0), Run(range.start1, range.end1);
    assert forall i :: 0 <= i < |ks| ==> ks[i] == (ks + ls)[i];
    assert forall i :: 0 <= i < |ls| ==> ls[i] == (ks + ls)[|ks| + i];
    var b := Replay(log, groupOf, a, ks);
    ReplayConcat(log, groupOf, a, ks, ls);
    forall n | 0 <= n <= |ks| ensures |Replay(log, groupOf, a, ks[..n]).stack| < StackMax {
      assert (ks + ls)[..n] == ks[..n];
    }
    forall n | 0 <= n <= |ls| ensures |Replay(log, groupOf, b, ls[..n]).stack| < StackMax {
      assert (ks + ls)[..|ks| + n] == ks + ls[..n];
      ReplayConcat(log, groupOf, a, ks, ls[..n]);
    }
    ReplayNone(log, groupOf, a, ks[..0]);
    assert ks[..|ks|] == ks && ls[..|ls|] == ls;
    ShallowExactly(log, groupOf, a, ks);
    ShallowExactly(log, groupOf, b, ls);
  }

  /** Closing a scope, read off the fixed stacks. */
  lemma {:induction false} CloseInPlace(log: Log, groupOf: seq<nat>, a: Accounts, stack: seq<nat>, child: seq<Word64>, pos: nat, k: nat)
    requires Ready(log, groupOf, a) && k < |log| && LogType(log[k]) == Leave
    requires pos <= |stack| && pos < |child| && a.stack == stack[..pos] && a.child == child[..pos + 1]
    ensures |groupOf| == MaxTimers && TimerIndex(log[k]) < MaxTimers
    ensures var timer := TimerIndex(log[k]);
            var group := groupOf[timer];
            && timer < |a.ticks| == |a.exclusive| == |a.count| && group < |a.groupPos| == |a.groupTicks|
            && if pos == 0 then LeaveScope(log, groupOf, a, k) == a
               else
                 && stack[pos - 1] < |log|
                 && var spent := TickDifference(log[stack[pos - 1]], log[k]);
                    var below := a.groupPos[group];
                    LeaveScope(log, groupOf, a, k)
                    == Accounts(stack[..pos - 1], Add(child, pos - 1, spent)[..pos],
                                Add(a.ticks, timer, spent), Add(a.exclusive, timer, spent - child[pos]),
                                a.count[timer := Tally(a.count[timer], 1)],
                                if below == 0 then a.groupPos else a.groupPos[group := below - 1],
                                if below == 1 then Add(a.groupTicks, group, spent) else a.groupTicks,
                                a.counters)
  {
    hide LogType, TimerIndex, TickDifference, Word, Tally, Add;
    if pos != 0 {
      var spent := TickDifference(log[a.stack[pos - 1]], log[k]);
      assert a.child[..pos] == child[..pos] && a.stack[..pos - 1] == stack[..pos - 1];
      AddPrefix(child, pos - 1, spent, pos);
    }
  }

  lemma {:induction false} AddPrefix(s: seq<Word64>, i: nat, x: int, n: nat)
    requires i < n <= |s|
    ensures Add(s, i, x)[..n] == Add(s[..n], i, x)
  {
  }

  // ---------------------------------------------------------------- a flip

  /** What a flip starts the replay from. */
  function StartOf(a: Accounts, toggle: bool, totalTimers: nat, activeMeta: seq<bool>): Accounts
    requires |activeMeta| >= |a.counters| && |a.child| > 0
  {
    Cleared(Restarted(a, toggle), totalTimers, activeMeta)
  }

  function Restarted(a: Accounts, toggle: bool): (r: Accounts)
    requires |a.child| > 0
    ensures r.counters == a.counters
  {
    if toggle then a.(stack := [], child := a.child[..1]) else a
  }

  lemma {:induction false} StartReady(log: Log, groupOf: seq<nat>, a: Accounts, toggle: bool, totalTimers: nat, activeMeta: seq<bool>)
    requires Ready(log, groupOf, a) && |activeMeta| == MetaMax
    ensures |a.child| > 0 && |a.counters| == MetaMax
    ensures Ready(log, groupOf, StartOf(a, toggle, totalTimers, activeMeta))
  {
    hide TimerIndex, LogType;
    var r := StartOf(a, toggle, totalTimers, activeMeta);
    assert forall m :: 0 <= m < |r.counters| ==> |r.counters[m]| == |a.counters[m]|;
  }

  lemma {:induction false} SlotsInLog(log: Log, from: nat, to: nat)
    requires |log| == BufferSize && from <= to
    ensures var range := RangeOf(to % BufferSize, from % BufferSize);
            InLog(log, Run(range.start0, range.end0)) && InLog(log, Run(range.start1, range.end1))
  {
  }

  /**
    A flip of a running profiler: mark the log, clear the tables and replay the frame that is due.
    `toggled` says that the profiler has just been switched on, which forgets open scopes.
   */
  method Flip(thread: ThreadLog, books: Books, groupOf: seq<nat>, toggled: bool, totalTimers: nat, activeMeta: seq<bool>)
    requires thread.Valid() && books.Valid() && |activeMeta| == MetaMax
    requires Ready(thread.log[..], groupOf, books.View())
    modifies thread`get, thread`framePut, thread`framePutIndex, thread`history, thread.logStart, books
    ensures thread.Valid() && books.Valid()
    ensures thread.history == MarkFrame(old(thread.history)) && thread.log[..] == old(thread.log[..])
    ensures DueFrom(thread.history) <= DueTo(thread.history)
    ensures var range := RangeOf(DueTo(thread.history) % BufferSize, DueFrom(thread.history) % BufferSize);
            && Slots(range) == SlotsOf(DueFrom(thread.history), DueTo(thread.history))
            && books.View() == ReplayRuns(thread.log[..], groupOf,
                                          StartOf(old(books.View()), toggled, totalTimers, activeMeta), range)
  {
    hide Ready, ReplayRuns, Slots, SlotsOf, Holds, Sound, Cleared, MarkFrame, DueFrom, DueTo, InLog, RangeOf, Run;
    StartReady(thread.log[..], groupOf, books.View(), toggled, totalTimers, activeMeta);
    if toggled { books.stackPos := 0; }
    assert books.View() == Restarted(old(books.View()), toggled);
    var range := thread.MarkAndFind(true, false);
    SlotsInLog(thread.log[..], DueFrom(thread.history), DueTo(thread.history));
    books.Clear(totalTimers, activeMeta);
    books.ReplayRange(thread.log, groupOf, range);
  }

  /** The log positions a flip replays hold what the ring shows of the frame: the frame itself unless overrun. */
  lemma {:induction false} ReplaysTheFrame(ring: Ring, frames: Frames, h: History)
    requires Holds(ring, frames, h)
    ensures |ring.log| == BufferSize && DueFrom(h) <= DueTo(h) <= |h.accepted|
    ensures var ks := SlotsOf(DueFrom(h), DueTo(h));
            && (forall i :: 0 <= i < |ks| ==> ring.log[ks[i]] == Shown(h, DueFrom(h), DueTo(h))[i])
            && (|h.accepted| - DueFrom(h) <= BufferSize ==>
                  forall i :: 0 <= i < |ks| ==> ring.log[ks[i]] == h.accepted[DueFrom(h)..DueTo(h)][i])
  {
    hide Sound, HoldsMarks, Mark;
    FrameBounds(h);
    var from, to := DueFrom(h), DueTo(h);
    hide DueFrom, DueTo;
    ShownIsFrame(h, from, to);
  }
}
