/**
  Ring and replay together: what a flip makes of a frame whose scopes match, and of scopes that stay
  open from one flip to the next.
 */
module ProfileFrames {
  import opened ProfileEntry
  import opened ProfileTicks
  import opened ProfileFlip
  import Ring = ProfileRing
  import opened Scopes = ProfileScopes

  // ---------------------------------------------------------------- frames whose scopes match

  /** Timers below `n` have the times and the number of their scopes. */
  ghost predicate TimersHave(log: Log, f: Forest, r: Accounts, n: nat)
    requires Logged(log, f)
  {
    && n <= |r.ticks| == |r.exclusive| == |r.count|
    && forall timer: nat :: timer < n ==>
         && r.ticks[timer] == Word(Inclusive(log, f, timer))
         && r.exclusive[timer] == Word(Exclusive(log, f, timer))
         && r.count[timer] == Tally(0, Calls(log, f, timer))
  }

  /** Groups with nothing open before have the time of their outermost scopes, whatever they had; the others have none. */
  ghost predicate GroupsHave(log: Log, groupOf: seq<nat>, f: Forest, before: Accounts, r: Accounts) {
    && Logged(log, f) && |r.groupTicks| == |r.groupPos| == |before.groupPos|
    && forall group: nat :: group < |before.groupPos| && before.groupPos[group] + StackMax <= 256 ==>
         && r.groupPos[group] == before.groupPos[group]
         && r.groupTicks[group] == if before.groupPos[group] == 0 then Word(GroupTime(log, groupOf, f, group)) else 0
  }

  /** What was counted for each timer: that alone where the counter is active, and added to what stood there otherwise. */
  ghost predicate CountersHave(log: Log, f: Forest, open: int, before: Accounts, r: Accounts, n: nat, active: seq<bool>)
    requires Logged(log, f)
  {
    && |r.counters| == |before.counters| == |active|
    && forall meta: nat, timer: nat :: meta < |active| && timer < MaxTimers ==>
         CounterHas(log, f, open, before, r, n, active, meta, timer)
  }

  ghost predicate CounterHas(log: Log, f: Forest, open: int, before: Accounts, r: Accounts, n: nat, active: seq<bool>, meta: nat, timer: nat)
    requires Logged(log, f) && meta < |r.counters| == |before.counters| == |active|
  {
    && timer < |before.counters[meta]| == |r.counters[meta]|
    && r.counters[meta][timer]
       == Word((if timer < n && active[meta] then 0 else before.counters[meta][timer]) + Counted(log, f, open, meta, timer))
  }

  /**
    What a flip hands out, for a frame whose enter and leave entries match and that never has 32 scopes open: every
    timer is left with the inclusive time, the exclusive time and the number of its scopes in that frame, every
    group that had no scope open with the time of its outermost scopes, and every active counter with what was
    counted, whatever stood in the tables before; the scopes open are those open before.
   */
  lemma {:induction false} FlipHandsOutTimes(log: Log, groupOf: seq<nat>, a: Accounts, toggled: bool, totalTimers: nat,
                                             activeMeta: seq<bool>, range: Ring.Range) returns (f: Forest)
    requires Ready(log, groupOf, a) && |activeMeta| == MetaMax && |a.child| > 0 && |a.counters| == MetaMax
    requires Ready(log, groupOf, StartOf(a, toggled, totalTimers, activeMeta))
    requires InLog(log, Ring.Slots(range)) && Matched(log, Ring.Slots(range), [])
    requires Shallow(log, groupOf, StartOf(a, toggled, totalTimers, activeMeta), Ring.Slots(range))
    requires totalTimers <= MaxTimers
    ensures Logged(log, f) && Positions(f) == Ring.Slots(range)
    ensures InLog(log, Ring.Run(range.start0, range.end0)) && InLog(log, Ring.Run(range.start1, range.end1))
    ensures var r := ReplayRuns(log, groupOf, StartOf(a, toggled, totalTimers, activeMeta), range);
            && r.stack == (if toggled then [] else a.stack)
            && TimersHave(log, f, r, totalTimers)
            && GroupsHave(log, groupOf, f, a, r)
            && CountersHave(log, f, if toggled then -1 else OpenTimer(log, a), a, r, totalTimers, activeMeta)
  {
    hide Ready, Shallow, Matched, Replay, ReplayRuns, LogType, TimerIndex, TickDifference, Word, Tally, Ring.Slots, Ring.Run, StartOf,
         TimersHave, GroupsHave, CountersHave, After, OpenTimer;
    f := MatchedIsNested(log, Ring.Slots(range));
    var start := StartOf(a, toggled, totalTimers, activeMeta);
    TwoRuns(log, groupOf, start, range);
    assert ReplayRuns(log, groupOf, start, range) == After(log, groupOf, start, f) by { AfterIs(log, groupOf, start, f); }
    StackRestored(log, groupOf, start, f);
    StartStack(log, a, toggled, totalTimers, activeMeta);
    HandsTimers(log, groupOf, a, toggled, totalTimers, activeMeta, f);
    HandsGroups(log, groupOf, a, toggled, totalTimers, activeMeta, f);
    HandsCounters(log, groupOf, a, toggled, totalTimers, activeMeta, f);
  }

  lemma {:induction false} AfterIs(log: Log, groupOf: seq<nat>, a: Accounts, f: Forest)
    requires Logged(log, f) && Ready(log, groupOf, a)
    ensures InLog(log, Positions(f)) && After(log, groupOf, a, f) == Replay(log, groupOf, a, Positions(f))
  {
    hide Ready, Replay;
    PositionsInLog(log, f);
  }

  lemma {:induction false} StartStack(log: Log, a: Accounts, toggled: bool, totalTimers: nat, activeMeta: seq<bool>)
    requires |activeMeta| >= |a.counters| && |a.child| > 0
    ensures var start := StartOf(a, toggled, totalTimers, activeMeta);
            && start.stack == (if toggled then [] else a.stack) && start.groupPos == a.groupPos
            && OpenTimer(log, start) == if toggled then -1 else OpenTimer(log, a)
  {
    hide TimerIndex;
  }

  lemma {:induction false} HandsTimers(log: Log, groupOf: seq<nat>, a: Accounts, toggled: bool, totalTimers: nat,
                                       activeMeta: seq<bool>, f: Forest)
    requires Ready(log, groupOf, a) && |activeMeta| == MetaMax && |a.child| > 0 && |a.counters| == MetaMax
    requires Ready(log, groupOf, StartOf(a, toggled, totalTimers, activeMeta)) && Logged(log, f) && totalTimers <= MaxTimers
    ensures TimersHave(log, f, After(log, groupOf, StartOf(a, toggled, totalTimers, activeMeta), f), totalTimers)
  {
    hide Ready, StartOf, After, LogType, TimerIndex, TickDifference, Word, Tally, Inclusive, Exclusive, Calls;
    var start := StartOf(a, toggled, totalTimers, activeMeta);
    var r := After(log, groupOf, start, f);
    ReadySizes(log, groupOf, r);
    forall timer: nat | timer < totalTimers
      ensures r.ticks[timer] == Word(Inclusive(log, f, timer)) && r.exclusive[timer] == Word(Exclusive(log, f, timer))
              && r.count[timer] == Tally(0, Calls(log, f, timer))
    {
      StartsFromZero(log, groupOf, a, toggled, totalTimers, activeMeta, timer);
      TimerTicks(log, groupOf, start, f, timer);
      TimerExclusive(log, groupOf, start, f, timer);
      TimerCalls(log, groupOf, start, f, timer);
    }
  }

  lemma {:induction false} StartsFromZero(log: Log, groupOf: seq<nat>, a: Accounts, toggled: bool, totalTimers: nat,
                                          activeMeta: seq<bool>, timer: nat)
    requires Ready(log, groupOf, a) && |activeMeta| == MetaMax && |a.child| > 0 && |a.counters| == MetaMax
    requires timer < totalTimers <= MaxTimers
    ensures var start := StartOf(a, toggled, totalTimers, activeMeta);
            && timer < |start.ticks| == |start.exclusive| == |start.count|
            && start.ticks[timer] == 0 && start.exclusive[timer] == 0 && start.count[timer] == 0
  {
    hide LogType, TimerIndex;
  }

  lemma {:induction false} HandsGroups(log: Log, groupOf: seq<nat>, a: Accounts, toggled: bool, totalTimers: nat,
                                       activeMeta: seq<bool>, f: Forest)
    requires Ready(log, groupOf, a) && |activeMeta| == MetaMax && |a.child| > 0 && |a.counters| == MetaMax
    requires Ready(log, groupOf, StartOf(a, toggled, totalTimers, activeMeta)) && Logged(log, f) && InLog(log, Positions(f))
    requires Shallow(log, groupOf, StartOf(a, toggled, totalTimers, activeMeta), Positions(f))
    ensures GroupsHave(log, groupOf, f, a, After(log, groupOf, StartOf(a, toggled, totalTimers, activeMeta), f))
  {
    hide Ready, StartOf, After, Replay, LogType, TimerIndex, TickDifference, Word, Tally, GroupTime, Height;
    var start := StartOf(a, toggled, totalTimers, activeMeta);
    var r := After(log, groupOf, start, f);
    var n := DeepestPrefix(log, groupOf, start, f);
    ReadySizes(log, groupOf, a);
    ReadySizes(log, groupOf, r);
    StartStack(log, a, toggled, totalTimers, activeMeta);
    WordSelf(0);
    forall group: nat | group < |a.groupPos| && a.groupPos[group] + StackMax <= 256
      ensures r.groupPos[group] == a.groupPos[group]
      ensures r.groupTicks[group] == if a.groupPos[group] == 0 then Word(GroupTime(log, groupOf, f, group)) else 0
    {
      GroupsStartFromZero(log, groupOf, a, toggled, totalTimers, activeMeta, group);
      GroupsRestored(log, groupOf, start, f, group);
      GroupTicks(log, groupOf, start, f, group);
    }
  }

  lemma {:induction false} GroupsStartFromZero(log: Log, groupOf: seq<nat>, a: Accounts, toggled: bool, totalTimers: nat,
                                               activeMeta: seq<bool>, group: nat)
    requires Ready(log, groupOf, a) && |activeMeta| == MetaMax && |a.child| > 0 && |a.counters| == MetaMax && group < MaxGroups
    ensures var start := StartOf(a, toggled, totalTimers, activeMeta);
            group < |start.groupTicks| && start.groupTicks[group] == 0
  {
    hide LogType, TimerIndex;
  }

  lemma {:induction false} HandsCounters(log: Log, groupOf: seq<nat>, a: Accounts, toggled: bool, totalTimers: nat,
                                         activeMeta: seq<bool>, f: Forest)
    requires Ready(log, groupOf, a) && |activeMeta| == MetaMax && |a.child| > 0 && |a.counters| == MetaMax
    requires Ready(log, groupOf, StartOf(a, toggled, totalTimers, activeMeta)) && Logged(log, f)
    ensures CountersHave(log, f, if toggled then -1 else OpenTimer(log, a), a,
                         After(log, groupOf, StartOf(a, toggled, totalTimers, activeMeta), f), totalTimers, activeMeta)
  {
    hide Ready, StartOf, After, LogType, TimerIndex, TickDifference, Word, Tally, Counted, OpenTimer;
    var start := StartOf(a, toggled, totalTimers, activeMeta);
    var r := After(log, groupOf, start, f);
    var open := if toggled then -1 else OpenTimer(log, a);
    CounterSizes(log, groupOf, a, 0);
    CounterSizes(log, groupOf, r, 0);
    StartStack(log, a, toggled, totalTimers, activeMeta);
    forall meta: nat, timer: nat | meta < MetaMax && timer < MaxTimers
      ensures CounterHas(log, f, open, a, r, totalTimers, activeMeta, meta, timer)
    {
      CounterSizes(log, groupOf, a, meta);
      CounterSizes(log, groupOf, r, meta);
      CounterStarts(log, a, toggled, totalTimers, activeMeta, meta, timer);
      MetaCounts(log, groupOf, start, f, meta, timer);
    }
  }

  lemma {:induction false} CounterStarts(log: Log, a: Accounts, toggled: bool, totalTimers: nat, activeMeta: seq<bool>, meta: nat, timer: nat)
    requires |activeMeta| == |a.counters| && |a.child| > 0 && meta < |a.counters| && timer < |a.counters[meta]|
    ensures var start := StartOf(a, toggled, totalTimers, activeMeta);
            && meta < |start.counters| && timer < |start.counters[meta]|
            && start.counters[meta][timer] == if timer < totalTimers && activeMeta[meta] then 0 else a.counters[meta][timer]
  {
  }

  // ---------------------------------------------------------------- scopes open across flips

  /** The numbers of the entries that opened the scopes still open after entries `from` up to `to`. */
  function OpenNumbers(accepted: seq<nat>, open: seq<nat>, from: nat, to: nat): (r: seq<nat>)
    requires from <= to <= |accepted|
  {
    if from == to then open
    else
      var before := OpenNumbers(accepted, open, from, to - 1);
      var kind := LogType(accepted[to - 1]);
      if kind == Enter then before + [to - 1]
      else if kind == Leave && before != [] then before[..|before| - 1]
      else before
  }

  function SlotsAt(numbers: seq<nat>): (s: seq<nat>)
    ensures |s| == |numbers|
  {
    seq(|numbers|, i requires 0 <= i < |numbers| => numbers[i] % Ring.BufferSize)
  }

  /** The ring still shows entries `from` up to `to`. */
  ghost predicate Shows(log: Log, accepted: seq<nat>, from: nat, to: nat)
    requires |log| == Ring.BufferSize && to <= |accepted|
  {
    forall j :: from <= j < to ==> log[j % Ring.BufferSize] == accepted[j]
  }

  /** The stack holds the slots of the entries that opened the scopes, in a frame and before it. */
  lemma {:induction false} StackHoldsOpenScopes(log: Log, groupOf: seq<nat>, a: Accounts, accepted: seq<nat>,
                                                open: seq<nat>, from: nat, to: nat)
    requires Ready(log, groupOf, a) && |log| == Ring.BufferSize && from <= to <= |accepted|
    requires Shows(log, accepted, from, to) && a.stack == SlotsAt(open)
    ensures InLog(log, Ring.SlotsOf(from, to))
    ensures Replay(log, groupOf, a, Ring.SlotsOf(from, to)).stack == SlotsAt(OpenNumbers(accepted, open, from, to))
  {
    hide Ready, Step, Replay, LogType;
    var ks := Ring.SlotsOf(from, to);
    if from == to {
      ReplayNone(log, groupOf, a, ks);
    } else {
      var front := Ring.SlotsOf(from, to - 1);
      assert ks[..|ks| - 1] == front && ks[|ks| - 1] == (to - 1) % Ring.BufferSize;
      StackHoldsOpenScopes(log, groupOf, a, accepted, open, from, to - 1);
      ReplayLast(log, groupOf, a, ks);
      StackOfStep(log, groupOf, Replay(log, groupOf, a, front), ks[|ks| - 1]);
    }
  }

  lemma {:induction false} StackOfStep(log: Log, groupOf: seq<nat>, a: Accounts, k: nat)
    requires Ready(log, groupOf, a) && k < |log|
    ensures Step(log, groupOf, a, k).stack
            == if LogType(log[k]) == Enter then a.stack + [k]
               else if LogType(log[k]) == Leave && a.stack != [] then a.stack[..|a.stack| - 1]
               else a.stack
  {
    hide LogType, TimerIndex, TickDifference, Word, Tally, Add;
  }

  /**
    A scope opened by entry `j`, in this frame or before it, still finds that entry in its slot exactly
    when at most a ring's worth of entries was accepted since; its ticks are then measured from there.
   */
  lemma {:induction false} OpenScopeStillThere(ring: Ring.Ring, frames: Ring.Frames, h: Ring.History, j: nat)
    requires Ring.Holds(ring, frames, h) && j < |h.accepted|
    ensures |ring.log| == Ring.BufferSize
    ensures Ring.Intact(|h.accepted|, j) <==> |h.accepted| - j <= Ring.BufferSize
    ensures Ring.Intact(|h.accepted|, j) ==> ring.log[j % Ring.BufferSize] == h.accepted[j]
  {
    hide Ring.Sound, Ring.HoldsMarks;
    Ring.StillThere(|h.accepted|, j);
  }

  /** Closing a scope whose enter entry is still there adds exactly the time between the two entries. */
  lemma {:induction false} LeaveMeasuresFromItsEnter(ring: Ring.Ring, frames: Ring.Frames, h: Ring.History, groupOf: seq<nat>,
                                                     a: Accounts, open: seq<nat>, k: nat)
    requires Ring.Holds(ring, frames, h) && Ready(ring.log, groupOf, a) && k < |ring.log|
    requires a.stack == SlotsAt(open) && open != [] && forall i :: 0 <= i < |open| ==> open[i] < |h.accepted|
    requires LogType(ring.log[k]) == Leave && |h.accepted| - open[|open| - 1] <= Ring.BufferSize
    ensures var timer, r := TimerIndex(ring.log[k]), LeaveScope(ring.log, groupOf, a, k);
            && r.stack == SlotsAt(open[..|open| - 1])
            && timer < |a.ticks| == |r.ticks|
            && r.ticks[timer] == Word(a.ticks[timer] + TickDifference(h.accepted[open[|open| - 1]], ring.log[k]))
  {
    hide Ring.Holds, LogType, TimerIndex, TickDifference, Word, Tally;
    OpenScopeStillThere(ring, frames, h, open[|open| - 1]);
    var below := SlotsAt(open[..|open| - 1]);
    var start := open[|open| - 1] % Ring.BufferSize;
    assert a.stack == below + [start];
    Leaving(ring.log, groupOf, a, k, below, start);
  }
}
