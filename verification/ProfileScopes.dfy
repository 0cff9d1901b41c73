/**
  What a replay is for: the times of properly nested scopes, read off the nesting itself.
 */
module ProfileScopes {
  import opened ProfileEntry
  import opened ProfileTicks

  /**
    Nested scopes in the order they were logged, each node naming log positions.  A note is an entry
    that opens and closes nothing.
   */
  datatype Forest =
    | Done
    | Scope(enter: nat, inner: Forest, leave: nat, rest: Forest)
    | Note(entry: nat, rest: Forest)

  ghost predicate Logged(log: Log, f: Forest) {
    match f
    case Done => true
    case Scope(enter, inner, leave, rest) =>
      && enter < |log| && leave < |log|
      && LogType(log[enter]) == Enter && LogType(log[leave]) == Leave
      && TimerIndex(log[enter]) == TimerIndex(log[leave])
      && Logged(log, inner) && Logged(log, rest)
    case Note(entry, rest) =>
      entry < |log| && LogType(log[entry]) >= Meta && Logged(log, rest)
  }

  function Positions(f: Forest): seq<nat> {
    match f
    case Done => []
    case Scope(enter, inner, leave, rest) => [enter] + Positions(inner) + [leave] + Positions(rest)
    case Note(entry, rest) => [entry] + Positions(rest)
  }

  function Duration(log: Log, f: Forest): int
    requires f.Scope? && f.enter < |log| && f.leave < |log|
  {
    TickDifference(log[f.enter], log[f.leave])
  }

  /** The time of the outermost scopes. */
  ghost function RootTime(log: Log, f: Forest): int
    requires Logged(log, f)
  {
    match f
    case Done => 0
    case Scope(_, _, _, rest) => Duration(log, f) + RootTime(log, rest)
    case Note(_, rest) => RootTime(log, rest)
  }

  /** The time of all scopes of a timer. */
  ghost function Inclusive(log: Log, f: Forest, timer: nat): int
    requires Logged(log, f)
  {
    match f
    case Done => 0
    case Scope(enter, inner, _, rest) =>
      (if TimerIndex(log[enter]) == timer then Duration(log, f) else 0)
      + Inclusive(log, inner, timer) + Inclusive(log, rest, timer)
    case Note(_, rest) => Inclusive(log, rest, timer)
  }

  /** The time of all scopes of a timer, each without the scopes directly inside it. */
  ghost function Exclusive(log: Log, f: Forest, timer: nat): int
    requires Logged(log, f)
  {
    match f
    case Done => 0
    case Scope(enter, inner, _, rest) =>
      (if TimerIndex(log[enter]) == timer then Duration(log, f) - RootTime(log, inner) else 0)
      + Exclusive(log, inner, timer) + Exclusive(log, rest, timer)
    case Note(_, rest) => Exclusive(log, rest, timer)
  }

  ghost function Calls(log: Log, f: Forest, timer: nat): nat
    requires Logged(log, f)
  {
    match f
    case Done => 0
    case Scope(enter, inner, _, rest) =>
      (if TimerIndex(log[enter]) == timer then 1 else 0) + Calls(log, inner, timer) + Calls(log, rest, timer)
    case Note(_, rest) => Calls(log, rest, timer)
  }

  function GroupAt(groupOf: seq<nat>, timer: nat): nat { if timer < |groupOf| then groupOf[timer] else 0 }

  /** The time of the scopes of a group that lie in no other scope of that group. */
  ghost function GroupTime(log: Log, groupOf: seq<nat>, f: Forest, group: nat): int
    requires Logged(log, f)
  {
    match f
    case Done => 0
    case Scope(enter, inner, _, rest) =>
      (if GroupAt(groupOf, TimerIndex(log[enter])) == group then Duration(log, f)
       else GroupTime(log, groupOf, inner, group))
      + GroupTime(log, groupOf, rest, group)
    case Note(_, rest) => GroupTime(log, groupOf, rest, group)
  }

  /** What was counted under `meta` directly inside the scopes of a timer; `open` is the timer around `f`. */
  ghost function Counted(log: Log, f: Forest, open: int, meta: nat, timer: nat): int
    requires Logged(log, f)
  {
    match f
    case Done => 0
    case Scope(enter, inner, _, rest) =>
      Counted(log, inner, TimerIndex(log[enter]), meta, timer) + Counted(log, rest, open, meta, timer)
    case Note(entry, rest) =>
      (if LogType(log[entry]) == Meta && TimerIndex(log[entry]) == meta && open == timer then LogTick(log[entry]) else 0)
      + Counted(log, rest, open, meta, timer)
  }

  function Height(f: Forest): nat {
    match f
    case Done => 0
    case Scope(_, inner, _, rest) =>
      var h := 1 + Height(inner);
      if h < Height(rest) then Height(rest) else h
    case Note(_, rest) => Height(rest)
  }

  // ---------------------------------------------------------------- time is split, not lost

  /** The exclusive times of timers below `n`. */
  ghost function ExclusiveBelow(log: Log, f: Forest, n: nat): int
    requires Logged(log, f)
  {
    if n == 0 then 0 else ExclusiveBelow(log, f, n - 1) + Exclusive(log, f, n - 1)
  }

  /** Over all timers together, exclusive times make up the time of the outermost scopes. */
  lemma {:induction false} ExclusiveTimesAddUp(log: Log, f: Forest, n: nat)
    requires Logged(log, f) && forall k :: 0 <= k < |log| && LogType(log[k]) == Enter ==> TimerIndex(log[k]) < n
    ensures ExclusiveBelow(log, f, n) == RootTime(log, f)
  {
    match f
    case Done =>
      BelowDone(log, n);
    case Scope(enter, inner, leave, rest) =>
      BelowScope(log, f, n);
      ExclusiveTimesAddUp(log, inner, n);
      ExclusiveTimesAddUp(log, rest, n);
    case Note(entry, rest) =>
      BelowNote(log, f, n);
      ExclusiveTimesAddUp(log, rest, n);
  }

  lemma {:induction false} BelowDone(log: Log, n: nat)
    ensures ExclusiveBelow(log, Done, n) == 0
  {
    if n > 0 { BelowDone(log, n - 1); }
  }

  lemma {:induction false} BelowScope(log: Log, f: Forest, n: nat)
    requires Logged(log, f) && f.Scope?
    ensures ExclusiveBelow(log, f, n)
            == (if TimerIndex(log[f.enter]) < n then Duration(log, f) - RootTime(log, f.inner) else 0)
               + ExclusiveBelow(log, f.inner, n) + ExclusiveBelow(log, f.rest, n)
  {
    hide TimerIndex, Duration;
    if n > 0 { BelowScope(log, f, n - 1); }
  }

  lemma {:induction false} BelowNote(log: Log, f: Forest, n: nat)
    requires Logged(log, f) && f.Note?
    ensures ExclusiveBelow(log, f, n) == ExclusiveBelow(log, f.rest, n)
  {
    if n > 0 { BelowNote(log, f, n - 1); }
  }

  // ---------------------------------------------------------------- the replay of nested scopes

  lemma {:induction false} PositionsInLog(log: Log, f: Forest)
    requires Logged(log, f)
    ensures InLog(log, Positions(f))
  {
    match f
    case Done =>
    case Scope(_, inner, _, rest) => PositionsInLog(log, inner); PositionsInLog(log, rest);
    case Note(_, rest) => PositionsInLog(log, rest);
  }

  /** The accounts after the scopes of `f`. */
  ghost function After(log: Log, groupOf: seq<nat>, a: Accounts, f: Forest): (r: Accounts)
    requires Logged(log, f) && Ready(log, groupOf, a)
    ensures Ready(log, groupOf, r)
  {
    PositionsInLog(log, f);
    Replay(log, groupOf, a, Positions(f))
  }

  lemma {:induction false} AfterDone(log: Log, groupOf: seq<nat>, a: Accounts)
    requires Ready(log, groupOf, a)
    ensures After(log, groupOf, a, Done) == a
  {
  }

  lemma {:induction false} ReplayOne(log: Log, groupOf: seq<nat>, a: Accounts, k: nat)
    requires Ready(log, groupOf, a) && k < |log|
    ensures InLog(log, [k]) && Replay(log, groupOf, a, [k]) == Step(log, groupOf, a, k)
  {
    hide Ready, Step;
    assert [k][..0] == [];
    ReplayNone(log, groupOf, a, []);
    ReplayLast(log, groupOf, a, [k]);
  }

  lemma {:induction false} AfterScope(log: Log, groupOf: seq<nat>, a: Accounts, f: Forest)
    requires Logged(log, f) && f.Scope? && Ready(log, groupOf, a)
    ensures var entered := EnterScope(log, groupOf, a, f.enter);
            var closing := After(log, groupOf, entered, f.inner);
            var closed := LeaveScope(log, groupOf, closing, f.leave);
            After(log, groupOf, a, f) == After(log, groupOf, closed, f.rest)
  {
    hide Ready, EnterScope, LeaveScope, Replay, LogType, TimerIndex;
    var k1, k2, k3, k4 := [f.enter], Positions(f.inner), [f.leave], Positions(f.rest);
    PositionsInLog(log, f.inner);
    PositionsInLog(log, f.rest);
    ReplayOne(log, groupOf, a, f.enter);
    ReplayConcat(log, groupOf, a, k1, k2);
    var entered := EnterScope(log, groupOf, a, f.enter);
    var closing := After(log, groupOf, entered, f.inner);
    ReplayConcat(log, groupOf, a, k1 + k2, k3);
    ReplayOne(log, groupOf, closing, f.leave);
    ReplayConcat(log, groupOf, a, k1 + k2 + k3, k4);
  }

  lemma {:induction false} AfterNote(log: Log, groupOf: seq<nat>, a: Accounts, f: Forest)
    requires Logged(log, f) && f.Note? && Ready(log, groupOf, a)
    ensures After(log, groupOf, a, f) == After(log, groupOf, Step(log, groupOf, a, f.entry), f.rest)
  {
    hide Ready, Step, Replay;
    PositionsInLog(log, f.rest);
    ReplayOne(log, groupOf, a, f.entry);
    ReplayConcat(log, groupOf, a, [f.entry], Positions(f.rest));
  }

  // ---------------------------------------------------------------- what the replay leaves as it was

  /** The group counters are bytes; a forest of this height does not make the one of `group` wrap. */
  ghost predicate RoomFor(a: Accounts, group: nat, height: nat) {
    group < |a.groupPos| && a.groupPos[group] + height < 256
  }

  /** What opening a scope does to each account. */
  lemma {:induction false} Entering(log: Log, groupOf: seq<nat>, a: Accounts, k: nat)
    requires Ready(log, groupOf, a) && k < |log| && LogType(log[k]) == Enter
    ensures var r := EnterScope(log, groupOf, a, k);
            var group := GroupAt(groupOf, TimerIndex(log[k]));
            && |a.child| == |a.stack| + 1 && group < |a.groupPos|
            && r == a.(stack := a.stack + [k], child := a.child + [0],
                       groupPos := a.groupPos[group := (a.groupPos[group] + 1) % 256])
  {
    hide LogType, TimerIndex;
  }

  /** What closing a scope does to each account. */
  lemma {:induction false} Leaving(log: Log, groupOf: seq<nat>, a: Accounts, k: nat, below: seq<nat>, start: nat)
    requires Ready(log, groupOf, a) && k < |log| && LogType(log[k]) == Leave && a.stack == below + [start]
    requires start < |log|
    ensures var r := LeaveScope(log, groupOf, a, k);
            var ticks, timer := TickDifference(log[start], log[k]), TimerIndex(log[k]);
            var group := GroupAt(groupOf, timer);
            && |a.child| == |below| + 2 && timer < |a.ticks| == |a.exclusive| == |a.count|
            && group < |a.groupPos| == |a.groupTicks|
            && r.stack == below && r.child == Add(a.child[..|below| + 1], |below|, ticks)
            && r.ticks == Add(a.ticks, timer, ticks)
            && r.exclusive == Add(a.exclusive, timer, ticks - a.child[|below| + 1])
            && r.count == a.count[timer := Tally(a.count[timer], 1)]
            && r.counters == a.counters
            && r.groupPos == (if a.groupPos[group] == 0 then a.groupPos
                              else a.groupPos[group := a.groupPos[group] - 1])
            && r.groupTicks == if a.groupPos[group] == 1 then Add(a.groupTicks, group, ticks) else a.groupTicks
  {
    hide LogType, TimerIndex, TickDifference, Add;
    assert a.stack[|a.stack| - 1] == start && a.stack[..|below|] == below;
  }

  lemma {:induction false} Noting(log: Log, groupOf: seq<nat>, a: Accounts, k: nat)
    requires Ready(log, groupOf, a) && k < |log| && LogType(log[k]) >= Meta
    ensures Step(log, groupOf, a, k) == a.(counters := Step(log, groupOf, a, k).counters)
  {
    hide LogType, TimerIndex, Add;
  }

  lemma {:induction false} ReadySizes(log: Log, groupOf: seq<nat>, a: Accounts)
    requires Ready(log, groupOf, a)
    ensures |a.child| == |a.stack| + 1 && |a.groupPos| == |a.groupTicks| == MaxGroups
    ensures |a.ticks| == |a.exclusive| == |a.count| == MaxTimers
  {
  }

  /** Every scope that was opened is closed again, and its time is added once to the sum around it. */
  lemma {:induction false} StackRestored(log: Log, groupOf: seq<nat>, a: Accounts, f: Forest)
    requires Logged(log, f) && Ready(log, groupOf, a)
    ensures var r := After(log, groupOf, a, f);
            r.stack == a.stack && |a.child| == |a.stack| + 1
            && r.child == Add(a.child, |a.stack|, RootTime(log, f))
    decreases f
  {
    hide Ready, EnterScope, LeaveScope, Step, After, LogType, TimerIndex, TickDifference;
    ReadySizes(log, groupOf, a);
    match f
    case Done =>
      AfterDone(log, groupOf, a);
    case Scope(enter, inner, leave, rest) =>
      AfterScope(log, groupOf, a, f);
      Entering(log, groupOf, a, enter);
      var entered := EnterScope(log, groupOf, a, enter);
      StackRestored(log, groupOf, entered, inner);
      var closing := After(log, groupOf, entered, inner);
      Leaving(log, groupOf, closing, leave, a.stack, enter);
      var closed := LeaveScope(log, groupOf, closing, leave);
      assert closing.child[..|a.stack| + 1] == a.child;
      StackRestored(log, groupOf, closed, rest);
      AddTwice(a.child, |a.stack|, Duration(log, f), RootTime(log, rest));
    case Note(entry, rest) =>
      AfterNote(log, groupOf, a, f);
      Noting(log, groupOf, a, entry);
      StackRestored(log, groupOf, Step(log, groupOf, a, entry), rest);
  }

  lemma {:induction false} AddTwice(s: seq<Word64>, i: nat, x: int, y: int)
    requires i < |s|
    ensures Add(Add(s, i, x), i, y) == Add(s, i, x + y)
  {
    WordAdds(s[i] + x, y);
  }

  lemma {:induction false} WordAdds(x: int, y: int)
    ensures Word(Word(x) + y) == Word(x + y) && Word(y - Word(x)) == Word(y - x)
  {
    var q := x / WordSpan;
    assert Word(x) + y == (x + y) - q * WordSpan;
    WordShift(x + y, -q);
    WordShift(y - x, q);
  }

  lemma {:induction false} WordShift(x: int, k: int)
    ensures Word(x + k * WordSpan) == Word(x)
  {
    var y := x + k * WordSpan;
    assert y == x % WordSpan + (x / WordSpan + k) * WordSpan;
    assert y == y % WordSpan + (y / WordSpan) * WordSpan;
  }

  // ---------------------------------------------------------------- what the replay hands out

  /** The accounts as the outermost scope of `f` is about to be closed, and once it is. */
  lemma {:induction false} Around(log: Log, groupOf: seq<nat>, a: Accounts, f: Forest) returns (closing: Accounts, closed: Accounts)
    requires Logged(log, f) && f.Scope? && Ready(log, groupOf, a)
    ensures var entered := EnterScope(log, groupOf, a, f.enter);
            && Ready(log, groupOf, entered) && Ready(log, groupOf, closing) && Ready(log, groupOf, closed)
            && closing == After(log, groupOf, entered, f.inner)
            && closing.stack == a.stack + [f.enter]
            && closing.child == a.child + [Word(RootTime(log, f.inner))]
            && closed == LeaveScope(log, groupOf, closing, f.leave)
            && After(log, groupOf, a, f) == After(log, groupOf, closed, f.rest)
  {
    hide Ready, EnterScope, LeaveScope, Step, After, LogType, TimerIndex, TickDifference;
    ReadySizes(log, groupOf, a);
    AfterScope(log, groupOf, a, f);
    Entering(log, groupOf, a, f.enter);
    var entered := EnterScope(log, groupOf, a, f.enter);
    StackRestored(log, groupOf, entered, f.inner);
    closing := After(log, groupOf, entered, f.inner);
    closed := LeaveScope(log, groupOf, closing, f.leave);
  }

  /** A timer is handed the time of all its scopes. */
  lemma {:induction false} TimerTicks(log: Log, groupOf: seq<nat>, a: Accounts, f: Forest, timer: nat)
    requires Logged(log, f) && Ready(log, groupOf, a) && timer < MaxTimers
    ensures var r := After(log, groupOf, a, f);
            timer < |r.ticks| == |a.ticks| && r.ticks[timer] == Word(a.ticks[timer] + Inclusive(log, f, timer))
    decreases f
  {
    hide Ready, EnterScope, LeaveScope, Step, After, LogType, TimerIndex, TickDifference, Word, Tally;
    ReadySizes(log, groupOf, a);
    match f
    case Done =>
      AfterDone(log, groupOf, a);
      WordSelf(a.ticks[timer]);
    case Scope(enter, inner, leave, rest) =>
      var closing, closed := Around(log, groupOf, a, f);
      Entering(log, groupOf, a, enter);
      Leaving(log, groupOf, closing, leave, a.stack, enter);
      TimerTicks(log, groupOf, EnterScope(log, groupOf, a, enter), inner, timer);
      TimerTicks(log, groupOf, closed, rest, timer);
      var own := if TimerIndex(log[enter]) == timer then Duration(log, f) else 0;
      WordSelf(closing.ticks[timer]);
      WordAdds(a.ticks[timer] + Inclusive(log, inner, timer), own);
      WordAdds(a.ticks[timer] + Inclusive(log, inner, timer) + own, Inclusive(log, rest, timer));
    case Note(entry, rest) =>
      AfterNote(log, groupOf, a, f);
      Noting(log, groupOf, a, entry);
      TimerTicks(log, groupOf, Step(log, groupOf, a, entry), rest, timer);
  }

  /** Its exclusive time is handed out without the scopes directly inside. */
  lemma {:induction false} TimerExclusive(log: Log, groupOf: seq<nat>, a: Accounts, f: Forest, timer: nat)
    requires Logged(log, f) && Ready(log, groupOf, a) && timer < MaxTimers
    ensures var r := After(log, groupOf, a, f);
            && timer < |r.exclusive| == |a.exclusive|
            && r.exclusive[timer] == Word(a.exclusive[timer] + Exclusive(log, f, timer))
    decreases f
  {
    hide Ready, EnterScope, LeaveScope, Step, After, LogType, TimerIndex, TickDifference, Word, Tally;
    ReadySizes(log, groupOf, a);
    match f
    case Done =>
      AfterDone(log, groupOf, a);
      WordSelf(a.exclusive[timer]);
    case Scope(enter, inner, leave, rest) =>
      var closing, closed := Around(log, groupOf, a, f);
      Entering(log, groupOf, a, enter);
      Leaving(log, groupOf, closing, leave, a.stack, enter);
      TimerExclusive(log, groupOf, EnterScope(log, groupOf, a, enter), inner, timer);
      TimerExclusive(log, groupOf, closed, rest, timer);
      var base := a.exclusive[timer] + Exclusive(log, inner, timer);
      var own := if TimerIndex(log[enter]) == timer then Duration(log, f) - RootTime(log, inner) else 0;
      WordSelf(closing.exclusive[timer]);
      WordAdds(RootTime(log, inner), closing.exclusive[timer] + Duration(log, f));
      WordAdds(base, own);
      WordAdds(base + own, Exclusive(log, rest, timer));
    case Note(entry, rest) =>
      AfterNote(log, groupOf, a, f);
      Noting(log, groupOf, a, entry);
      TimerExclusive(log, groupOf, Step(log, groupOf, a, entry), rest, timer);
  }

  /** A timer counts its scopes. */
  lemma {:induction false} TimerCalls(log: Log, groupOf: seq<nat>, a: Accounts, f: Forest, timer: nat)
    requires Logged(log, f) && Ready(log, groupOf, a) && timer < MaxTimers
    ensures var r := After(log, groupOf, a, f);
            && timer < |r.count| == |a.count|
            && r.count[timer] == Tally(a.count[timer], Calls(log, f, timer))
    decreases f
  {
    hide Ready, EnterScope, LeaveScope, Step, After, LogType, TimerIndex, TickDifference, Word, Tally;
    ReadySizes(log, groupOf, a);
    match f
    case Done =>
      AfterDone(log, groupOf, a);
      TallySelf(a.count[timer]);
    case Scope(enter, inner, leave, rest) =>
      var closing, closed := Around(log, groupOf, a, f);
      Entering(log, groupOf, a, enter);
      Leaving(log, groupOf, closing, leave, a.stack, enter);
      TimerCalls(log, groupOf, EnterScope(log, groupOf, a, enter), inner, timer);
      TimerCalls(log, groupOf, closed, rest, timer);
      var own := if TimerIndex(log[enter]) == timer then 1 else 0;
      TallySelf(closing.count[timer]);
      TallyAdds(a.count[timer], Calls(log, inner, timer), own);
      TallyAdds(a.count[timer], Calls(log, inner, timer) + own, Calls(log, rest, timer));
    case Note(entry, rest) =>
      AfterNote(log, groupOf, a, f);
      Noting(log, groupOf, a, entry);
      TimerCalls(log, groupOf, Step(log, groupOf, a, entry), rest, timer);
  }

  /** The counter of a group comes back to where it was. */
  lemma {:induction false} GroupsRestored(log: Log, groupOf: seq<nat>, a: Accounts, f: Forest, group: nat)
    requires Logged(log, f) && Ready(log, groupOf, a)
    requires RoomFor(a, group, Height(f))
    ensures var r := After(log, groupOf, a, f);
            |r.groupPos| == |a.groupPos| && r.groupPos[group] == a.groupPos[group]
    decreases f
  {
    hide Ready, EnterScope, LeaveScope, Step, After, LogType, TimerIndex, TickDifference, Word, Tally;
    ReadySizes(log, groupOf, a);
    match f
    case Done =>
      AfterDone(log, groupOf, a);
    case Scope(enter, inner, leave, rest) =>
      var closing, closed := Around(log, groupOf, a, f);
      Entering(log, groupOf, a, enter);
      Leaving(log, groupOf, closing, leave, a.stack, enter);
      GroupsRestored(log, groupOf, EnterScope(log, groupOf, a, enter), inner, group);
      GroupsRestored(log, groupOf, closed, rest, group);
    case Note(entry, rest) =>
      AfterNote(log, groupOf, a, f);
      Noting(log, groupOf, a, entry);
      GroupsRestored(log, groupOf, Step(log, groupOf, a, entry), rest, group);
  }

  /** What the first scope of `f` hands to a group of which `open` scopes are open around it. */
  ghost function OwnGroupTime(log: Log, groupOf: seq<nat>, f: Forest, open: nat, group: nat): int
    requires Logged(log, f) && f.Scope?
  {
    if open != 0 then 0
    else if GroupAt(groupOf, TimerIndex(log[f.enter])) == group then Duration(log, f)
    else GroupTime(log, groupOf, f.inner, group)
  }

  lemma {:induction false} ScopeGroupTicks(log: Log, groupOf: seq<nat>, a: Accounts, f: Forest, group: nat,
                                           closing: Accounts, closed: Accounts)
    requires Logged(log, f) && f.Scope? && Ready(log, groupOf, closing) && group < MaxGroups
    requires |a.groupPos| == |a.groupTicks| == MaxGroups && closing.stack == a.stack + [f.enter]
    requires closed == LeaveScope(log, groupOf, closing, f.leave)
    requires |closing.groupPos| == MaxGroups && closing.groupPos[group]
             == a.groupPos[group] + if GroupAt(groupOf, TimerIndex(log[f.enter])) == group then 1 else 0
    requires group < |closing.groupTicks|
    requires closing.groupTicks[group]
             == Word(a.groupTicks[group]
                     + if closing.groupPos[group] == 0 then GroupTime(log, groupOf, f.inner, group) else 0)
    ensures |closed.groupTicks| == |closed.groupPos| == MaxGroups && closed.groupPos[group] == a.groupPos[group]
    ensures closed.groupTicks[group]
            == Word(a.groupTicks[group] + OwnGroupTime(log, groupOf, f, a.groupPos[group], group))
  {
    hide Ready, LeaveScope, LogType, TimerIndex, TickDifference, Word, Tally;
    ReadySizes(log, groupOf, closing);
    Leaving(log, groupOf, closing, f.leave, a.stack, f.enter);
    WordSelf(a.groupTicks[group]);
  }

  /** A group is handed the time of its outermost scopes, unless one of its scopes was open before. */
  lemma {:induction false} GroupTicks(log: Log, groupOf: seq<nat>, a: Accounts, f: Forest, group: nat)
    requires Logged(log, f) && Ready(log, groupOf, a) && group < MaxGroups
    requires RoomFor(a, group, Height(f))
    ensures var r := After(log, groupOf, a, f);
            && group < |r.groupTicks| == |a.groupTicks| == |a.groupPos|
            && r.groupTicks[group] == Word(a.groupTicks[group]
                                           + if a.groupPos[group] == 0 then GroupTime(log, groupOf, f, group) else 0)
    decreases f
  {
    hide Ready, EnterScope, LeaveScope, Step, After, LogType, TimerIndex, TickDifference, Word, Tally;
    ReadySizes(log, groupOf, a);
    match f
    case Done =>
      AfterDone(log, groupOf, a);
      WordSelf(a.groupTicks[group]);
    case Scope(enter, inner, leave, rest) =>
      var closing, closed := Around(log, groupOf, a, f);
      Entering(log, groupOf, a, enter);
      GroupsRestored(log, groupOf, EnterScope(log, groupOf, a, enter), inner, group);
      GroupTicks(log, groupOf, EnterScope(log, groupOf, a, enter), inner, group);
      var own := OwnGroupTime(log, groupOf, f, a.groupPos[group], group);
      ScopeGroupTicks(log, groupOf, a, f, group, closing, closed);
      GroupTicks(log, groupOf, closed, rest, group);
      WordAdds(a.groupTicks[group] + own, if a.groupPos[group] == 0 then GroupTime(log, groupOf, rest, group) else 0);
    case Note(entry, rest) =>
      AfterNote(log, groupOf, a, f);
      Noting(log, groupOf, a, entry);
      GroupTicks(log, groupOf, Step(log, groupOf, a, entry), rest, group);
  }

  function OpenTimer(log: Log, a: Accounts): int {
    if a.stack != [] && a.stack[|a.stack| - 1] < |log| then TimerIndex(log[a.stack[|a.stack| - 1]]) else -1
  }

  /** What is counted goes to the innermost scope open at that moment. */
  lemma {:induction false} MetaCounts(log: Log, groupOf: seq<nat>, a: Accounts, f: Forest, meta: nat, timer: nat)
    requires Logged(log, f) && Ready(log, groupOf, a) && meta < MetaMax && timer < MaxTimers
    ensures var r := After(log, groupOf, a, f);
            && meta < |a.counters| == |r.counters| && timer < |a.counters[meta]| == |r.counters[meta]|
            && r.counters[meta][timer]
               == Word(a.counters[meta][timer] + Counted(log, f, OpenTimer(log, a), meta, timer))
    decreases f
  {
    hide Ready, EnterScope, LeaveScope, Step, After, LogType, TimerIndex, TickDifference, LogTick, Word, Tally, Duration, Add, OpenTimer;
    CounterSizes(log, groupOf, a, meta);
    match f
    case Done =>
      AfterDone(log, groupOf, a);
      WordSelf(a.counters[meta][timer]);
    case Scope(enter, inner, leave, rest) =>
      var closing, closed := Around(log, groupOf, a, f);
      Entering(log, groupOf, a, enter);
      Leaving(log, groupOf, closing, leave, a.stack, enter);
      var entered := EnterScope(log, groupOf, a, enter);
      OpenAround(log, a, entered, closed, enter);
      MetaCounts(log, groupOf, entered, inner, meta, timer);
      MetaCounts(log, groupOf, closed, rest, meta, timer);
      WordAdds(a.counters[meta][timer] + Counted(log, inner, OpenTimer(log, entered), meta, timer),
               Counted(log, rest, OpenTimer(log, a), meta, timer));
    case Note(entry, rest) =>
      AfterNote(log, groupOf, a, f);
      Noting(log, groupOf, a, entry);
      NotingCounts(log, groupOf, a, entry, meta, timer);
      var noted := Step(log, groupOf, a, entry);
      SameOpen(log, a, noted);
      MetaCounts(log, groupOf, noted, rest, meta, timer);
      var own := if LogType(log[entry]) == Meta && TimerIndex(log[entry]) == meta && OpenTimer(log, a) == timer
                 then LogTick(log[entry]) else 0;
      WordAdds(a.counters[meta][timer] + own, Counted(log, rest, OpenTimer(log, a), meta, timer));
  }

  lemma {:induction false} OpenAround(log: Log, a: Accounts, entered: Accounts, closed: Accounts, enter: nat)
    requires entered.stack == a.stack + [enter] && closed.stack == a.stack && enter < |log|
    ensures OpenTimer(log, entered) == TimerIndex(log[enter]) && OpenTimer(log, closed) == OpenTimer(log, a)
  {
    hide TimerIndex;
  }

  lemma {:induction false} SameOpen(log: Log, a: Accounts, b: Accounts)
    requires a.stack == b.stack
    ensures OpenTimer(log, a) == OpenTimer(log, b)
  {
    hide TimerIndex;
  }

  lemma {:induction false} CounterSizes(log: Log, groupOf: seq<nat>, a: Accounts, meta: nat)
    requires Ready(log, groupOf, a) && meta < MetaMax
    ensures |a.counters| == MetaMax && |a.counters[meta]| == MaxTimers
  {
  }

  lemma {:induction false} NotingCounts(log: Log, groupOf: seq<nat>, a: Accounts, k: nat, meta: nat, timer: nat)
    requires Ready(log, groupOf, a) && k < |log| && LogType(log[k]) >= Meta && meta < MetaMax && timer < MaxTimers
    ensures var r := Step(log, groupOf, a, k);
            && meta < |a.counters| == |r.counters| && timer < |a.counters[meta]| == |r.counters[meta]|
            && r.counters[meta][timer]
               == Word(a.counters[meta][timer]
                       + if LogType(log[k]) == Meta && TimerIndex(log[k]) == meta && OpenTimer(log, a) == timer
                         then LogTick(log[k]) else 0)
  {
    hide LogType, TimerIndex, LogTick, Word;
    WordSelf(a.counters[meta][timer]);
  }

  lemma {:induction false} WordSelf(w: Word64)
    ensures Word(w) == w && Word(w + 0) == w
  {
  }

  lemma {:induction false} TallySelf(w: Word32)
    ensures Tally(w, 0) == w
  {
  }

  lemma {:induction false} TallyAdds(x: int, y: int, z: int)
    ensures Tally(Tally(x, y), z) == Tally(x, y + z)
  {
    var q := (x + y) / CountSpan;
    var w := x + y + z;
    assert Tally(x, y) + z == w - q * CountSpan;
    assert w - q * CountSpan == w % CountSpan + (w / CountSpan - q) * CountSpan;
  }

  /** Some prefix of the entries leaves as many scopes open as the forest is high. */
  lemma {:induction false} DeepestPrefix(log: Log, groupOf: seq<nat>, a: Accounts, f: Forest) returns (n: nat)
    requires Logged(log, f) && Ready(log, groupOf, a)
    ensures n <= |Positions(f)| && InLog(log, Positions(f)[..n])
    ensures |Replay(log, groupOf, a, Positions(f)[..n]).stack| == |a.stack| + Height(f)
    decreases f
  {
    hide Positions, Duration, Ready, EnterScope, LeaveScope, Step, After, Replay, LogType, TimerIndex, TickDifference, Word, Tally;
    match f
    case Done =>
      n := 0;
      ReplayNone(log, groupOf, a, Positions(f)[..0]);
    case Scope(enter, inner, leave, rest) =>
      if Height(f) == Height(rest) {
        var closing, closed := Around(log, groupOf, a, f);
        Leaving(log, groupOf, closing, leave, a.stack, enter);
        n := DeepestPrefix(log, groupOf, closed, rest);
        ScopePrefix(log, groupOf, a, f, n);
        n := n + |Positions(inner)| + 2;
      } else {
        var entered := EnterScope(log, groupOf, a, enter);
        Entering(log, groupOf, a, enter);
        n := DeepestPrefix(log, groupOf, entered, inner);
        EnterPrefix(log, groupOf, a, f, n);
        n := n + 1;
      }
    case Note(entry, rest) =>
      var noted := Step(log, groupOf, a, entry);
      Noting(log, groupOf, a, entry);
      n := DeepestPrefix(log, groupOf, noted, rest);
      NotePrefix(log, groupOf, a, f, n);
      n := n + 1;
  }

  /** The entry of the first scope and some more. */
  lemma {:induction false} EnterPrefix(log: Log, groupOf: seq<nat>, a: Accounts, f: Forest, n: nat)
    requires Logged(log, f) && f.Scope? && Ready(log, groupOf, a) && n <= |Positions(f.inner)|
    ensures n + 1 <= |Positions(f)| && InLog(log, Positions(f)[..n + 1]) && InLog(log, Positions(f.inner)[..n])
    ensures Replay(log, groupOf, a, Positions(f)[..n + 1])
            == Replay(log, groupOf, EnterScope(log, groupOf, a, f.enter), Positions(f.inner)[..n])
  {
    hide Ready, EnterScope, LeaveScope, Replay, LogType, TimerIndex;
    PositionsInLog(log, f);
    PositionsInLog(log, f.inner);
    ReplayOne(log, groupOf, a, f.enter);
    ReplayConcat(log, groupOf, a, [f.enter], Positions(f.inner)[..n]);
    assert Positions(f)[..n + 1] == [f.enter] + Positions(f.inner)[..n];
  }

  lemma {:induction false} NotePrefix(log: Log, groupOf: seq<nat>, a: Accounts, f: Forest, n: nat)
    requires Logged(log, f) && f.Note? && Ready(log, groupOf, a) && n <= |Positions(f.rest)|
    ensures n + 1 <= |Positions(f)| && InLog(log, Positions(f)[..n + 1]) && InLog(log, Positions(f.rest)[..n])
    ensures Replay(log, groupOf, a, Positions(f)[..n + 1])
            == Replay(log, groupOf, Step(log, groupOf, a, f.entry), Positions(f.rest)[..n])
  {
    hide Ready, Step, Replay, LogType, TimerIndex;
    PositionsInLog(log, f);
    PositionsInLog(log, f.rest);
    ReplayOne(log, groupOf, a, f.entry);
    ReplayConcat(log, groupOf, a, [f.entry], Positions(f.rest)[..n]);
    assert Positions(f)[..n + 1] == [f.entry] + Positions(f.rest)[..n];
  }

  /** The entries of the first scope and some more. */
  lemma {:induction false} ScopePrefix(log: Log, groupOf: seq<nat>, a: Accounts, f: Forest, n: nat)
    requires Logged(log, f) && f.Scope? && Ready(log, groupOf, a) && n <= |Positions(f.rest)|
    ensures var m := n + |Positions(f.inner)| + 2;
            var entered := EnterScope(log, groupOf, a, f.enter);
            var closed := LeaveScope(log, groupOf, After(log, groupOf, entered, f.inner), f.leave);
            && m <= |Positions(f)| && InLog(log, Positions(f)[..m]) && InLog(log, Positions(f.rest)[..n])
            && Replay(log, groupOf, a, Positions(f)[..m]) == Replay(log, groupOf, closed, Positions(f.rest)[..n])
  {
    hide Ready, EnterScope, LeaveScope, Replay, LogType, TimerIndex;
    var k1, k2, k3, k4 := [f.enter], Positions(f.inner), [f.leave], Positions(f.rest)[..n];
    PositionsInLog(log, f);
    PositionsInLog(log, f.inner);
    PositionsInLog(log, f.rest);
    ReplayOne(log, groupOf, a, f.enter);
    ReplayConcat(log, groupOf, a, k1, k2);
    ReplayConcat(log, groupOf, a, k1 + k2, k3);
    ReplayOne(log, groupOf, After(log, groupOf, EnterScope(log, groupOf, a, f.enter), f.inner), f.leave);
    ReplayConcat(log, groupOf, a, k1 + k2 + k3, k4);
    assert Positions(f)[..n + |k2| + 2] == k1 + k2 + k3 + k4;
  }

  // ---------------------------------------------------------------- every matched segment is nested

  /** Each leave entry closes the innermost open scope, of the same timer; `open` lists the timers open. */
  ghost predicate Matched(log: Log, ks: seq<nat>, open: seq<nat>)
    requires InLog(log, ks)
  {
    if ks == [] then open == []
    else
      var timer := TimerIndex(log[ks[0]]);
      if LogType(log[ks[0]]) == Enter then Matched(log, ks[1..], open + [timer])
      else if LogType(log[ks[0]]) == Leave then
        open != [] && open[|open| - 1] == timer && Matched(log, ks[1..], open[..|open| - 1])
      else Matched(log, ks[1..], open)
  }

  /** The nested scopes up to the leave entry that closes what was open before. */
  lemma {:induction false} NestedPart(log: Log, ks: seq<nat>, open: seq<nat>) returns (f: Forest, tail: seq<nat>)
    requires InLog(log, ks) && Matched(log, ks, open)
    ensures Logged(log, f) && ks == Positions(f) + tail && InLog(log, tail)
    ensures open == [] ==> tail == []
    ensures open != [] ==>
              && tail != [] && LogType(log[tail[0]]) == Leave && TimerIndex(log[tail[0]]) == open[|open| - 1]
              && Matched(log, tail[1..], open[..|open| - 1])
    decreases |ks|
  {
    hide LogType, TimerIndex, Matched;
    if ks == [] {
      MatchedNone(log, open);
      f, tail := Done, ks;
      return;
    }
    MatchedHead(log, ks, open);
    if LogType(log[ks[0]]) == Leave {
      f, tail := Done, ks;
    } else if LogType(log[ks[0]]) == Enter {
      var inner, after := NestedPart(log, ks[1..], open + [TimerIndex(log[ks[0]])]);
      assert (open + [TimerIndex(log[ks[0]])])[..|open|] == open;
      var rest;
      rest, tail := NestedPart(log, after[1..], open);
      f := Scope(ks[0], inner, after[0], rest);
      Regroup(ks, Positions(inner), after, Positions(rest), tail);
    } else {
      var rest;
      rest, tail := NestedPart(log, ks[1..], open);
      f := Note(ks[0], rest);
      assert ks == [ks[0]] + (Positions(rest) + tail);
      assert LogType(log[ks[0]]) >= Meta;
    }
  }

  /** A segment whose scopes all match is the log of nested scopes. */
  lemma {:induction false} MatchedIsNested(log: Log, ks: seq<nat>) returns (f: Forest)
    requires InLog(log, ks) && Matched(log, ks, [])
    ensures Logged(log, f) && Positions(f) == ks
  {
    var tail;
    f, tail := NestedPart(log, ks, []);
  }

  /** ... and the log of nested scopes matches. */
  lemma {:induction false} NestedIsMatched(log: Log, f: Forest, tail: seq<nat>, open: seq<nat>)
    requires Logged(log, f) && InLog(log, tail)
    ensures InLog(log, Positions(f) + tail)
    ensures Matched(log, Positions(f) + tail, open) <==> Matched(log, tail, open)
    decreases f
  {
    hide LogType, TimerIndex, Matched;
    PositionsInLog(log, f);
    match f
    case Done =>
      assert Positions(f) + tail == tail;
    case Scope(enter, inner, leave, rest) =>
      NestedIsMatched(log, rest, tail, open);
      var timer := TimerIndex(log[enter]);
      var after := [leave] + (Positions(rest) + tail);
      MatchedFirst(log, leave, Positions(rest) + tail, open + [timer]);
      assert (open + [timer])[..|open|] == open;
      NestedIsMatched(log, inner, after, open + [timer]);
      MatchedFirst(log, enter, Positions(inner) + after, open);
      Ungroup(enter, Positions(inner), leave, Positions(rest), tail);
    case Note(entry, rest) =>
      NestedIsMatched(log, rest, tail, open);
      MatchedFirst(log, entry, Positions(rest) + tail, open);
      assert Positions(f) + tail == [entry] + (Positions(rest) + tail);
  }

  lemma {:induction false} Ungroup(enter: nat, inner: seq<nat>, leave: nat, rest: seq<nat>, tail: seq<nat>)
    ensures [enter] + inner + [leave] + rest + tail == [enter] + (inner + ([leave] + (rest + tail)))
  {
  }

  lemma {:induction false} MatchedNone(log: Log, open: seq<nat>)
    ensures Matched(log, [], open) <==> open == []
  {
  }

  lemma {:induction false} Regroup(ks: seq<nat>, inner: seq<nat>, after: seq<nat>, rest: seq<nat>, tail: seq<nat>)
    requires ks != [] && after != [] && ks[1..] == inner + after && after[1..] == rest + tail
    ensures ks == [ks[0]] + inner + [after[0]] + rest + tail
  {
    assert ks == [ks[0]] + ks[1..] && after == [after[0]] + after[1..];
  }

  lemma {:induction false} MatchedHead(log: Log, ks: seq<nat>, open: seq<nat>)
    requires InLog(log, ks) && ks != []
    ensures InLog(log, ks[1..]) && ks[0] < |log|
    ensures var timer := TimerIndex(log[ks[0]]);
            Matched(log, ks, open)
            <==> if LogType(log[ks[0]]) == Enter then Matched(log, ks[1..], open + [timer])
                 else if LogType(log[ks[0]]) == Leave then
                   open != [] && open[|open| - 1] == timer && Matched(log, ks[1..], open[..|open| - 1])
                 else Matched(log, ks[1..], open)
  {
  }

  lemma {:induction false} MatchedFirst(log: Log, k: nat, ks: seq<nat>, open: seq<nat>)
    requires InLog(log, ks) && k < |log|
    ensures InLog(log, [k] + ks)
    ensures var timer := TimerIndex(log[k]);
            Matched(log, [k] + ks, open)
            <==> if LogType(log[k]) == Enter then Matched(log, ks, open + [timer])
                 else if LogType(log[k]) == Leave then
                   open != [] && open[|open| - 1] == timer && Matched(log, ks, open[..|open| - 1])
                 else Matched(log, ks, open)
  {
    assert ([k] + ks)[1..] == ks;
  }
}
