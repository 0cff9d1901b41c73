/**
  The replay of a frame: log entries open and close scopes on a stack, and every closed scope hands its
  time to its timer, to its parent and, when it is the outermost of its group, to that group.

  Sums are kept in 64-bit words as the profiler's arrays keep them, two's complement where the array is
  signed; they wrap.
 */
module ProfileTicks {
  import opened ProfileEntry

  const MaxTimers: nat := 1024
  const MaxGroups: nat := 48
  const MetaMax: nat := 8
  const CountSpan: int := 0x1_0000_0000

  type Log = seq<nat>

  type Word64 = x: int | 0 <= x < WordSpan

  type Word32 = x: int | 0 <= x < CountSpan

  /** `stack` holds log positions of open scopes; `child` holds one sum more than there are open scopes. */
  datatype Accounts = Accounts(
    stack: seq<nat>,
    child: seq<Word64>,
    ticks: seq<Word64>,
    exclusive: seq<Word64>,
    count: seq<Word32>,
    groupPos: seq<nat>,
    groupTicks: seq<Word64>,
    counters: seq<seq<Word64>>)

  /** Every index into the tables is in range: what the profiler asserts of its tokens. */
  ghost predicate Known(log: Log, groupOf: seq<nat>) {
    && |groupOf| == MaxTimers
    && (forall t :: 0 <= t < |groupOf| ==> groupOf[t] < MaxGroups)
    && (forall k :: 0 <= k < |log| ==> LogType(log[k]) != Meta ==> TimerIndex(log[k]) < MaxTimers)
    && (forall k :: 0 <= k < |log| ==> LogType(log[k]) == Meta ==> TimerIndex(log[k]) < MetaMax)
  }

  /** The scopes on the stack were opened by entries of the log. */
  ghost predicate Opened(log: Log, stack: seq<nat>) {
    forall i :: 0 <= i < |stack| ==> stack[i] < |log| && TimerIndex(log[stack[i]]) < MaxTimers
  }

  ghost predicate Shaped(a: Accounts) {
    && |a.child| == |a.stack| + 1
    && |a.ticks| == MaxTimers && |a.exclusive| == MaxTimers && |a.count| == MaxTimers
    && |a.groupPos| == MaxGroups && |a.groupTicks| == MaxGroups
    && |a.counters| == MetaMax && forall m :: 0 <= m < |a.counters| ==> |a.counters[m]| == MaxTimers
  }

  ghost predicate Ready(log: Log, groupOf: seq<nat>, a: Accounts) {
    Known(log, groupOf) && Shaped(a) && Opened(log, a.stack)
  }

  function Word(x: int): Word64 { x % WordSpan }

  function Tally(x: int, more: int): Word32 { (x + more) % CountSpan }

  function Add(s: seq<Word64>, i: nat, x: int): (r: seq<Word64>)
    requires i < |s|
    ensures |r| == |s|
  {
    s[i := Word(s[i] + x)]
  }

  // ---------------------------------------------------------------- one entry

  function EnterScope(log: Log, groupOf: seq<nat>, a: Accounts, k: nat): (r: Accounts)
    requires Ready(log, groupOf, a) && k < |log| && LogType(log[k]) == Enter
    ensures Ready(log, groupOf, r)
  {
    var group := groupOf[TimerIndex(log[k])];
    a.(groupPos := a.groupPos[group := (a.groupPos[group] + 1) % 256],
       stack := a.stack + [k],
       child := a.child + [0])
  }

  function CountMeta(log: Log, groupOf: seq<nat>, a: Accounts, k: nat): (r: Accounts)
    requires Ready(log, groupOf, a) && k < |log| && LogType(log[k]) == Meta
    ensures Ready(log, groupOf, r)
  {
    if a.stack == [] then a
    else
      var m, timer := TimerIndex(log[k]), TimerIndex(log[a.stack[|a.stack| - 1]]);
      a.(counters := a.counters[m := Add(a.counters[m], timer, LogTick(log[k]))])
  }

  function LeaveScope(log: Log, groupOf: seq<nat>, a: Accounts, k: nat): (r: Accounts)
    requires Ready(log, groupOf, a) && k < |log| && LogType(log[k]) == Leave
    ensures Ready(log, groupOf, r)
  {
    if a.stack == [] then a
    else
      var timer := TimerIndex(log[k]);
      var group := groupOf[timer];
      var depth := |a.stack| - 1;
      var ticks := TickDifference(log[a.stack[depth]], log[k]);
      var below := a.groupPos[group];
      a.(stack := a.stack[..depth],
         child := Add(a.child[..depth + 1], depth, ticks),
         ticks := Add(a.ticks, timer, ticks),
         exclusive := Add(a.exclusive, timer, ticks - a.child[depth + 1]),
         count := a.count[timer := Tally(a.count[timer], 1)],
         groupPos := if below == 0 then a.groupPos else a.groupPos[group := below - 1],
         groupTicks := if below == 1 then Add(a.groupTicks, group, ticks) else a.groupTicks)
  }

  function Step(log: Log, groupOf: seq<nat>, a: Accounts, k: nat): (r: Accounts)
    requires Ready(log, groupOf, a) && k < |log|
    ensures Ready(log, groupOf, r)
  {
    if LogType(log[k]) == Enter then EnterScope(log, groupOf, a, k)
    else if LogType(log[k]) == Meta then CountMeta(log, groupOf, a, k)
    else if LogType(log[k]) == Leave then LeaveScope(log, groupOf, a, k)
    else a
  }

  ghost predicate InLog(log: Log, ks: seq<nat>) { forall i :: 0 <= i < |ks| ==> ks[i] < |log| }

  /** The entries at the positions `ks`, one after the other. */
  function Replay(log: Log, groupOf: seq<nat>, a: Accounts, ks: seq<nat>): (r: Accounts)
    requires Ready(log, groupOf, a) && InLog(log, ks)
    ensures Ready(log, groupOf, r)
  {
    if ks == [] then a
    else Step(log, groupOf, Replay(log, groupOf, a, ks[..|ks| - 1]), ks[|ks| - 1])
  }

  lemma {:induction false} ReplayConcat(log: Log, groupOf: seq<nat>, a: Accounts, ks: seq<nat>, ls: seq<nat>)
    requires Ready(log, groupOf, a) && InLog(log, ks) && InLog(log, ls)
    ensures InLog(log, ks + ls)
    ensures Replay(log, groupOf, a, ks + ls) == Replay(log, groupOf, Replay(log, groupOf, a, ks), ls)
  {
    hide Ready, Step;
    if ls == [] {
      assert ks + ls == ks;
    } else {
      var front := ls[..|ls| - 1];
      ReplayConcat(log, groupOf, a, ks, front);
      assert (ks + ls)[..|ks + ls| - 1] == ks + front;
    }
  }

  // ---------------------------------------------------------------- conservation

  function Sum(s: seq<Word64>): nat { if s == [] then 0 else Sum(s[..|s| - 1]) + s[|s| - 1] }

  /** Equal as 64-bit words. */
  predicate SameWord(x: int, y: int) { (x - y) % WordSpan == 0 }

  lemma {:induction false} SumUpdate(s: seq<Word64>, i: nat, v: Word64)
    requires i < |s|
    ensures Sum(s[i := v]) == Sum(s) - s[i] + v
  {
    var u := s[i := v];
    if i < |s| - 1 {
      assert u[..|s| - 1] == s[..|s| - 1][i := v];
      SumUpdate(s[..|s| - 1], i, v);
    } else {
      assert u[..|s| - 1] == s[..|s| - 1];
    }
  }

  lemma {:induction false} AddSums(s: seq<Word64>, i: nat, x: int)
    requires i < |s|
    ensures SameWord(Sum(Add(s, i, x)), Sum(s) + x)
  {
    SumUpdate(s, i, Word(s[i] + x));
    var v := s[i] + x;
    assert Word(v) - v == -(v / WordSpan) * WordSpan;
  }

  lemma {:induction false} SameWordChain(a: int, b: int, c: int, d: int)
    requires SameWord(a, b) && SameWord(c, d)
    ensures SameWord(a - c, b - d) && SameWord(a + c, b + d)
  {
    assert a - b == ((a - b) / WordSpan) * WordSpan && c - d == ((c - d) / WordSpan) * WordSpan;
  }

  /** A closed scope: its time goes to the parent, and what its children left of it to its timer. */
  lemma {:induction false} LeaveConserves(exclusive: seq<Word64>, timer: nat, child: seq<Word64>, ticks: int)
    requires timer < |exclusive| && |child| >= 2
    ensures var depth := |child| - 2;
            SameWord(Sum(Add(exclusive, timer, ticks - child[depth + 1])) - Sum(exclusive),
                     Sum(Add(child[..depth + 1], depth, ticks)) - Sum(child))
  {
    hide Add, SameWord;
    var depth := |child| - 2;
    var own := ticks - child[depth + 1];
    AddSums(exclusive, timer, own);
    AddSums(child[..depth + 1], depth, ticks);
    SameWordChain(Sum(Add(exclusive, timer, own)), Sum(exclusive) + own,
                  Sum(Add(child[..depth + 1], depth, ticks)), Sum(child[..depth + 1]) + ticks);
    SameWordMoved(Sum(Add(exclusive, timer, own)), Sum(exclusive), Sum(Add(child[..depth + 1], depth, ticks)), Sum(child));
  }

  lemma {:induction false} SameWordMoved(a: int, b: int, c: int, d: int)
    requires SameWord(a - c, b - d)
    ensures SameWord(a - b, c - d)
  {
    assert (a - c) - (b - d) == (a - b) - (c - d);
  }

  /** One entry adds to the exclusive times what it adds to the sums of the open scopes. */
  lemma {:induction false} StepConserves(log: Log, groupOf: seq<nat>, a: Accounts, k: nat)
    requires Ready(log, groupOf, a) && k < |log|
    ensures var r := Step(log, groupOf, a, k);
            SameWord(Sum(r.exclusive) - Sum(a.exclusive), Sum(r.child) - Sum(a.child))
  {
    hide Sum, Add, TickDifference, LogType, TimerIndex;
    if LogType(log[k]) == Enter {
      SumPush(a.child);
    } else if LogType(log[k]) == Leave && a.stack != [] {
      var ticks := TickDifference(log[a.stack[|a.stack| - 1]], log[k]);
      LeaveConserves(a.exclusive, TimerIndex(log[k]), a.child, ticks);
    }
  }

  lemma {:induction false} SumPush(s: seq<Word64>)
    ensures Sum(s + [0]) == Sum(s)
  {
    assert (s + [0])[..|s|] == s;
  }

  /**
    Over every segment of the log, from every state: the exclusive times grow together by exactly what
    the child sums of the open scopes grow.
   */
  lemma {:induction false} ReplayConserves(log: Log, groupOf: seq<nat>, a: Accounts, ks: seq<nat>)
    requires Ready(log, groupOf, a) && InLog(log, ks)
    ensures var r := Replay(log, groupOf, a, ks);
            SameWord(Sum(r.exclusive) - Sum(a.exclusive), Sum(r.child) - Sum(a.child))
  {
    hide Ready, Step, Replay, SameWord, Sum;
    if ks == [] {
      ReplayNone(log, groupOf, a, ks);
      SameWordSelf(Sum(a.exclusive), Sum(a.child));
    } else {
      var front := ks[..|ks| - 1];
      var b, r := Replay(log, groupOf, a, front), Replay(log, groupOf, a, ks);
      ReplayLast(log, groupOf, a, ks);
      ReplayConserves(log, groupOf, a, front);
      StepConserves(log, groupOf, b, ks[|ks| - 1]);
      SameWordChain(Sum(b.exclusive) - Sum(a.exclusive), Sum(b.child) - Sum(a.child),
                    Sum(r.exclusive) - Sum(b.exclusive), Sum(r.child) - Sum(b.child));
    }
  }

  lemma {:induction false} SameWordSelf(x: int, y: int)
    ensures SameWord(x - x, y - y)
  {
  }

  lemma {:induction false} ReplayNone(log: Log, groupOf: seq<nat>, a: Accounts, ks: seq<nat>)
    requires Ready(log, groupOf, a) && ks == []
    ensures Replay(log, groupOf, a, ks) == a
  {
  }

  lemma {:induction false} ReplayLast(log: Log, groupOf: seq<nat>, a: Accounts, ks: seq<nat>)
    requires Ready(log, groupOf, a) && InLog(log, ks) && ks != []
    ensures Replay(log, groupOf, a, ks)
            == Step(log, groupOf, Replay(log, groupOf, a, ks[..|ks| - 1]), ks[|ks| - 1])
  {
  }
}
