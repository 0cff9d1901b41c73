/**
  The log ring of one profiled thread and the frame marks that a delayed reader follows.

  The thread appends entries to a circular log; every flip marks where the log has got to, opens the
  log for the next frame and replays the frame that ended `FrameDelay` flips ago.
 */
module ProfileRing {

  /** MICROPROFILE_BUFFER_SIZE for a 16 MB log of 8-byte entries. */
  const BufferSize: nat := 2097152
  const FrameHistory: nat := 512
  const FrameDelay: nat := 3

  // ---------------------------------------------------------------- what happened, without a ring

  /** All entries ever accepted, and how many there were at each flip. */
  datatype History = History(accepted: seq<nat>, marks: seq<nat>)

  const Fresh: History := History([], [])

  /** Where frame `n` begins; frames before the first flip are empty. */
  function Mark(h: History, n: int): nat
    requires n <= |h.marks|
  {
    if n <= 0 then 0 else h.marks[n - 1]
  }

  function LastMark(h: History): nat { Mark(h, |h.marks|) }

  /** Every frame holds fewer entries than the ring has slots. */
  ghost predicate Sound(h: History) {
    && (forall n :: 0 <= n < |h.marks| ==> Mark(h, n) <= h.marks[n] < Mark(h, n) + BufferSize)
    && LastMark(h) <= |h.accepted| < LastMark(h) + BufferSize
  }

  /** An entry is refused when its frame has filled the ring but for one slot. */
  function Record(h: History, e: nat): (r: History) {
    if |h.accepted| + 1 == LastMark(h) + BufferSize then h else h.(accepted := h.accepted + [e])
  }

  function MarkFrame(h: History): (r: History) { h.(marks := h.marks + [|h.accepted|]) }

  /** The bounds of the frame that a reader is due to replay. */
  function DueFrom(h: History): nat { Mark(h, |h.marks| - FrameDelay - 1) }

  function DueTo(h: History): nat { Mark(h, |h.marks| - FrameDelay) }

  lemma {:induction false} RecordSound(h: History, e: nat)
    requires Sound(h)
    ensures Sound(Record(h, e))
  {
    var r := Record(h, e);
    forall n | 0 <= n < |r.marks| ensures Mark(r, n) <= r.marks[n] < Mark(r, n) + BufferSize {
      assert Mark(r, n) == Mark(h, n);
    }
  }

  lemma {:induction false} MarkFrameSound(h: History)
    requires Sound(h)
    ensures Sound(MarkFrame(h))
  {
    var r := MarkFrame(h);
    forall n | 0 <= n < |r.marks| ensures Mark(r, n) <= r.marks[n] < Mark(r, n) + BufferSize {
      assert Mark(r, n) == Mark(h, n);
    }
  }

  lemma {:induction false} NextMark(h: History, n: int)
    requires Sound(h) && n < |h.marks|
    ensures Mark(h, n) <= Mark(h, n + 1)
  {
    if n >= 0 { assert Mark(h, n) <= h.marks[n]; }
  }

  lemma {:induction false} MarksOrdered(h: History, m: int, n: int)
    requires Sound(h) && m <= n <= |h.marks|
    ensures Mark(h, m) <= Mark(h, n) <= |h.accepted|
    decreases |h.marks| - m
  {
    if m < |h.marks| {
      NextMark(h, m);
      hide Sound, Mark;
      MarksOrdered(h, m + 1, if m < n then n else m + 1);
    }
  }

  // ---------------------------------------------------------------- slots of the ring

  /** The youngest of the first `total` entries that went into `slot`. */
  function Latest(total: nat, slot: nat): (j: nat)
    requires slot < BufferSize && slot < total
    ensures j < total <= j + BufferSize && j % BufferSize == slot
  {
    total - 1 - (total - 1 - slot) % BufferSize
  }

  /** Entry number `j` has not been written over. */
  predicate Intact(total: nat, j: nat)
    requires j < total
  {
    Latest(total, j % BufferSize) == j
  }

  /** An entry is still in its slot exactly when fewer than a ring's worth came after it. */
  lemma {:induction false} StillThere(total: nat, j: nat)
    requires j < total
    ensures Intact(total, j) <==> total - j <= BufferSize
  {
    if total - j <= BufferSize {
      SameSlot(Latest(total, j % BufferSize), j);
    }
  }

  lemma {:induction false} SameSlot(i: nat, j: nat)
    requires i % BufferSize == j % BufferSize && i < j + BufferSize && j < i + BufferSize
    ensures i == j
  {
  }

  lemma {:induction false} LatestAfterAppend(total: nat, slot: nat)
    requires slot < BufferSize && slot < total + 1
    ensures Latest(total + 1, slot) == if slot == total % BufferSize then total else Latest(total, slot)
  {
    if slot == total % BufferSize {
      SameSlot(Latest(total + 1, slot), total);
    } else {
      assert slot < total;
      SameSlot(Latest(total + 1, slot), Latest(total, slot));
    }
  }

  // ---------------------------------------------------------------- circular ranges

  /** At most two runs of slots, as `nRange[2][2]` holds them. */
  datatype Range = Range(start0: nat, end0: nat, start1: nat, end1: nat)

  const NoRange: Range := Range(0, 0, 0, 0)

  function Run(from: nat, to: nat): seq<nat> {
    if from < to then seq(to - from, i requires 0 <= i < to - from => from + i) else []
  }

  /** The slots in the order in which the two runs visit them. */
  function Slots(r: Range): seq<nat> { Run(r.start0, r.end0) + Run(r.start1, r.end1) }

  /** The slots of entries number `from` up to `to`. */
  function SlotsOf(from: nat, to: nat): (s: seq<nat>)
    requires from <= to
    ensures |s| == to - from && forall i :: 0 <= i < |s| ==> s[i] == (from + i) % BufferSize
  {
    seq(to - from, i requires 0 <= i < to - from => (from + i) % BufferSize)
  }

  /** The runs between two positions: none, one, or two where the ring's end lies between them. */
  function RangeOf(put: nat, get: nat): (r: Range)
    requires put < BufferSize && get < BufferSize
    ensures r.end0 <= BufferSize && r.end1 <= BufferSize
  {
    if put > get then Range(get, put, 0, 0)
    else if put != get then Range(get, BufferSize, 0, put)
    else NoRange
  }

  method GetRange(put: nat, get: nat) returns (range: Range)
    requires put < BufferSize && get < BufferSize
    ensures range == RangeOf(put, get)
    ensures range.end0 <= BufferSize && range.end1 <= BufferSize
    ensures forall from: nat, to: nat ::
              from <= to < from + BufferSize && from % BufferSize == get && to % BufferSize == put ==>
                Slots(range) == SlotsOf(from, to)
  {
    range := NoRange;
    if put > get {
      range := Range(get, put, 0, 0);
    } else if put != get {
      var countEnd := BufferSize - get;
      range := Range(get, get + countEnd, 0, put);
    }
    forall from: nat, to: nat | from <= to < from + BufferSize && from % BufferSize == get && to % BufferSize == put
      ensures Slots(range) == SlotsOf(from, to)
    {
      RangeIsCircular(range, from, to);
    }
  }

  lemma {:induction false} RangeIsCircular(range: Range, from: nat, to: nat)
    requires from <= to < from + BufferSize
    requires range == RangeOf(to % BufferSize, from % BufferSize)
    ensures Slots(range) == SlotsOf(from, to)
  {
    var get, put := from % BufferSize, to % BufferSize;
    var s, t := Slots(range), SlotsOf(from, to);
    Distance(from, to);
    assert |s| == |t|;
    forall i | 0 <= i < |s| ensures s[i] == t[i] {
      SlotAt(from, i);
    }
  }

  lemma {:induction false} Distance(from: nat, to: nat)
    requires from <= to < from + BufferSize
    ensures var get, put := from % BufferSize, to % BufferSize;
            to - from == if put >= get then put - get else put - get + BufferSize
  {
  }

  lemma {:induction false} SlotAt(from: nat, i: nat)
    requires i < BufferSize
    ensures var get := from % BufferSize;
            (from + i) % BufferSize == if get + i < BufferSize then get + i else get + i - BufferSize
  {
  }

  // ---------------------------------------------------------------- the ring

  ghost predicate HoldsLatest(log: seq<nat>, h: History) {
    && |log| == BufferSize
    && forall s :: 0 <= s < |log| && s < |h.accepted| ==> log[s] == h.accepted[Latest(|h.accepted|, s)]
  }

  ghost predicate HoldsMarks(starts: seq<nat>, h: History) {
    && |starts| == FrameHistory
    && forall n: int :: |h.marks| - FrameHistory < n <= |h.marks| ==>
         starts[n % FrameHistory] == Mark(h, n) % BufferSize
  }

  datatype Ring = Ring(log: seq<nat>, put: nat, get: nat)

  datatype Frames = Frames(starts: seq<nat>, put: nat, putIndex: nat)

  /** The ring and the frame marks stand for the history. */
  ghost predicate Holds(ring: Ring, frames: Frames, h: History) {
    && Sound(h) && HoldsLatest(ring.log, h) && HoldsMarks(frames.starts, h)
    && ring.put == |h.accepted| % BufferSize && ring.get == LastMark(h) % BufferSize
    && frames.putIndex == |h.marks| && frames.put == |h.marks| % FrameHistory
  }

  lemma {:induction false} RecordKeeps(ring: Ring, frames: Frames, h: History, e: nat)
    requires Holds(ring, frames, h)
    ensures |ring.log| == BufferSize && ring.put < BufferSize
    ensures var next := (ring.put + 1) % BufferSize;
            if next == ring.get then Record(h, e) == h
            else Record(h, e) != h && Holds(Ring(ring.log[ring.put := e], next, ring.get), frames, Record(h, e))
  {
    hide Sound, HoldsLatest, HoldsMarks, LastMark;
    assert |ring.log| == BufferSize by { LatestLength(ring.log, h); }
    RefusedWhenFull(h);
    if (ring.put + 1) % BufferSize != ring.get {
      RecordSound(h, e);
      KeepsLatest(ring.log, h, e);
      MarksStay(frames.starts, h, e);
      assert |Record(h, e).accepted| == |h.accepted| + 1;
      NextSlot(|h.accepted|);
    }
  }

  lemma {:induction false} LatestLength(log: seq<nat>, h: History)
    requires HoldsLatest(log, h)
    ensures |log| == BufferSize
  {
  }

  lemma {:induction false} NextSlot(n: nat)
    ensures (n % BufferSize + 1) % BufferSize == (n + 1) % BufferSize
  {
  }

  lemma {:induction false} MarkKeeps(ring: Ring, frames: Frames, h: History)
    requires Holds(ring, frames, h)
    ensures |frames.starts| == FrameHistory && frames.put < FrameHistory
    ensures var at := (frames.put + 1) % FrameHistory;
            var r, starts := MarkFrame(h), frames.starts[at := ring.put];
            && Holds(Ring(ring.log, ring.put, ring.put), Frames(starts, at, frames.putIndex + 1), r)
            && DueFrom(r) <= DueTo(r) < DueFrom(r) + BufferSize && DueTo(r) <= |r.accepted|
            && var current := (at + FrameHistory - FrameDelay - 1) % FrameHistory;
               && starts[current] == DueFrom(r) % BufferSize
               && starts[(current + 1) % FrameHistory] == DueTo(r) % BufferSize
  {
    hide Sound, HoldsMarks, HoldsLatest, LastMark, DueFrom, DueTo, MarkFrame;
    MarksFound(frames.starts, h);
    var r, at := MarkFrame(h), (frames.put + 1) % FrameHistory;
    MarkedHistory(ring.log, h);
    KeepsMarks(frames.starts, h);
    FrameBounds(r);
    NextFrame(|h.marks|);
    MarksFound(frames.starts[at := ring.put], r);
    FrameSlots(|r.marks|);
  }

  /** A mark changes nothing but the marks. */
  lemma {:induction false} MarkedHistory(log: seq<nat>, h: History)
    requires Sound(h) && HoldsLatest(log, h)
    ensures var r := MarkFrame(h);
            && Sound(r) && HoldsLatest(log, r) && |r.marks| == |h.marks| + 1
            && r.accepted == h.accepted && LastMark(r) == |h.accepted|
  {
    hide Sound;
    MarkFrameSound(h);
  }

  lemma {:induction false} NextFrame(n: nat)
    ensures (n % FrameHistory + 1) % FrameHistory == (n + 1) % FrameHistory
  {
  }

  lemma {:induction false} FrameSlots(n: nat)
    ensures var at := n % FrameHistory;
            var current := (at + FrameHistory - FrameDelay - 1) % FrameHistory;
            && current == (n - FrameDelay - 1) % FrameHistory
            && (current + 1) % FrameHistory == (n - FrameDelay) % FrameHistory
  {
    FramesBack(n, FrameDelay + 1);
    FramesBack(n, FrameDelay);
    var at := n % FrameHistory;
    assert (at + FrameHistory - FrameDelay) % FrameHistory
           == ((at + FrameHistory - FrameDelay - 1) % FrameHistory + 1) % FrameHistory by {
      NextFrame(at + FrameHistory - FrameDelay - 1);
    }
  }

  lemma {:induction false} FramesBack(n: nat, back: nat)
    requires back <= FrameHistory
    ensures (n % FrameHistory + FrameHistory - back) % FrameHistory == (n - back) % FrameHistory
  {
    var q, at := n / FrameHistory, n % FrameHistory;
    assert n - back == (at + FrameHistory - back) + (q - 1) * FrameHistory;
  }

  lemma {:induction false} KeepsLatest(log: seq<nat>, h: History, e: nat)
    requires HoldsLatest(log, h)
    ensures var r := History(h.accepted + [e], h.marks);
            HoldsLatest(log[|h.accepted| % BufferSize := e], r)
  {
    var r, total := History(h.accepted + [e], h.marks), |h.accepted|;
    var after := log[total % BufferSize := e];
    forall s | 0 <= s < |after| && s < total + 1 ensures after[s] == r.accepted[Latest(total + 1, s)] {
      LatestAfterAppend(total, s);
    }
  }

  lemma {:induction false} KeepsMarks(starts: seq<nat>, h: History)
    requires HoldsMarks(starts, h)
    ensures HoldsMarks(starts[(|h.marks| + 1) % FrameHistory := |h.accepted| % BufferSize], MarkFrame(h))
  {
    var r, at := MarkFrame(h), (|h.marks| + 1) % FrameHistory;
    var after := starts[at := |h.accepted| % BufferSize];
    forall n: int | |r.marks| - FrameHistory < n <= |r.marks|
      ensures after[n % FrameHistory] == Mark(r, n) % BufferSize
    {
      if n < |r.marks| {
        assert n % FrameHistory != at;
        assert Mark(r, n) == Mark(h, n);
      }
    }
  }

  /** Marks do not move when an entry is recorded. */
  lemma {:induction false} MarksStay(starts: seq<nat>, h: History, e: nat)
    requires HoldsMarks(starts, h)
    ensures HoldsMarks(starts, Record(h, e)) && LastMark(Record(h, e)) == LastMark(h)
  {
    var r := Record(h, e);
    assert forall n: int {:trigger Mark(r, n)} :: n <= |r.marks| ==> Mark(r, n) == Mark(h, n);
  }

  class ThreadLog {
    var log: array<nat>
    var put: nat
    var get: nat
    /** Where each of the last frames begins in the log. */
    var logStart: array<nat>
    var framePut: nat
    var framePutIndex: nat
    var overflow: nat
    ghost var history: History

    ghost predicate Valid()
      reads this, log, logStart
    {
      && log != logStart && log.Length == BufferSize && logStart.Length == FrameHistory
      && put < BufferSize && get < BufferSize && framePut < FrameHistory
      && Holds(Ring(log[..], put, get), Frames(logStart[..], framePut, framePutIndex), history)
    }

    constructor ()
      ensures Valid() && fresh(log) && fresh(logStart) && history == Fresh
    {
      log := new nat[BufferSize](_ => 0);
      logStart := new nat[FrameHistory](_ => 0);
      put, get, framePut, framePutIndex, overflow := 0, 0, 0, 0, 0;
      history := Fresh;
    }

    method LogPut(entry: nat)
      requires Valid()
      modifies this`put, this`overflow, this`history, log
      ensures Valid()
      ensures history == Record(old(history), entry)
      ensures history == old(history) ==> overflow == 100 && log[..] == old(log[..])
      ensures history != old(history) ==> overflow == old(overflow)
    {
      hide Holds, Record;
      RecordKeeps(Ring(log[..], put, get), Frames(logStart[..], framePut, framePutIndex), history, entry);
      var nextPos := (put + 1) % BufferSize;
      if nextPos == get {
        overflow := 100;
      } else {
        log[put] := entry;
        put := nextPos;
        history := Record(history, entry);
        assert log[..] == old(log[..])[old(put) := entry];
      }
    }

    /** The frame bookkeeping of a flip: mark the log, open it again, and find the frame to replay. */
    method MarkAndFind(running: bool, forceEnable: bool) returns (range: Range)
      requires Valid()
      modifies this`get, this`framePut, this`framePutIndex, this`history, logStart
      ensures Valid()
      ensures history == if running || forceEnable then MarkFrame(old(history)) else old(history)
      ensures range.end0 <= BufferSize && range.end1 <= BufferSize
      ensures if running then DueFrom(history) <= DueTo(history) <= |history.accepted|
                           && range == RangeOf(DueTo(history) % BufferSize, DueFrom(history) % BufferSize)
                           && Slots(range) == SlotsOf(DueFrom(history), DueTo(history))
              else range == NoRange
    {
      hide Holds, MarkFrame, DueFrom, DueTo, Slots, SlotsOf;
      range := NoRange;
      if running || forceEnable {
        MarkKeeps(Ring(log[..], put, get), Frames(logStart[..], framePut, framePutIndex), history);
        framePutIndex := framePutIndex + 1;
        framePut := (framePut + 1) % FrameHistory;
        var frameCurrent := (framePut + FrameHistory - FrameDelay - 1) % FrameHistory;
        var frameNext := (frameCurrent + 1) % FrameHistory;
        logStart[framePut] := put;
        get := put;
        history := MarkFrame(history);
        assert logStart[..] == old(logStart[..])[framePut := put];
        if running {
          range := GetRange(logStart[frameNext], logStart[frameCurrent]);
        }
      }
    }
  }

  lemma {:induction false} RefusedWhenFull(h: History)
    requires Sound(h)
    ensures (|h.accepted| % BufferSize + 1) % BufferSize == LastMark(h) % BufferSize
            <==> |h.accepted| + 1 == LastMark(h) + BufferSize
  {
    var a, m := |h.accepted| + 1, LastMark(h);
    assert (|h.accepted| % BufferSize + 1) % BufferSize == a % BufferSize;
    if a % BufferSize == m % BufferSize && a < m + BufferSize {
      SameSlot(a, m);
    }
  }

  lemma {:induction false} FrameBounds(h: History)
    requires Sound(h)
    ensures DueFrom(h) <= DueTo(h) < DueFrom(h) + BufferSize && DueTo(h) <= |h.accepted|
  {
    var n := |h.marks| - FrameDelay;
    MarksOrdered(h, n - 1, n);
    if n >= 1 { assert Mark(h, n) == h.marks[n - 1]; }
  }

  lemma {:induction false} MarksFound(starts: seq<nat>, h: History)
    requires HoldsMarks(starts, h)
    ensures |starts| == FrameHistory
    ensures starts[(|h.marks| - FrameDelay - 1) % FrameHistory] == DueFrom(h) % BufferSize
    ensures starts[(|h.marks| - FrameDelay) % FrameHistory] == DueTo(h) % BufferSize
  {
  }

  // ---------------------------------------------------------------- whole runs

  datatype Event = Put(entry: nat) | Flip(running: bool, forceEnable: bool)

  /** What the ring shows at the slots of entries number `from` up to `to`. */
  function Shown(h: History, from: nat, to: nat): (s: seq<nat>)
    requires from <= to <= |h.accepted|
    ensures |s| == to - from
  {
    seq(to - from, i requires 0 <= i < to - from =>
      h.accepted[Latest(|h.accepted|, (from + i) % BufferSize)])
  }

  function After(run: seq<Event>): History {
    if run == [] then Fresh
    else
      var h := After(run[..|run| - 1]);
      match run[|run| - 1]
      case Put(e) => Record(h, e)
      case Flip(running, forceEnable) => if running || forceEnable then MarkFrame(h) else h
  }

  lemma {:induction false} AfterSound(run: seq<Event>)
    ensures Sound(After(run))
  {
    if run != [] {
      var h := After(run[..|run| - 1]);
      AfterSound(run[..|run| - 1]);
      match run[|run| - 1]
      case Put(e) => RecordSound(h, e);
      case Flip(_, _) => MarkFrameSound(h);
    }
  }

  /** Everything replayed over a run, in the order in which it was replayed. */
  ghost function Replayed(run: seq<Event>): seq<nat> {
    if run == [] then []
    else
      var before := Replayed(run[..|run| - 1]);
      var h := After(run);
      AfterSound(run); FrameBounds(h);
      match run[|run| - 1]
      case Put(_) => before
      case Flip(running, _) => if running then before + Shown(h, DueFrom(h), DueTo(h)) else before
  }

  /** At no replaying flip had any entry of the frame been overwritten: see `ShownIsFrame`. */
  ghost predicate NeverOverrun(run: seq<Event>) {
    forall k :: 0 < k <= |run| && run[k - 1].Flip? && run[k - 1].running ==>
      var h := After(run[..k]); DueFrom(h) < DueTo(h) ==> |h.accepted| - DueFrom(h) <= BufferSize
  }

  /** A flip that marks a frame and does not replay one, because the profiler is paused and forced. */
  predicate Skips(e: Event) { e.Flip? && !e.running && e.forceEnable }

  /** At every such flip the frame that was due held no entry. */
  ghost predicate SkipsNothing(run: seq<Event>) {
    forall k :: 0 < k <= |run| && Skips(run[k - 1]) ==> DueFrom(After(run[..k])) >= DueTo(After(run[..k]))
  }

  /** How many entries were due at flips that skipped them. */
  ghost function Skipped(run: seq<Event>): nat {
    if run == [] then 0
    else
      var h := After(run);
      AfterSound(run); FrameBounds(h);
      Skipped(run[..|run| - 1]) + if Skips(run[|run| - 1]) then DueTo(h) - DueFrom(h) else 0
  }

  /** The reader sees the frame's own entries exactly when the frame is empty or not overrun. */
  lemma {:induction false} ShownIsFrame(h: History, from: nat, to: nat)
    requires from <= to <= |h.accepted|
    ensures (forall j :: from <= j < to ==> Intact(|h.accepted|, j))
            <==> from == to || |h.accepted| - from <= BufferSize
    ensures |h.accepted| - from <= BufferSize ==> Shown(h, from, to) == h.accepted[from..to]
  {
    forall j | from <= j < to ensures Intact(|h.accepted|, j) <==> |h.accepted| - j <= BufferSize {
      StillThere(|h.accepted|, j);
    }
    if from < to && |h.accepted| - from > BufferSize {
      assert !Intact(|h.accepted|, from);
    }
    if |h.accepted| - from <= BufferSize {
      forall i | 0 <= i < to - from ensures Shown(h, from, to)[i] == h.accepted[from..to][i] {
        assert Intact(|h.accepted|, from + i);
      }
    }
  }

  /** Nothing is replayed twice or invented: what was due was replayed or skipped. */
  lemma {:induction false} ReplayedOrSkipped(run: seq<Event>)
    ensures DueTo(After(run)) <= |After(run).accepted|
    ensures |Replayed(run)| + Skipped(run) == DueTo(After(run))
  {
    hide Sound, Shown, Record, MarkFrame, DueFrom, DueTo;
    AfterSound(run);
    FrameBounds(After(run));
    if run == [] {
      FreshDue();
    } else {
      var g := After(run[..|run| - 1]);
      ReplayedOrSkipped(run[..|run| - 1]);
      match run[|run| - 1]
      case Put(e) => RecordLeavesDue(g, e);
      case Flip(running, forceEnable) => MarkAdvancesDue(g);
    }
  }

  lemma {:induction false} SkippedNone(run: seq<Event>)
    ensures Skipped(run) == 0 <==> SkipsNothing(run)
  {
    hide Sound, DueFrom, DueTo, After;
    if run != [] {
      var prior := run[..|run| - 1];
      AfterSound(run);
      FrameBounds(After(run));
      SkippedNone(prior);
      assert run[..|run|] == run;
      assert forall k :: 0 < k <= |prior| ==> prior[..k] == run[..k] && run[k - 1] == prior[k - 1];
    }
  }

  /**
    Over every run that is not overrun: the frames replayed follow one another without gap or overlap,
    so that every accepted entry up to the last frame due is replayed exactly once, in order, exactly
    when no flip skipped entries that were due.
   */
  lemma {:induction false} ReplaysEveryEntryOnce(run: seq<Event>)
    requires NeverOverrun(run)
    ensures DueTo(After(run)) <= |After(run).accepted|
    ensures Replayed(run) == After(run).accepted[..DueTo(After(run))] <==> SkipsNothing(run)
  {
    hide NeverOverrun, SkipsNothing, Replayed, Skipped, After, DueTo;
    ReplayedOrSkipped(run);
    SkippedNone(run);
    if SkipsNothing(run) { ReplaysInOrder(run); }
  }

  lemma {:induction false} ReplaysInOrder(run: seq<Event>)
    requires NeverOverrun(run) && SkipsNothing(run)
    ensures DueTo(After(run)) <= |After(run).accepted|
    ensures Replayed(run) == After(run).accepted[..DueTo(After(run))]
  {
    hide Sound, NeverOverrun, SkipsNothing, Shown, Record, MarkFrame, DueFrom, DueTo;
    AfterSound(run);
    FrameBounds(After(run));
    if run == [] {
      FreshDue();
    } else {
      var prior := run[..|run| - 1];
      var h, g := After(run), After(prior);
      PriorRun(run);
      ReplaysInOrder(prior);
      match run[|run| - 1]
      case Put(e) =>
        RecordLeavesDue(g, e);
      case Flip(running, forceEnable) =>
        LastFlip(run);
        MarkAdvancesDue(g);
        if running {
          ShownIsFrame(h, DueFrom(h), DueTo(h));
          if DueFrom(h) == DueTo(h) { ShownNothing(h, DueTo(h)); }
          assert h.accepted[..DueTo(h)] == h.accepted[..DueFrom(h)] + h.accepted[DueFrom(h)..DueTo(h)];
        }
    }
  }

  lemma {:induction false} ShownNothing(h: History, at: nat)
    requires at <= |h.accepted|
    ensures Shown(h, at, at) == []
  {
  }

  lemma {:induction false} FreshDue()
    ensures DueTo(Fresh) == 0
  {
  }

  lemma {:induction false} RecordLeavesDue(h: History, e: nat)
    requires DueTo(h) <= |h.accepted|
    ensures var r := Record(h, e);
            && DueTo(r) == DueTo(h) && |h.accepted| <= |r.accepted|
            && r.accepted[..DueTo(h)] == h.accepted[..DueTo(h)]
  {
  }

  /** The next frame due begins where the one before ended. */
  lemma {:induction false} MarkAdvancesDue(h: History)
    ensures MarkFrame(h).accepted == h.accepted && DueFrom(MarkFrame(h)) == DueTo(h)
  {
  }

  lemma {:induction false} LastFlip(run: seq<Event>)
    requires run != [] && run[|run| - 1].Flip? && NeverOverrun(run) && SkipsNothing(run)
    ensures var flip := run[|run| - 1];
            && (Skips(flip) ==> DueFrom(After(run)) >= DueTo(After(run)))
            && (flip.running && DueFrom(After(run)) < DueTo(After(run)) ==>
                  |After(run).accepted| - DueFrom(After(run)) <= BufferSize)
  {
    assert run[..|run|] == run;
  }

  lemma {:induction false} PriorRun(run: seq<Event>)
    requires run != [] && NeverOverrun(run) && SkipsNothing(run)
    ensures NeverOverrun(run[..|run| - 1]) && SkipsNothing(run[..|run| - 1])
  {
    var prior := run[..|run| - 1];
    assert forall k :: 0 < k <= |prior| ==> prior[..k] == run[..k] && run[k - 1] == prior[k - 1];
  }

  /** Frames that hold a quarter of the ring each are never overrun. */
  lemma {:induction false} SmallFramesNotOverrun(h: History)
    requires Sound(h)
    requires forall n :: 0 <= n < |h.marks| ==> h.marks[n] - Mark(h, n) <= BufferSize / 4
    requires |h.marks| > 0 && |h.accepted| == LastMark(h)
    ensures |h.accepted| - DueFrom(h) <= BufferSize
  {
    var n := |h.marks|;
    assert FrameStep(h, n - 1) && FrameStep(h, n - 2) && FrameStep(h, n - 3) && FrameStep(h, n - 4);
  }

  ghost predicate FrameStep(h: History, n: int)
    requires n < |h.marks|
  {
    Mark(h, n + 1) - Mark(h, n) <= BufferSize / 4
  }

  // ---------------------------------------------------------------- runs that lose entries

  lemma {:induction false} FirstEntry(e: nat)
    ensures After([Put(e)]) == History([e], []) && Replayed([Put(e)]) == []
  {
    assert [Put(e)][..0] == [];
  }

  lemma {:induction false} PutAdds(run: seq<Event>, e: nat)
    ensures After(run + [Put(e)]) == Record(After(run), e) && Replayed(run + [Put(e)]) == Replayed(run)
  {
    assert (run + [Put(e)])[..|run|] == run;
  }

  lemma {:induction false} SkipAdds(run: seq<Event>)
    ensures After(run + [Flip(false, true)]) == MarkFrame(After(run))
    ensures Replayed(run + [Flip(false, true)]) == Replayed(run)
  {
    assert (run + [Flip(false, true)])[..|run|] == run;
  }

  /** One entry, then four flips forced while paused: it falls due at the last of them and is never replayed. */
  lemma {:induction false} PausedRunSkips()
    ensures var run := [Put(7), Flip(false, true), Flip(false, true), Flip(false, true), Flip(false, true)];
            NeverOverrun(run) && After(run).accepted == [7] && DueTo(After(run)) == 1 && Replayed(run) == []
  {
    hide After, Replayed;
    var skip := Flip(false, true);
    FirstEntry(7);
    SkipAdds([Put(7)]);
    SkipAdds([Put(7), skip]);
    SkipAdds([Put(7), skip, skip]);
    SkipAdds([Put(7), skip, skip, skip]);
    assert [Put(7)] + [skip] == [Put(7), skip];
    assert [Put(7), skip] + [skip] == [Put(7), skip, skip];
    assert [Put(7), skip, skip] + [skip] == [Put(7), skip, skip, skip];
    assert [Put(7), skip, skip, skip] + [skip] == [Put(7), skip, skip, skip, skip];
  }

  /** `n` entries in a row, all the same. */
  function Puts(e: nat, n: nat): (s: seq<Event>)
    ensures |s| == n
  {
    seq(n, _ => Put(e))
  }

  function Copies(e: nat, n: nat): (s: seq<nat>)
    ensures |s| == n
  {
    seq(n, _ => e)
  }

  lemma {:induction false} PutsPile(run: seq<Event>, e: nat, n: nat)
    requires |After(run).accepted| + n < LastMark(After(run)) + BufferSize
    ensures After(run + Puts(e, n)) == After(run).(accepted := After(run).accepted + Copies(e, n))
    ensures Replayed(run + Puts(e, n)) == Replayed(run)
  {
    hide After, Replayed;
    if n == 0 {
      assert run + Puts(e, n) == run;
    } else {
      PutsPile(run, e, n - 1);
      PutAdds(run + Puts(e, n - 1), e);
      assert run + Puts(e, n) == run + Puts(e, n - 1) + [Put(e)];
      assert Copies(e, n) == Copies(e, n - 1) + [e];
    }
  }

  lemma {:induction false} FlipAdds(run: seq<Event>)
    ensures After(run + [Flip(true, false)]) == MarkFrame(After(run))
    ensures var h := MarkFrame(After(run));
            && DueFrom(h) <= DueTo(h) <= |h.accepted|
            && Replayed(run + [Flip(true, false)]) == Replayed(run) + Shown(h, DueFrom(h), DueTo(h))
  {
    var all := run + [Flip(true, false)];
    assert all[..|all| - 1] == run;
    AfterSound(all);
    FrameBounds(After(all));
  }

  /** A frame of one entry, a frame that fills the ring behind it and one entry more, before the first falls due. */
  function OverrunRun(): seq<Event> {
    [Put(1)] + [Flip(true, false)] + Puts(2, BufferSize - 1) + [Flip(true, false)] + Puts(2, 1)
    + [Flip(true, false)] + [Flip(true, false)]
  }

  predicate NoneSkip(run: seq<Event>) { forall k :: 0 <= k < |run| ==> !Skips(run[k]) }

  lemma {:induction false} OverrunSkipsNothing()
    ensures SkipsNothing(OverrunRun())
  {
    hide After, DueFrom, DueTo;
    assert NoneSkip(Puts(2, BufferSize - 1)) && NoneSkip(Puts(2, 1));
    hide Puts;
    assert NoneSkip(OverrunRun());
  }

  /** Before the fourth flip no frame is due. */
  lemma {:induction false} NothingDueYet(h: History)
    requires |h.marks| <= 3
    ensures DueFrom(h) == 0 && DueTo(h) == 0 && Shown(h, 0, 0) == []
  {
  }

  /** That run replays the entry that overwrote the first one. */
  lemma {:induction false} OverrunReplaysAnother()
    ensures var run := OverrunRun();
            && SkipsNothing(run) && DueTo(After(run)) == 1 <= |After(run).accepted|
            && After(run).accepted[..1] == [1] && Replayed(run) == [2]
  {
    hide Puts, Copies, Shown, SkipsNothing, After, Replayed, DueFrom, DueTo;
    OverrunSkipsNothing();
    var flip := [Flip(true, false)];
    var r0 := [Put(1)];
    FirstEntry(1);
    FlipAdds(r0);
    var r1 := r0 + flip;
    NothingDueYet(After(r1));
    PutsPile(r1, 2, BufferSize - 1);
    var r2 := r1 + Puts(2, BufferSize - 1);
    FlipAdds(r2);
    var r3 := r2 + flip;
    NothingDueYet(After(r3));
    PutsPile(r3, 2, 1);
    var r4 := r3 + Puts(2, 1);
    FlipAdds(r4);
    var r5 := r4 + flip;
    NothingDueYet(After(r5));
    FlipAdds(r5);
    assert OverrunRun() == r5 + flip;
    OverrunShows(After(r5 + flip));
  }

  lemma {:induction false} OverrunShows(h: History)
    requires h.accepted == [1] + Copies(2, BufferSize - 1) + Copies(2, 1)
    requires h.marks == [1] + [BufferSize] + [BufferSize + 1] + [BufferSize + 1]
    ensures DueFrom(h) == 0 && DueTo(h) == 1 && h.accepted[..1] == [1] && Shown(h, 0, 1) == [2]
  {
    assert Latest(BufferSize + 1, 0) == BufferSize;
  }
}
