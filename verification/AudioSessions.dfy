/**
  The audio-out session ids: a ring of free ids from which callers acquire and to which they release.
 */
module AudioSessions {

  const MaxOutSessions: nat := 12

  // ---------------------------------------------------------------- the pool, without a ring

  /** Free ids, longest free first, and the ids callers hold. */
  datatype Pool = Pool(free: seq<nat>, held: set<nat>)

  function AllFree(): Pool { Pool(seq(MaxOutSessions, i => i), {}) }

  /** Every id is either held or free, and is free only once. */
  ghost predicate Partitioned(p: Pool) {
    && (forall i, j :: 0 <= i < j < |p.free| ==> p.free[i] != p.free[j])
    && (forall i :: 0 <= i < |p.free| ==> p.free[i] < MaxOutSessions && p.free[i] !in p.held)
    && (forall id :: id in p.held ==> id < MaxOutSessions)
    && |p.free| + |p.held| == MaxOutSessions
  }

  function Acquire(p: Pool): (r: Pool) {
    if p.free == [] then p else Pool(p.free[1..], p.held + {p.free[0]})
  }

  function Release(p: Pool, id: nat): (r: Pool) { Pool(p.free + [id], p.held - {id}) }

  lemma {:induction false} AcquireKeeps(p: Pool)
    requires Partitioned(p)
    ensures Partitioned(Acquire(p))
  {
    var r := Acquire(p);
    if p.free != [] {
      forall i | 0 <= i < |r.free| ensures r.free[i] < MaxOutSessions && r.free[i] !in r.held {
        assert r.free[i] == p.free[i + 1] != p.free[0];
      }
      forall i, j | 0 <= i < j < |r.free| ensures r.free[i] != r.free[j] {
        assert p.free[i + 1] != p.free[j + 1];
      }
    }
  }

  /** Releasing keeps the pool in order exactly when the id was held. */
  lemma {:induction false} ReleaseKeeps(p: Pool, id: nat)
    requires Partitioned(p)
    ensures Partitioned(Release(p, id)) <==> id in p.held
  {
    var r := Release(p, id);
    if id in p.held {
      forall i, j | 0 <= i < j < |r.free| ensures r.free[i] != r.free[j] {
        if j < |p.free| { assert p.free[i] != p.free[j]; }
      }
    } else {
      assert r.held == p.held;
    }
  }

  /** Free ids and held ids together are all the ids. */
  lemma {:induction false} NoIdIsLost(p: Pool)
    requires Partitioned(p)
    ensures forall id :: 0 <= id < MaxOutSessions ==> id in p.free || id in p.held
  {
    hide Ids, Members, Partitioned;
    var loose := Members(p.free);
    FreeIdsAreLoose(p);
    IdsAreAll(MaxOutSessions);
    SameSize(loose + p.held, Ids(MaxOutSessions));
    forall id | 0 <= id < MaxOutSessions ensures id in p.free || id in p.held {
      assert id in loose + p.held;
    }
  }

  function Members(s: seq<nat>): set<nat> { if s == [] then {} else Members(s[..|s| - 1]) + {s[|s| - 1]} }

  lemma {:induction false} FreeIdsAreLoose(p: Pool)
    requires Partitioned(p)
    ensures var loose := Members(p.free);
            && (forall id :: id in loose ==> id in p.free)
            && (forall id :: id in loose + p.held ==> id < MaxOutSessions)
            && |loose + p.held| == MaxOutSessions
  {
    hide Members;
    MembersOf(p.free);
    MembersSize(p.free);
    var loose := Members(p.free);
    forall id | id in loose ensures id < MaxOutSessions && id !in p.held {
      assert id in p.free;
    }
    assert loose !! p.held;
  }

  lemma {:induction false} MembersOf(s: seq<nat>)
    ensures forall id :: id in Members(s) <==> id in s
  {
    if s != [] {
      var front := s[..|s| - 1];
      MembersOf(front);
      assert s == front + [s[|s| - 1]];
    }
  }

  lemma {:induction false} MembersSize(s: seq<nat>)
    requires forall i, j :: 0 <= i < j < |s| ==> s[i] != s[j]
    ensures |Members(s)| == |s|
  {
    if s != [] {
      var front := s[..|s| - 1];
      MembersSize(front);
      MembersOf(front);
    }
  }

  function Ids(n: nat): set<nat> { if n == 0 then {} else Ids(n - 1) + {n - 1} }

  lemma {:induction false} IdsAreAll(n: nat)
    ensures |Ids(n)| == n && forall id: nat :: id in Ids(n) <==> id < n
  {
    if n > 0 { IdsAreAll(n - 1); }
  }

  lemma {:induction false} SameSize(a: set<nat>, b: set<nat>)
    requires a <= b && |a| == |b|
    ensures a == b
  {
    assert |b - a| == |b| - |a|;
  }

  // ---------------------------------------------------------------- whole runs

  datatype Call = Take | Give(id: nat)

  function After(calls: seq<Call>): Pool {
    if calls == [] then AllFree()
    else
      var p := After(calls[..|calls| - 1]);
      match calls[|calls| - 1]
      case Take => Acquire(p)
      case Give(id) => Release(p, id)
  }

  /** Callers release only ids they hold. */
  predicate Honest(calls: seq<Call>) {
    forall n :: 0 <= n < |calls| && calls[n].Give? ==> calls[n].id in After(calls[..n]).held
  }

  lemma {:induction false} HonestRunKeeps(calls: seq<Call>)
    requires Honest(calls)
    ensures Partitioned(After(calls))
  {
    if calls != [] {
      var front, last := calls[..|calls| - 1], calls[|calls| - 1];
      assert forall n :: 0 <= n < |front| ==> front[..n] == calls[..n];
      HonestRunKeeps(front);
      match last
      case Take => AcquireKeeps(After(front));
      case Give(id) => ReleaseKeeps(After(front), id);
    }
  }

  /** The id handed out by the `n`th call is held by nobody, and nobody holds it twice before it is given back. */
  lemma {:induction false} NeverHandedOutTwice(calls: seq<Call>, m: nat, n: nat)
    requires Honest(calls) && m < n < |calls| && calls[m].Take? && calls[n].Take?
    requires After(calls[..m]).free != [] && After(calls[..n]).free != []
    requires After(calls[..m]).free[0] == After(calls[..n]).free[0]
    ensures exists k :: m < k < n && calls[k] == Give(After(calls[..m]).free[0])
  {
    var id := After(calls[..m]).free[0];
    assert calls[..m + 1][..m] == calls[..m];
    HonestPrefix(calls, n);
    HonestRunKeeps(calls[..n]);
    assert After(calls[..n]).free[0] !in After(calls[..n]).held;
    if forall k :: m < k < n ==> calls[k] != Give(id) {
      StillHeld(calls, m + 1, n, id);
    }
  }

  lemma {:induction false} HonestPrefix(calls: seq<Call>, n: nat)
    requires Honest(calls) && n <= |calls|
    ensures Honest(calls[..n])
  {
    assert forall k :: 0 <= k < n ==> calls[..n][..k] == calls[..k];
  }

  /** An id that is held and not given back stays held. */
  lemma {:induction false} StillHeld(calls: seq<Call>, m: nat, n: nat, id: nat)
    requires m <= n <= |calls| && id in After(calls[..m]).held
    requires forall k :: m <= k < n ==> calls[k] != Give(id)
    ensures id in After(calls[..n]).held
  {
    if m < n {
      StillHeld(calls, m, n - 1, id);
      assert calls[..n][..n - 1] == calls[..n - 1];
    }
  }

  // ---------------------------------------------------------------- the ring

  class Manager {
    var sessionIds: array<nat>
    var appletResourceUserIds: array<nat>
    var sessions: array<bool>
    var numFreeSessions: nat
    var nextSessionId: nat
    var freeSessionId: nat
    ghost var held: set<nat>

    /** The free ids, from the next one on. */
    ghost function View(): Pool
      reads this, sessionIds
      requires sessionIds.Length == MaxOutSessions
    {
      Pool(FreeIds(sessionIds[..], nextSessionId, numFreeSessions), held)
    }

    ghost predicate Valid()
      reads this, sessionIds
    {
      && sessionIds.Length == MaxOutSessions && appletResourceUserIds.Length == MaxOutSessions
      && sessions.Length == MaxOutSessions && sessionIds != appletResourceUserIds
      && nextSessionId < MaxOutSessions && numFreeSessions <= MaxOutSessions
      && freeSessionId == (nextSessionId + numFreeSessions) % MaxOutSessions
      && Partitioned(View())
    }

    constructor ()
      ensures Valid() && View() == AllFree()
    {
      sessionIds := new nat[MaxOutSessions](i => i);
      appletResourceUserIds := new nat[MaxOutSessions](_ => 0);
      sessions := new bool[MaxOutSessions](_ => false);
      numFreeSessions, nextSessionId, freeSessionId := MaxOutSessions, 0, 0;
      held := {};
      new;
      assert View().free == AllFree().free;
      AllFreePartitioned();
    }

    /** Fails exactly when all ids are held; otherwise hands out the id that has been free longest. */
    method AcquireSessionId() returns (ok: bool, sessionId: nat)
      requires Valid()
      modifies this`nextSessionId, this`numFreeSessions, this`held
      ensures Valid() && View() == Acquire(old(View()))
      ensures ok <==> old(View()).free != []
      ensures ok ==> sessionId == old(View()).free[0] && sessionId !in old(held) && held == old(held) + {sessionId}
      ensures View().free == if ok then old(View()).free[1..] else []
      ensures !ok ==> held == old(held)
    {
      AcquireKeeps(View());
      if numFreeSessions == 0 {
        return false, 0;
      }
      TakeFirst(sessionIds[..], nextSessionId, numFreeSessions);
      ok, sessionId := true, sessionIds[nextSessionId];
      nextSessionId := (nextSessionId + 1) % MaxOutSessions;
      numFreeSessions := numFreeSessions - 1;
      held := held + {sessionId};
    }

    method ReleaseSessionId(sessionId: nat)
      requires Valid() && sessionId in held
      modifies this`numFreeSessions, this`freeSessionId, this`held, sessionIds, sessions, appletResourceUserIds
      ensures Valid() && View() == Release(old(View()), sessionId)
      ensures View().free == old(View()).free + [sessionId] && held == old(held) - {sessionId}
      ensures sessions[..] == old(sessions[..])[sessionId := false]
      ensures appletResourceUserIds[..] == old(appletResourceUserIds[..])[sessionId := 0]
    {
      ReleaseKeeps(View(), sessionId);
      assert |held| > 0;
      PutLast(sessionIds[..], nextSessionId, numFreeSessions, sessionId);
      sessionIds[freeSessionId] := sessionId;
      assert sessionIds[..] == old(sessionIds[..])[freeSessionId := sessionId];
      numFreeSessions := numFreeSessions + 1;
      freeSessionId := (freeSessionId + 1) % MaxOutSessions;
      held := held - {sessionId};
      sessions[sessionId] := false;
      appletResourceUserIds[sessionId] := 0;
    }
  }

  function FreeIds(ids: seq<nat>, next: nat, count: nat): (r: seq<nat>)
    requires |ids| == MaxOutSessions
    ensures |r| == count
  {
    seq(count, i requires 0 <= i < count => ids[Slot(next, i)])
  }

  function Slot(next: nat, i: nat): (s: nat)
    ensures s < MaxOutSessions
  {
    (next + i) % MaxOutSessions
  }

  lemma {:induction false} AllFreePartitioned()
    ensures Partitioned(AllFree())
  {
  }

  lemma {:induction false} TakeFirst(ids: seq<nat>, next: nat, count: nat)
    requires |ids| == MaxOutSessions && next < MaxOutSessions && 0 < count <= MaxOutSessions
    ensures FreeIds(ids, next, count)[0] == ids[next]
    ensures FreeIds(ids, (next + 1) % MaxOutSessions, count - 1) == FreeIds(ids, next, count)[1..]
    ensures ((next + 1) % MaxOutSessions + (count - 1)) % MaxOutSessions == (next + count) % MaxOutSessions
  {
    var after := (next + 1) % MaxOutSessions;
    forall i | 0 <= i < count - 1 ensures FreeIds(ids, after, count - 1)[i] == FreeIds(ids, next, count)[1..][i] {
      assert Slot(after, i) == Slot(next, i + 1);
    }
  }

  lemma {:induction false} PutLast(ids: seq<nat>, next: nat, count: nat, id: nat)
    requires |ids| == MaxOutSessions && next < MaxOutSessions && count < MaxOutSessions
    ensures var at := (next + count) % MaxOutSessions;
            && FreeIds(ids[at := id], next, count + 1) == FreeIds(ids, next, count) + [id]
            && (at + 1) % MaxOutSessions == (next + (count + 1)) % MaxOutSessions
  {
    var at := (next + count) % MaxOutSessions;
    forall i | 0 <= i < count ensures Slot(next, i) != at {
    }
  }
}
