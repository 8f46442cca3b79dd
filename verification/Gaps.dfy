/** Runs that show where the cache's promises end (backend/cache/cache.go, backend/onepassword/onepassword.go):
    a not-found that comes too late to evict, and a write that the inner backend applied but reported failed. */
module Gaps {
  import opened Wrappers
  import opened Records
  import opened ReadCache
  import opened Versions
  import opened Protocol

  // The step is not an edit from outside to one of the names in kept.
  predicate Spares(kept: set<string>, step: Step) {
    step.OutOfBand? ==> step.name !in kept
  }

  // Some run in which nobody outside edits the names in kept leads from a to b.
  ghost predicate Reaches(kept: set<string>, a: System, b: System) {
    exists steps :: RunsTo(kept, a, steps, b)
  }

  predicate RunsTo(kept: set<string>, a: System, steps: seq<Step>, b: System)
    decreases |steps|
  {
    if steps == [] then a == b
    else Enabled(a, steps[0]) && Spares(kept, steps[0]) && RunsTo(kept, Next(a, steps[0]), steps[1..], b)
  }

  lemma {:induction false} RunAppend(kept: set<string>, a: System, steps: seq<Step>, b: System, step: Step)
    requires RunsTo(kept, a, steps, b) && Enabled(b, step) && Spares(kept, step)
    ensures RunsTo(kept, a, steps + [step], Next(b, step))
    decreases |steps|
  {
    var all := steps + [step];
    if steps == [] {
      assert all[0] == step && all[1..] == [];
    } else {
      assert all[0] == steps[0] && all[1..] == steps[1..] + [step];
      RunAppend(kept, Next(a, steps[0]), steps[1..], b, step);
    }
  }

  lemma Here(kept: set<string>, a: System)
    ensures Reaches(kept, a, a)
  {
    assert RunsTo(kept, a, [], a);
  }

  lemma Onward(kept: set<string>, a: System, b: System, step: Step) returns (c: System)
    requires Reaches(kept, a, b) && Enabled(b, step) && Spares(kept, step)
    ensures c == Next(b, step) && Reaches(kept, a, c)
  {
    c := Next(b, step);
    var steps :| RunsTo(kept, a, steps, b);
    RunAppend(kept, a, steps, b, step);
  }

  // --- the steps of one read ---

  // Thread id, about to read a name with no fetch of it under way, opens one, which the inner backend answers.
  function Asked(s: System, id: nat): System
    requires Asking(s, id)
  {
    var ask := TheAsk(s, id);
    SetPc(s, id, Wait(|s.flights|))
      .(flights := s.flights + [Flight(s.cache.seqno, ask.target, Fetched(Pending(None, s.inner, ask.target)))])
  }

  lemma Asks(kept: set<string>, a: System, s: System, id: nat)
    requires Reaches(kept, a, s) && Asking(s, id) && TheAsk(s, id).pc.Snap?
    requires !InFlight(s, s.cache.seqno, TheAsk(s, id).target)
    ensures Reaches(kept, a, Asked(s, id))
  {
    var ask := TheAsk(s, id);
    var t := Onward(kept, a, s, Snapshot(id));
    assert TheAsk(t, id) == ask.(pc := Join(s.cache.seqno));
    Opens(kept, a, t, id);
    var u := SetPc(t, id, Wait(|t.flights|)).(flights := t.flights + [Flight(s.cache.seqno, ask.target, Opened)]);
    var v := Onward(kept, a, u, Fetch(|s.flights|, None));
    assert v.flights == Asked(s, id).flights;
    assert v.threads == Asked(s, id).threads;
  }

  lemma Opens(kept: set<string>, a: System, t: System, id: nat)
    requires Reaches(kept, a, t) && Asking(t, id) && TheAsk(t, id).pc.Join?
    requires !InFlight(t, TheAsk(t, id).pc.seqno, TheAsk(t, id).target)
    ensures var ask := TheAsk(t, id);
            Reaches(kept, a, SetPc(t, id, Wait(|t.flights|)).(flights := t.flights + [Flight(ask.pc.seqno, ask.target, Opened)]))
  {
    var u := Onward(kept, a, t, Open(id));
  }

  // Its flight is applied to the cache and lands, and the thread wakes with its answer.
  function Woken(s: System, id: nat, i: nat, jitter: int): System
    requires Asking(s, id) && i < |s.flights| && s.flights[i].phase.Fetched?
  {
    var reply := s.flights[i].phase.reply;
    SetPc(SetPhase(s, i, Landed(reply)), id, Ended(reply)).(cache := Absorb(s, s.flights[i], jitter))
  }

  lemma Wakes(kept: set<string>, a: System, s: System, id: nat, i: nat, jitter: int)
    requires Reaches(kept, a, s) && Asking(s, id) && TheAsk(s, id).pc == Wait(i) && i < |s.flights|
    requires s.flights[i].phase.Fetched? && s.flights[i].phase.reply.Got? && JitterInRange(s.cache.ttl, jitter)
    ensures Reaches(kept, a, Woken(s, id, i, jitter))
  {
    var reply := s.flights[i].phase.reply;
    var t := Onward(kept, a, s, Apply(i, jitter));
    var u := Onward(kept, a, t, Land(i));
    assert u.flights == SetPhase(s, i, Landed(reply)).flights;
    assert TheAsk(u, id) == TheAsk(s, id);
    var v := Onward(kept, a, u, Wake(id));
    assert v.threads == Woken(s, id, i, jitter).threads;
  }

  // A forced load joins a fetch under way under the current sequence number.
  lemma Joins(kept: set<string>, a: System, s: System, id: nat, i: nat)
    requires Reaches(kept, a, s) && Asking(s, id) && TheAsk(s, id).pc.Snap? && i < |s.flights|
    requires !s.flights[i].phase.Landed? && s.flights[i].seqno == s.cache.seqno
    requires s.flights[i].target == TheAsk(s, id).target
    ensures Reaches(kept, a, SetPc(s, id, Wait(i)))
  {
    var t := Onward(kept, a, s, Snapshot(id));
    assert TheAsk(t, id) == TheAsk(s, id).(pc := Join(s.cache.seqno));
    var u := Onward(kept, a, t, Attach(id, i));
    assert u.threads == SetPc(s, id, Wait(i)).threads;
  }

  // --- a not-found that comes too late ---

  function ForcedReader(name: string, pc: Pc): Thread {
    Reader(RecordOf(name), true, pc)
  }

  function HoldingOnly(name: string, r: Record, ttl: int, now: int, jitter: int): CacheState {
    CacheState(ttl, 0, map[name := Entry(Some(r), ExpiresAt(ttl, now, jitter))], None)
  }

  // The record of one secret is resident; a forced read of it, such as the warmer's, has just begun, after
  // somebody deleted the secret in the vault.
  function Deleted(name: string, r: Record, ttl: int, now: int, jitter: int): System {
    System(map[], HoldingOnly(name, r, ttl, now, jitter), now,
           [Flight(0, RecordOf(name), Landed(Got(Found(r))))],
           map[0 := ForcedReader(name, Ended(Got(Found(r)))), 1 := ForcedReader(name, Snap)], None)
  }

  // The state before that: the record read once, and resident.
  function Filled(name: string, r: Record, ttl: int, now: int, jitter: int): System {
    System(map[name := r], HoldingOnly(name, r, ttl, now, jitter), now, [Flight(0, RecordOf(name), Landed(Got(Found(r))))],
           map[0 := ForcedReader(name, Ended(Got(Found(r))))], None)
  }

  lemma FilledReaches(name: string, r: Record, ttl: int, now: int, jitter: int)
    requires JitterInRange(ttl, jitter)
    ensures Reaches({}, Start(map[name := r], ttl, now), Filled(name, r, ttl, now, jitter))
  {
    var a, f := Start(map[name := r], ttl, now), Filled(name, r, ttl, now, jitter);
    Here({}, a);
    var s := Onward({}, a, a, SpawnReader(0, RecordOf(name), true));
    Asks({}, a, s, 0);
    s := Asked(s, 0);
    Wakes({}, a, s, 0, 0, jitter);
    s := Woken(s, 0, 0, jitter);
    assert s.inner == f.inner && s.flights == f.flights && s.threads == f.threads && s.cache == f.cache;
  }

  lemma DeletedReaches(name: string, r: Record, ttl: int, now: int, jitter: int)
    requires JitterInRange(ttl, jitter)
    ensures Reaches({}, Start(map[name := r], ttl, now), Deleted(name, r, ttl, now, jitter))
  {
    var a, d := Start(map[name := r], ttl, now), Deleted(name, r, ttl, now, jitter);
    FilledReaches(name, r, ttl, now, jitter);
    var t := Onward({}, a, Filled(name, r, ttl, now, jitter), OutOfBand(name, None));
    t := Onward({}, a, t, SpawnReader(1, RecordOf(name), true));
    assert t.inner == d.inner && t.threads == d.threads;
  }

  // A secret deleted in the vault whose forced read finds it missing is still served from the cache, when
  // another name is removed from the cache, or written, between that read's snapshot and its answer.
  lemma LateDenialIsServed(name: string, other: string, r: Record, ttl: int, now: int, jitter: int) returns (t: System)
    requires JitterInRange(ttl, jitter) && other != name
    ensures Reaches({}, Start(map[name := r], ttl, now), t)
    ensures name !in t.inner && 1 in t.threads && t.threads[1] == ForcedReader(name, Ended(Got(Missing)))
    ensures Hit(t.cache, RecordOf(name), t.now) == Some(Found(r))
  {
    var a, s := Start(map[name := r], ttl, now), Deleted(name, r, ttl, now, jitter);
    DeletedReaches(name, r, ttl, now, jitter);
    Asks({}, a, s, 1);
    s := Asked(s, 1);
    var u := Onward({}, a, s, Remove(other));
    assert u.cache.recs == s.cache.recs;
    Wakes({}, a, u, 1, 1, jitter);
    t := Woken(u, 1, 1, jitter);
  }

  // --- a write applied but reported failed ---

  // A commit the inner backend carried out and then reported as failed: the two steps together.
  function AppliedButFailed(s: System, id: nat, f: Failure): System
    requires Writing(s, id) && s.threads[id].w.Committing?
  {
    var th := s.threads[id];
    SetW(s, id, Leaving(BackendFailed(f))).(inner := s.inner[th.op.name := th.w.record])
  }

  lemma FailsApplied(a: System, s: System, id: nat, f: Failure)
    requires Reaches({}, a, s) && Writing(s, id) && s.threads[id].w.Committing?
    ensures Reaches({}, a, AppliedButFailed(s, id, f))
  {
    var th := s.threads[id];
    var t := Onward({}, a, s, Commit(id, Some(f)));
    var u := Onward({}, a, t, OutOfBand(th.op.name, Some(th.w.record)));
  }

  // The secret at its first version, and at its second with a given value.
  function First(name: string, v: Bytes): Record {
    Record(name, map[1 := v], 1, 1, {})
  }

  function Second(name: string, v: Bytes, x: Bytes): Record {
    Record(name, map[1 := v, 2 := x], 1, 2, {})
  }

  lemma DecidesSecond(name: string, v: Bytes, x: Bytes)
    requires v != x
    ensures Decide(Put(name, x), Some(First(name, v))) == Write(Second(name, v, x), Assigned(2))
  {
    assert First(name, v).versions[2 := x] == Second(name, v, x).versions;
  }

  // A Put has loaded the record and is about to commit.
  function AboutToCommit(name: string, v: Bytes, x: Bytes, ttl: int, now: int, jitter: int): System {
    var r := First(name, v);
    System(map[name := r], HoldingOnly(name, r, ttl, now, jitter), now, [Flight(0, RecordOf(name), Landed(Got(Found(r))))],
           map[1 := Writer(Put(name, x), Committing(Second(name, v, x), Assigned(2)))], Some(1))
  }

  // It has got the mutex.
  function Loading(name: string, v: Bytes, x: Bytes, ttl: int, now: int): System {
    Start(map[name := First(name, v)], ttl, now).(threads := map[1 := Writer(Put(name, x), Reading(Snap))], lock := Some(1))
  }

  lemma LoadingReaches(name: string, v: Bytes, x: Bytes, ttl: int, now: int)
    requires name != "" && !Reserved(name)
    ensures Reaches({}, Start(map[name := First(name, v)], ttl, now), Loading(name, v, x, ttl, now))
  {
    var a := Start(map[name := First(name, v)], ttl, now);
    Here({}, a);
    var s := Onward({}, a, a, SpawnWriter(1, Put(name, x)));
    s := Onward({}, a, s, Acquire(1));
    assert s.threads == Loading(name, v, x, ttl, now).threads;
  }

  lemma AboutToCommitReaches(name: string, v: Bytes, x: Bytes, ttl: int, now: int, jitter: int)
    requires JitterInRange(ttl, jitter) && v != x && name != "" && !Reserved(name)
    ensures Reaches({}, Start(map[name := First(name, v)], ttl, now), AboutToCommit(name, v, x, ttl, now, jitter))
  {
    var a, s := Start(map[name := First(name, v)], ttl, now), Loading(name, v, x, ttl, now);
    LoadingReaches(name, v, x, ttl, now);
    assert TheAsk(s, 1) == Ask(RecordOf(name), true, Snap);
    Asks({}, a, s, 1);
    s := Asked(s, 1);
    Wakes({}, a, s, 1, 0, jitter);
    s := Woken(s, 1, 0, jitter);
    LoadedIs(s, name, v, x, ttl, now, jitter);
    DecidesSecond(name, v, x);
    Chooses({}, a, s, 1, Found(First(name, v)));
  }

  lemma LoadedIs(s: System, name: string, v: Bytes, x: Bytes, ttl: int, now: int, jitter: int)
    requires var r := First(name, v);
             && s.inner == map[name := r] && s.now == now && s.lock == Some(1)
             && s.threads == map[1 := Writer(Put(name, x), Reading(Ended(Got(Found(r)))))]
             && s.flights == [Flight(0, RecordOf(name), Landed(Got(Found(r))))]
             && s.cache == HoldingOnly(name, r, ttl, now, jitter)
    ensures SetW(s, 1, Committing(Second(name, v, x), Assigned(2))) == AboutToCommit(name, v, x, ttl, now, jitter)
  {
    assert SetW(s, 1, Committing(Second(name, v, x), Assigned(2))).threads
           == AboutToCommit(name, v, x, ttl, now, jitter).threads;
  }

  // A write whose load has ended and whose rules ask for a write goes on to commit it.
  lemma Chooses(kept: set<string>, a: System, s: System, id: nat, reply: Answer)
    requires Reaches(kept, a, s) && Writing(s, id) && !s.threads[id].op.Delete?
    requires s.threads[id].w == Reading(Ended(Got(reply))) && Decide(s.threads[id].op, Loaded(reply)).Write?
    ensures var plan := Decide(s.threads[id].op, Loaded(reply));
            Reaches(kept, a, SetW(s, id, Committing(plan.record, plan.outcome)))
  {
    var t := Onward(kept, a, s, Choose(id));
  }

  // Meanwhile somebody's forced read has fetched the old record; the commit is applied but reported failed; and
  // another Put begins.
  function Overtaken(name: string, v: Bytes, x: Bytes, y: Bytes, ttl: int, now: int, jitter: int, f: Failure): System {
    var r := First(name, v);
    System(map[name := Second(name, v, x)], HoldingOnly(name, r, ttl, now, jitter), now,
           [Flight(0, RecordOf(name), Landed(Got(Found(r)))), Flight(0, RecordOf(name), Fetched(Got(Found(r))))],
           map[1 := Writer(Put(name, x), Closed(BackendFailed(f))), 2 := ForcedReader(name, Wait(1)),
               3 := Writer(Put(name, y), Reading(Snap))], Some(3))
  }

  lemma FetchedMeanwhile(name: string, v: Bytes, x: Bytes, ttl: int, now: int, jitter: int)
    requires JitterInRange(ttl, jitter) && v != x && name != "" && !Reserved(name)
    ensures var s := AboutToCommit(name, v, x, ttl, now, jitter);
            var t := s.(threads := s.threads[2 := ForcedReader(name, Snap)]);
            Reaches({}, Start(map[name := First(name, v)], ttl, now), Asked(t, 2))
  {
    var a := Start(map[name := First(name, v)], ttl, now);
    AboutToCommitReaches(name, v, x, ttl, now, jitter);
    var s := Onward({}, a, AboutToCommit(name, v, x, ttl, now, jitter), SpawnReader(2, RecordOf(name), true));
    Asks({}, a, s, 2);
  }

  // The next Put gets the mutex.
  lemma NextPut(a: System, s: System, name: string, y: Bytes)
    requires Reaches({}, a, s) && s.lock.None? && 3 !in s.threads && name != "" && !Reserved(name)
    ensures Reaches({}, a, s.(threads := s.threads[3 := Writer(Put(name, y), Reading(Snap))], lock := Some(3)))
  {
    var t := Onward({}, a, s, SpawnWriter(3, Put(name, y)));
    assert t == s.(threads := s.threads[3 := Writer(Put(name, y), Queued)]);
    var u := Onward({}, a, t, Acquire(3));
    assert u.threads == s.threads[3 := Writer(Put(name, y), Reading(Snap))];
  }

  lemma OvertakenReaches(name: string, v: Bytes, x: Bytes, y: Bytes, ttl: int, now: int, jitter: int, f: Failure)
    requires JitterInRange(ttl, jitter) && v != x && name != "" && !Reserved(name)
    ensures Reaches({}, Start(map[name := First(name, v)], ttl, now), Overtaken(name, v, x, y, ttl, now, jitter, f))
  {
    var a, s := Start(map[name := First(name, v)], ttl, now), AboutToCommit(name, v, x, ttl, now, jitter);
    FetchedMeanwhile(name, v, x, ttl, now, jitter);
    s := Asked(s.(threads := s.threads[2 := ForcedReader(name, Snap)]), 2);
    FailsApplied(a, s, 1, f);
    UnreleasedIs(name, v, x, ttl, now, jitter, f);
    OvertakenIs(name, v, x, y, ttl, now, jitter, f);
    var u := Onward({}, a, Unreleased(name, v, x, ttl, now, jitter, f), Release(1));
    NextPut(a, u, name, y);
  }

  // The state between the failed commit and its release.
  function Unreleased(name: string, v: Bytes, x: Bytes, ttl: int, now: int, jitter: int, f: Failure): System {
    var r := First(name, v);
    System(map[name := Second(name, v, x)], HoldingOnly(name, r, ttl, now, jitter), now,
           [Flight(0, RecordOf(name), Landed(Got(Found(r)))), Flight(0, RecordOf(name), Fetched(Got(Found(r))))],
           map[1 := Writer(Put(name, x), Leaving(BackendFailed(f))), 2 := ForcedReader(name, Wait(1))], Some(1))
  }

  lemma UnreleasedIs(name: string, v: Bytes, x: Bytes, ttl: int, now: int, jitter: int, f: Failure)
    ensures var s := AboutToCommit(name, v, x, ttl, now, jitter);
            AppliedButFailed(Asked(s.(threads := s.threads[2 := ForcedReader(name, Snap)]), 2), 1, f)
            == Unreleased(name, v, x, ttl, now, jitter, f)
  {
    var s := AboutToCommit(name, v, x, ttl, now, jitter);
    var t := AppliedButFailed(Asked(s.(threads := s.threads[2 := ForcedReader(name, Snap)]), 2), 1, f);
    var b := Unreleased(name, v, x, ttl, now, jitter, f);
    assert t.flights == b.flights && t.inner == b.inner && t.threads == b.threads;
  }

  lemma OvertakenIs(name: string, v: Bytes, x: Bytes, y: Bytes, ttl: int, now: int, jitter: int, f: Failure)
    ensures var u := Next(Unreleased(name, v, x, ttl, now, jitter, f), Release(1));
            u.lock.None? && 3 !in u.threads
            && u.(threads := u.threads[3 := Writer(Put(name, y), Reading(Snap))], lock := Some(3))
               == Overtaken(name, v, x, y, ttl, now, jitter, f)
  {
    var u := Next(Unreleased(name, v, x, ttl, now, jitter, f), Release(1));
    assert u.threads[3 := Writer(Put(name, y), Reading(Snap))] == Overtaken(name, v, x, y, ttl, now, jitter, f).threads;
  }

  // A Put commits what it has decided.
  lemma Commits(kept: set<string>, a: System, s: System, name: string, v: Bytes, y: Bytes, id: nat) returns (t: System)
    requires Reaches(kept, a, s) && id in s.threads && v != y
    requires s.threads[id] == Writer(Put(name, y), Reading(Ended(Got(Found(First(name, v))))))
    ensures Reaches(kept, a, t) && t.inner == s.inner[name := Second(name, v, y)]
    ensures forall j | j in s.threads && j != id :: j in t.threads && t.threads[j] == s.threads[j]
  {
    DecidesSecond(name, v, y);
    Chooses(kept, a, s, id, Found(First(name, v)));
    t := Onward(kept, a, SetW(s, id, Committing(Second(name, v, y), Assigned(2))), Commit(id, None));
  }

  // That Put may join the fetch opened before the commit, and then works from the record of before it. So a
  // write reported failed after it was applied can have its version number given out again: version 2 has
  // held x, and then holds y, though nobody deleted anything, nor edited the secret once that Put had begun.
  lemma FailedWriteIsOvertaken(name: string, v: Bytes, x: Bytes, y: Bytes, ttl: int, now: int, jitter: int, f: Failure)
    returns (s: System, t: System)
    requires JitterInRange(ttl, jitter) && v != x && v != y && x != y && name != "" && !Reserved(name)
    ensures Reaches({}, Start(map[name := First(name, v)], ttl, now), s) && Reaches({name}, s, t)
    ensures s.inner == map[name := Second(name, v, x)] && t.inner == map[name := Second(name, v, y)]
    ensures 1 in t.threads && t.threads[1] == Writer(Put(name, x), Closed(BackendFailed(f)))
  {
    s := Overtaken(name, v, x, y, ttl, now, jitter, f);
    OvertakenReaches(name, v, x, y, ttl, now, jitter, f);
    Here({name}, s);
    Joins({name}, s, s, 3, 1);
    var u := SetPc(s, 3, Wait(1));
    Wakes({name}, s, u, 3, 1, jitter);
    t := Commits({name}, s, Woken(u, 3, 1, jitter), name, v, y, 3);
    assert t.inner == map[name := Second(name, v, y)];
  }
}
