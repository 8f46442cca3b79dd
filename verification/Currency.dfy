/** When the forced load inside a store write is current although others edit the vault, or the inner backend
    applies writes that it reports as failed (backend/cache/cache.go, store/store.go): the exact condition,
    readable from the state in which the writer gets the mutex. */
module Currency {
  import opened Wrappers
  import opened Records
  import opened ReadCache
  import opened Versions
  import opened Protocol
  import Provenance
  import opened Gaps

  // --- what every run keeps, edits from outside included ---

  // Only the owner of the mutex is past it.
  predicate MutexFits(s: System) {
    forall id | id in s.threads :: Holding(s.threads[id]) ==> s.lock == Some(id)
  }

  predicate FlightsNumbered(s: System) {
    forall i | 0 <= i < |s.flights| :: s.flights[i].seqno <= s.cache.seqno
  }

  predicate Ordered(s: System) {
    MutexFits(s) && FlightsNumbered(s) && Provenance.JoinsFit(s)
  }

  lemma KeepsMutex(s: System, step: Step)
    requires Enabled(s, step) && MutexFits(s)
    ensures MutexFits(Next(s, step))
  {}

  lemma KeepsNumbers(s: System, step: Step)
    requires Enabled(s, step) && FlightsNumbered(s) && Provenance.JoinsFit(s)
    ensures FlightsNumbered(Next(s, step))
  {
    Provenance.SequenceRises(s, step);
  }

  lemma KeepsOrdered(s: System, step: Step)
    requires Enabled(s, step) && Ordered(s)
    ensures Ordered(Next(s, step))
  {
    KeepsMutex(s, step);
    KeepsNumbers(s, step);
    Provenance.KeepsJoins(s, step);
  }

  lemma {:induction false} RunKeepsOrdered(kept: set<string>, s: System, steps: seq<Step>, t: System)
    requires RunsTo(kept, s, steps, t) && Ordered(s)
    ensures Ordered(t)
    decreases |steps|
  {
    if steps != [] {
      KeepsOrdered(s, steps[0]);
      RunKeepsOrdered(kept, Next(s, steps[0]), steps[1..], t);
    }
  }

  // The state of some run from a cold cache, edits from outside included.
  ghost predicate Reachable(s: System) {
    exists m, ttl, now :: Reaches({}, Start(m, ttl, now), s)
  }

  lemma ReachableIsOrdered(s: System)
    requires Reachable(s)
    ensures Ordered(s)
  {
    var m, ttl, now :| Reaches({}, Start(m, ttl, now), s);
    var steps :| RunsTo({}, Start(m, ttl, now), steps, s);
    RunKeepsOrdered({}, Start(m, ttl, now), steps, s);
  }

  // --- what the load can come to ---

  // Thread id is a store write that has just got the mutex and is about to load its secret.
  predicate Begins(s: System, id: nat) {
    At(s, id, Reading(Snap))
  }

  function NameOf(s: System, id: nat): string
    requires Writing(s, id)
  {
    s.threads[id].op.name
  }

  // A fetch of n under way under the current sequence number holds this answer already.
  predicate Holds(s: System, n: string, i: nat, a: Answer) {
    && i < |s.flights| && s.flights[i].target == RecordOf(n) && s.flights[i].seqno == s.cache.seqno
    && (s.flights[i].phase.Fetched? || s.flights[i].phase.Applied?) && s.flights[i].phase.reply == Got(a)
  }

  // The answer is the inner backend's, or one such a fetch holds.
  ghost predicate Permitted(s: System, n: string, a: Answer) {
    a == View(s.inner, RecordOf(n)) || exists i :: Holds(s, n, i, a)
  }

  // On some continuation without further edits of its secret from outside, the load ends with this answer.
  ghost predicate CanLoad(s: System, id: nat, a: Answer)
    requires Writing(s, id)
  {
    exists t :: Reaches({NameOf(s, id)}, s, t) && At(t, id, Reading(Ended(Got(a))))
  }

  // An invariant of those continuations: r is the state in which the load began.

  ghost predicate ReplyFits(r: System, n: string, reply: Reply) {
    reply.Got? ==> Permitted(r, n, reply.answer)
  }

  ghost predicate FlightFits(r: System, n: string, f: Flight) {
    f.target == RecordOf(n) && (f.phase.Opened? || ReplyFits(r, n, f.phase.reply))
  }

  ghost predicate FlightsFit(r: System, n: string, s: System) {
    forall i | 0 <= i < |s.flights| ::
      var f := s.flights[i];
      f.target == RecordOf(n) && r.cache.seqno <= f.seqno && !f.phase.Landed? ==> FlightFits(r, n, f)
  }

  ghost predicate ReadFits(r: System, n: string, s: System, pc: Pc) {
    match pc
    case Check => false
    case Snap => true
    case Join(q) => r.cache.seqno <= q
    case Wait(i) => i < |s.flights| && FlightFits(r, n, s.flights[i])
    case Ended(reply) => ReplyFits(r, n, reply)
  }

  // The record about to be committed was computed from an answer the load could have.
  ghost predicate PlanFits(r: System, op: Op, record: Record, out: Outcome)
    requires !op.Delete?
  {
    exists a :: Permitted(r, op.name, a) && Decide(op, Loaded(a)) == Write(record, out)
  }

  ghost predicate WriterFits(r: System, s: System, op: Op, w: WritePc) {
    match w
    case Queued => false
    case Reading(pc) => FlightsFit(r, op.name, s) && ReadFits(r, op.name, s, pc)
    case Committing(record, out) => !op.Delete? && PlanFits(r, op, record, out)
    case _ => true
  }

  // Until it commits, nobody else changes its secret.
  predicate Early(w: WritePc) {
    w.Reading? || w.Committing?
  }

  ghost predicate LoadFits(r: System, id: nat, s: System)
    requires Writing(r, id)
  {
    var op := r.threads[id].op;
    && MutexFits(s) && r.cache.seqno <= s.cache.seqno
    && Writing(s, id) && s.threads[id].op == op && WriterFits(r, s, op, s.threads[id].w)
    && (Early(s.threads[id].w) ==> View(s.inner, RecordOf(op.name)) == View(r.inner, RecordOf(op.name)))
  }

  lemma BeginFits(r: System, id: nat)
    requires Ordered(r) && Begins(r, id)
    ensures LoadFits(r, id, r)
  {
    var n := NameOf(r, id);
    forall i | 0 <= i < |r.flights| && r.flights[i].target == RecordOf(n) && r.cache.seqno <= r.flights[i].seqno
      && !r.flights[i].phase.Landed?
      ensures FlightFits(r, n, r.flights[i])
    {
      var phase := r.flights[i].phase;
      if !phase.Opened? && phase.reply.Got? {
        assert Holds(r, n, i, phase.reply.answer);
      }
    }
  }

  // A step that is no write's effect nor an edit from outside leaves the inner backend alone.
  lemma InnerStays(s: System, step: Step)
    requires Enabled(s, step) && !step.Commit? && !step.Erase? && !step.OutOfBand?
    ensures Next(s, step).inner == s.inner
  {}

  // While a write of n holds the mutex and has not committed, only an edit from outside changes n.
  lemma SecretStays(s: System, step: Step, id: nat)
    requires MutexFits(s) && Enabled(s, step) && Writing(s, id) && Spares({NameOf(s, id)}, step)
    requires Early(s.threads[id].w) && Early(Next(s, step).threads[id].w)
    ensures View(Next(s, step).inner, RecordOf(NameOf(s, id))) == View(s.inner, RecordOf(NameOf(s, id)))
  {
    assert Holding(s.threads[id]);
    if step.Commit? || step.Erase? {
      assert Holding(s.threads[step.id]) && step.id == id;
    } else if !step.OutOfBand? {
      InnerStays(s, step);
    }
  }

  // A flight that held, or may yet fetch, a permitted answer goes on to do so.
  lemma FlightKeeps(r: System, n: string, s: System, step: Step, i: nat)
    requires Enabled(s, step) && i < |s.flights| && FlightFits(r, n, s.flights[i])
    requires View(s.inner, RecordOf(n)) == View(r.inner, RecordOf(n))
    ensures i < |Next(s, step).flights| && FlightFits(r, n, Next(s, step).flights[i])
  {
    Provenance.FlightsOnlyOpen(s, step);
    Provenance.FlightMoves(s, step, i);
  }

  lemma FlightsKeep(r: System, n: string, s: System, step: Step)
    requires Enabled(s, step) && FlightsFit(r, n, s) && View(s.inner, RecordOf(n)) == View(r.inner, RecordOf(n))
    ensures FlightsFit(r, n, Next(s, step))
  {
    var t := Next(s, step);
    forall i | 0 <= i < |t.flights| && t.flights[i].target == RecordOf(n) && r.cache.seqno <= t.flights[i].seqno
      && !t.flights[i].phase.Landed?
      ensures FlightFits(r, n, t.flights[i])
    {
      Provenance.FlightMoves(s, step, i);
      if i < |s.flights| {
        FlightKeeps(r, n, s, step, i);
      }
    }
  }

  // The step moves thread id.
  predicate Moves(step: Step, id: nat) {
    (step.SpawnReader? || step.SpawnWriter? || step.Acquire? || OfRead(step) || OfWrite(step)) && step.id == id
  }

  lemma OthersStay(s: System, step: Step, id: nat)
    requires Enabled(s, step) && id in s.threads && !Moves(step, id)
    ensures id in Next(s, step).threads && Next(s, step).threads[id] == s.threads[id]
  {}

  lemma ReadMoves(r: System, n: string, s: System, step: Step, id: nat)
    requires Enabled(s, step) && Moves(step, id) && Writing(s, id) && NameOf(s, id) == n && s.threads[id].w.Reading?
    requires r.cache.seqno <= s.cache.seqno && FlightsFit(r, n, s) && ReadFits(r, n, s, s.threads[id].w.pc)
    requires View(s.inner, RecordOf(n)) == View(r.inner, RecordOf(n)) && !step.Choose?
    ensures var t := Next(s, step);
            && Writing(t, id) && t.threads[id].op == s.threads[id].op && t.threads[id].w.Reading?
            && ReadFits(r, n, t, t.threads[id].w.pc)
  {
    assert Asking(s, id) && TheAsk(s, id) == Ask(RecordOf(n), true, s.threads[id].w.pc);
  }

  lemma WriterMoves(r: System, s: System, step: Step, id: nat)
    requires Writing(r, id) && LoadFits(r, id, s) && Enabled(s, step) && Moves(step, id)
    ensures var t := Next(s, step);
            && Writing(t, id) && t.threads[id].op == r.threads[id].op
            && WriterFits(r, t, r.threads[id].op, t.threads[id].w)
            && (Early(t.threads[id].w) ==> Early(s.threads[id].w))
  {
    var op := r.threads[id].op;
    if s.threads[id].w.Reading? && !step.Choose? {
      FlightsKeep(r, op.name, s, step);
      ReadMoves(r, op.name, s, step, id);
    }
  }

  lemma WriterWaits(r: System, s: System, step: Step, id: nat)
    requires Writing(r, id) && LoadFits(r, id, s) && Enabled(s, step) && !Moves(step, id)
    ensures var t := Next(s, step);
            && Writing(t, id) && t.threads[id] == s.threads[id] && WriterFits(r, t, r.threads[id].op, t.threads[id].w)
  {
    var op, w := r.threads[id].op, s.threads[id].w;
    OthersStay(s, step, id);
    if w.Reading? {
      FlightsKeep(r, op.name, s, step);
      if w.pc.Wait? {
        FlightKeeps(r, op.name, s, step, w.pc.flight);
      }
    }
  }

  lemma StepKeepsLoad(r: System, s: System, step: Step, id: nat)
    requires Writing(r, id) && LoadFits(r, id, s) && Enabled(s, step) && Spares({NameOf(r, id)}, step)
    ensures LoadFits(r, id, Next(s, step))
  {
    KeepsMutex(s, step);
    Provenance.SequenceRises(s, step);
    if Moves(step, id) {
      WriterMoves(r, s, step, id);
    } else {
      WriterWaits(r, s, step, id);
    }
    if Early(Next(s, step).threads[id].w) {
      SecretStays(s, step, id);
    }
  }

  lemma {:induction false} RunKeepsLoad(r: System, id: nat, s: System, steps: seq<Step>, t: System)
    requires Writing(r, id) && LoadFits(r, id, s) && RunsTo({NameOf(r, id)}, s, steps, t)
    ensures LoadFits(r, id, t)
    decreases |steps|
  {
    if steps != [] {
      StepKeepsLoad(r, s, steps[0], id);
      RunKeepsLoad(r, id, Next(s, steps[0]), steps[1..], t);
    }
  }

  lemma ContinuationFits(r: System, id: nat, t: System)
    requires Reachable(r) && Begins(r, id) && Reaches({NameOf(r, id)}, r, t)
    ensures LoadFits(r, id, t)
  {
    ReachableIsOrdered(r);
    BeginFits(r, id);
    var steps :| RunsTo({NameOf(r, id)}, r, steps, t);
    RunKeepsLoad(r, id, r, steps, t);
  }

  // --- each of those answers can be had ---

  // The load joins a fetch that holds an answer.
  lemma CanJoin(s: System, id: nat, i: nat, a: Answer)
    requires Begins(s, id) && Holds(s, NameOf(s, id), i, a)
    ensures CanLoad(s, id, a)
  {
    var kept := {NameOf(s, id)};
    Here(kept, s);
    Joins(kept, s, s, id, i);
    var u := SetPc(s, id, Wait(i));
    if u.flights[i].phase.Fetched? {
      u := Onward(kept, s, u, Apply(i, 0));
    }
    u := Onward(kept, s, u, Land(i));
    assert Asking(u, id) && TheAsk(u, id) == Ask(RecordOf(NameOf(s, id)), true, Wait(i));
    u := Onward(kept, s, u, Wake(id));
  }

  // The load opens a fetch of its own, once the cache's sequence number has moved on.
  lemma CanFetch(s: System, id: nat)
    requires Ordered(s) && Begins(s, id)
    ensures CanLoad(s, id, View(s.inner, RecordOf(NameOf(s, id))))
  {
    var kept := {NameOf(s, id)};
    Here(kept, s);
    var u := Onward(kept, s, s, Purge);
    assert TheAsk(u, id) == Ask(RecordOf(NameOf(s, id)), true, Snap);
    assert !InFlight(u, u.cache.seqno, RecordOf(NameOf(s, id)));
    Asks(kept, s, u, id);
    u := Asked(u, id);
    Wakes(kept, s, u, id, |s.flights|, 0);
  }

  // Exactly which answers a store write's load can end with: the inner backend's, and what a fetch of its
  // secret, under way under the current sequence number when the writer got the mutex, then held already.
  lemma LoadsIff(s: System, id: nat, a: Answer)
    requires Reachable(s) && Begins(s, id)
    ensures CanLoad(s, id, a) <==> Permitted(s, NameOf(s, id), a)
  {
    var n := NameOf(s, id);
    ReachableIsOrdered(s);
    if CanLoad(s, id, a) {
      var t :| Reaches({n}, s, t) && At(t, id, Reading(Ended(Got(a))));
      ContinuationFits(s, id, t);
    } else if a == View(s.inner, RecordOf(n)) {
      CanFetch(s, id);
    } else if i: nat :| Holds(s, n, i, a) {
      CanJoin(s, id, i, a);
    }
  }

  // A fetch of n under way under the current sequence number holds what is no longer so.
  predicate Old(s: System, n: string, i: nat) {
    && i < |s.flights| && (s.flights[i].phase.Fetched? || s.flights[i].phase.Applied?) && s.flights[i].phase.reply.Got?
    && Holds(s, n, i, s.flights[i].phase.reply.answer)
    && s.flights[i].phase.reply.answer != View(s.inner, RecordOf(n))
  }

  // However things go on without further edits of its secret from outside, the load that succeeds answers
  // with what the inner backend holds at that moment.
  ghost predicate AlwaysCurrent(s: System, id: nat)
    requires Writing(s, id)
  {
    forall t, a | Reaches({NameOf(s, id)}, s, t) && At(t, id, Reading(Ended(Got(a)))) ::
      a == View(t.inner, RecordOf(NameOf(s, id)))
  }

  // The forced load of a write that has just got the mutex is current on every continuation if and only if
  // no fetch of its secret, under way under the current sequence number, holds another answer.
  lemma CurrentIff(s: System, id: nat)
    requires Reachable(s) && Begins(s, id)
    ensures AlwaysCurrent(s, id) <==> !exists i :: Old(s, NameOf(s, id), i)
  {
    var n := NameOf(s, id);
    if i: nat :| Old(s, n, i) {
      var a := s.flights[i].phase.reply.answer;
      LoadsIff(s, id, a);
      var t :| Reaches({n}, s, t) && At(t, id, Reading(Ended(Got(a))));
      ContinuationFits(s, id, t);
      assert a != View(t.inner, RecordOf(n));
    } else {
      forall t, a | Reaches({n}, s, t) && At(t, id, Reading(Ended(Got(a))))
        ensures a == View(t.inner, RecordOf(n))
      {
        ContinuationFits(s, id, t);
        assert Permitted(s, n, a);
        assert forall i :: Holds(s, n, i, a) && a != View(s.inner, RecordOf(n)) ==> Old(s, n, i);
      }
    }
  }

  // --- version numbers given out again ---

  // On some such continuation the write, a Put, is about to commit under a version number that its secret
  // has already used.
  ghost predicate CanReissue(s: System, id: nat)
    requires Writing(s, id)
  {
    exists t, r, v :: Reissues(s, id, t, r, v)
  }

  ghost predicate Reissues(s: System, id: nat, t: System, r: Record, v: Version)
    requires Writing(s, id)
  {
    var n := NameOf(s, id);
    && Reaches({n}, s, t) && At(t, id, Committing(r, Assigned(v)))
    && n in t.inner && v in t.inner[n].Claimed()
  }

  // Computed from what the fetch holds, the write's version is one its secret has already used.
  predicate Misleads(s: System, id: nat, i: nat)
    requires Writing(s, id) && !s.threads[id].op.Delete?
  {
    var op := s.threads[id].op;
    && Old(s, op.name, i) && op.name in s.inner
    && match Decide(op, Loaded(s.flights[i].phase.reply.answer))
       case Write(_, Assigned(v)) => v in s.inner[op.name].Claimed()
       case _ => false
  }

  // From a well-formed record a Put takes no version already used.
  lemma FreshVersion(op: Op, r: Record, v: Version)
    requires op.Put? && WellFormed(r) && Decide(op, Some(r)).Write? && Decide(op, Some(r)).outcome == Assigned(v)
    ensures v !in r.Claimed()
  {}

  lemma ReissueMisleads(s: System, id: nat, t: System, r: Record, v: Version)
    requires Reachable(s) && Begins(s, id) && s.threads[id].op.Put? && Reissues(s, id, t, r, v)
    requires NameOf(s, id) in s.inner ==> WellFormed(s.inner[NameOf(s, id)])
    ensures exists i :: Misleads(s, id, i)
  {
    var op := s.threads[id].op;
    ContinuationFits(s, id, t);
    assert View(t.inner, RecordOf(op.name)) == View(s.inner, RecordOf(op.name));
    var a :| Permitted(s, op.name, a) && Decide(op, Loaded(a)) == Write(r, Assigned(v));
    if a == View(s.inner, RecordOf(op.name)) {
      FreshVersion(op, s.inner[op.name], v);
    } else {
      var i :| Holds(s, op.name, i, a);
      assert Misleads(s, id, i);
    }
  }

  lemma MisleadReissues(s: System, id: nat, i: nat)
    requires Reachable(s) && Begins(s, id) && !s.threads[id].op.Delete? && Misleads(s, id, i)
    ensures CanReissue(s, id)
  {
    var op, a := s.threads[id].op, s.flights[i].phase.reply.answer;
    LoadsIff(s, id, a);
    var t :| Reaches({op.name}, s, t) && At(t, id, Reading(Ended(Got(a))));
    ContinuationFits(s, id, t);
    Chooses({op.name}, s, t, id, a);
    var Write(r, Assigned(v)) := Decide(op, Loaded(a));
    assert Reissues(s, id, SetW(t, id, Committing(r, Assigned(v))), r, v);
  }

  // A Put that has just got the mutex over a well-formed record can give out a version number again if and
  // only if such a fetch holds an answer from which it would.
  lemma ReissuesIff(s: System, id: nat)
    requires Reachable(s) && Begins(s, id) && s.threads[id].op.Put?
    requires NameOf(s, id) in s.inner ==> WellFormed(s.inner[NameOf(s, id)])
    ensures CanReissue(s, id) <==> exists i :: Misleads(s, id, i)
  {
    if CanReissue(s, id) {
      var t, r, v :| Reissues(s, id, t, r, v);
      ReissueMisleads(s, id, t, r, v);
    } else if i: nat :| Misleads(s, id, i) {
      MisleadReissues(s, id, i);
    }
  }

  // After a write applied but reported failed, the next one may: the fetch opened before it is Old.
  lemma OvertakenReissues(name: string, v: Bytes, x: Bytes, y: Bytes, ttl: int, now: int, jitter: int, f: Failure)
    requires JitterInRange(ttl, jitter) && v != x && v != y && name != "" && !Reserved(name)
    ensures var s := Overtaken(name, v, x, y, ttl, now, jitter, f);
            Begins(s, 3) && !AlwaysCurrent(s, 3) && CanReissue(s, 3)
  {
    var s := Overtaken(name, v, x, y, ttl, now, jitter, f);
    OvertakenReaches(name, v, x, y, ttl, now, jitter, f);
    DecidesSecond(name, v, y);
    assert Old(s, name, 1);
    CurrentIff(s, 3);
    assert Misleads(s, 3, 1);
    MisleadReissues(s, 3, 1);
  }
}
