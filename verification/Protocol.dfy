/** The running service as a step system: any number of threads reading through the cache and
    writing through the store, over one inner backend (backend/cache/cache.go, store/store.go).
    Each step is one critical section, one inner call, or one decision of the environment. */
module Protocol {
  import opened Wrappers
  import opened Records
  import opened ReadCache
  import opened Versions

  // A coalesced fetch: opened, answered by the inner backend, applied to the cache, finished.
  datatype Phase = Opened | Fetched(reply: Reply) | Applied(reply: Reply) | Landed(reply: Reply)

  // The key of a flight is the sequence number and the target together.
  datatype Flight = Flight(seqno: nat, target: Target, phase: Phase)

  // Where a thread stands inside Load or List.
  datatype Pc = Check | Snap | Join(seqno: nat) | Wait(flight: nat) | Ended(reply: Reply)

  datatype Result = Answered(outcome: Outcome) | BackendFailed(failure: Failure)

  // Where a thread stands inside a store write.
  datatype WritePc =
    | Queued | Reading(pc: Pc)
    | Committing(record: Record, outcome: Outcome) | Refreshing(record: Record, outcome: Outcome)
    | Erasing | Evicting | Dropping
    | Leaving(result: Result) | Closed(result: Result)

  datatype Thread = Reader(target: Target, force: bool, pc: Pc) | Writer(op: Op, w: WritePc)

  datatype System = System(inner: Secrets, cache: CacheState, now: int, flights: seq<Flight>,
                           threads: map<nat, Thread>, lock: Option<nat>)

  datatype Step =
    | SpawnReader(id: nat, target: Target, force: bool)
    | SpawnWriter(id: nat, op: Op)
    | LookUp(id: nat) | Snapshot(id: nat) | Open(id: nat) | Attach(id: nat, flight: nat) | Wake(id: nat)
    | Fetch(flight: nat, outage: Option<Failure>) | Apply(flight: nat, jitter: int) | Land(flight: nat)
    | Acquire(id: nat) | Choose(id: nat) | Commit(id: nat, outage: Option<Failure>) | Refresh(id: nat, jitter: int)
    | Erase(id: nat, outage: Option<Failure>) | Evict(id: nat) | Drop(id: nat) | Release(id: nat)
    | Remove(name: string) | Purge | PushOut(names: set<string>) | Tick(passed: nat)
    | OutOfBand(name: string, record: Option<Record>)

  // Steps inside a read.
  predicate OfRead(step: Step) {
    step.LookUp? || step.Snapshot? || step.Open? || step.Attach? || step.Wake?
  }

  // Steps of a store write past its load.
  predicate OfWrite(step: Step) {
    step.Choose? || step.Commit? || step.Refresh? || step.Erase? || step.Evict? || step.Drop? || step.Release?
  }

  // The read a thread is in the middle of: a reader's own, or a writer's forced load.
  datatype Ask = Ask(target: Target, force: bool, pc: Pc)

  function AskOf(th: Thread): Option<Ask> {
    if th.Reader? then Some(Ask(th.target, th.force, th.pc))
    else if th.w.Reading? then Some(Ask(RecordOf(th.op.name), true, th.w.pc))
    else None
  }

  predicate Asking(s: System, id: nat) {
    id in s.threads && AskOf(s.threads[id]).Some?
  }

  function TheAsk(s: System, id: nat): Ask
    requires Asking(s, id)
  {
    AskOf(s.threads[id]).value
  }

  function WithPc(th: Thread, pc: Pc): Thread {
    if th.Reader? then th.(pc := pc) else th.(w := Reading(pc))
  }

  predicate At(s: System, id: nat, w: WritePc) {
    id in s.threads && s.threads[id].Writer? && s.threads[id].w == w
  }

  predicate Writing(s: System, id: nat) {
    id in s.threads && s.threads[id].Writer?
  }

  // The thread owns the store's mutex.
  predicate Holding(th: Thread) {
    th.Writer? && !th.w.Queued? && !th.w.Closed?
  }

  function Pending(outage: Option<Failure>, inner: Secrets, t: Target): Reply {
    if outage.Some? then Failed(outage.value) else Got(View(inner, t))
  }

  predicate InFlight(s: System, seqno: nat, t: Target) {
    exists f | f in s.flights :: f.seqno == seqno && f.target == t && !f.phase.Landed?
  }

  predicate Enabled(s: System, step: Step) {
    match step
    case SpawnReader(id, _, _) => id !in s.threads
    case SpawnWriter(id, _) => id !in s.threads
    case LookUp(id) => Asking(s, id) && TheAsk(s, id).pc.Check?
    case Snapshot(id) => Asking(s, id) && TheAsk(s, id).pc.Snap?
    case Open(id) =>
      Asking(s, id) && TheAsk(s, id).pc.Join? && !InFlight(s, TheAsk(s, id).pc.seqno, TheAsk(s, id).target)
    case Attach(id, i) =>
      && Asking(s, id) && TheAsk(s, id).pc.Join?
      && i < |s.flights| && !s.flights[i].phase.Landed?
      && s.flights[i].seqno == TheAsk(s, id).pc.seqno && s.flights[i].target == TheAsk(s, id).target
    case Wake(id) =>
      && Asking(s, id) && TheAsk(s, id).pc.Wait?
      && TheAsk(s, id).pc.flight < |s.flights| && s.flights[TheAsk(s, id).pc.flight].phase.Landed?
    case Fetch(i, _) => i < |s.flights| && s.flights[i].phase.Opened?
    case Apply(i, j) => i < |s.flights| && s.flights[i].phase.Fetched? && JitterInRange(s.cache.ttl, j)
    case Land(i) => i < |s.flights| && s.flights[i].phase.Applied?
    case Acquire(id) => At(s, id, Queued) && s.lock.None?
    case Choose(id) => Writing(s, id) && s.threads[id].w.Reading? && s.threads[id].w.pc.Ended? && !s.threads[id].op.Delete?
    case Commit(id, _) => Writing(s, id) && s.threads[id].w.Committing?
    case Refresh(id, j) => Writing(s, id) && s.threads[id].w.Refreshing? && JitterInRange(s.cache.ttl, j)
    case Erase(id, _) => At(s, id, Erasing)
    case Evict(id) => At(s, id, Evicting)
    case Drop(id) => At(s, id, Dropping)
    case Release(id) => Writing(s, id) && s.threads[id].w.Leaving?
    case Remove(_) => true
    case Purge => true
    case PushOut(_) => true
    case Tick(_) => true
    case OutOfBand(_, _) => true
  }

  function SetPc(s: System, id: nat, pc: Pc): System
    requires id in s.threads
  {
    s.(threads := s.threads[id := WithPc(s.threads[id], pc)])
  }

  function SetW(s: System, id: nat, w: WritePc): System
    requires Writing(s, id)
  {
    s.(threads := s.threads[id := s.threads[id].(w := w)])
  }

  function SetPhase(s: System, i: nat, phase: Phase): System
    requires i < |s.flights|
  {
    s.(flights := s.flights[i := s.flights[i].(phase := phase)])
  }

  // The record a finished forced load hands to the store's rules.
  function Loaded(a: Answer): Option<Record> {
    if a.Found? then Some(a.record) else None
  }

  function Chosen(op: Op, reply: Reply): WritePc
    requires !op.Delete?
  {
    match reply
    case Failed(f) => Leaving(BackendFailed(f))
    case Got(a) =>
      match Decide(op, Loaded(a))
      case Reply(out) => Leaving(Answered(out))
      case Write(r, out) => Committing(r, out)
  }

  // A flight's answer has its target's shape; the cache is untouched by any other.
  function Absorb(s: System, f: Flight, jitter: int): CacheState
    requires f.phase.Fetched?
  {
    if f.phase.reply.Got? && !Matches(f.target, f.phase.reply.answer) then s.cache
    else Settle(s.cache, f.target, f.seqno, f.phase.reply, s.now, jitter)
  }

  function Next(s: System, step: Step): System
    requires Enabled(s, step)
  {
    match step
    case SpawnReader(id, t, force) => s.(threads := s.threads[id := Reader(t, force, if force then Snap else Check)])
    case SpawnWriter(id, op) =>
      var w := if Precheck(op).Some? then Closed(Answered(Refused(Precheck(op).value))) else Queued;
      s.(threads := s.threads[id := Writer(op, w)])
    case LookUp(id) =>
      var hit := Hit(s.cache, TheAsk(s, id).target, s.now);
      SetPc(s, id, if hit.Some? then Ended(Got(hit.value)) else Snap)
    case Snapshot(id) => SetPc(s, id, Join(s.cache.seqno))
    case Open(id) =>
      var ask := TheAsk(s, id);
      SetPc(s, id, Wait(|s.flights|)).(flights := s.flights + [Flight(ask.pc.seqno, ask.target, Opened)])
    case Attach(id, i) => SetPc(s, id, Wait(i))
    case Wake(id) =>
      var ask := TheAsk(s, id);
      SetPc(s, id, Ended(Delivered(s.cache, ask.target, ask.force, s.flights[ask.pc.flight].phase.reply)))
    case Fetch(i, outage) => SetPhase(s, i, Fetched(Pending(outage, s.inner, s.flights[i].target)))
    case Apply(i, j) => SetPhase(s, i, Applied(s.flights[i].phase.reply)).(cache := Absorb(s, s.flights[i], j))
    case Land(i) => SetPhase(s, i, Landed(s.flights[i].phase.reply))
    case Acquire(id) => SetW(s, id, if s.threads[id].op.Delete? then Erasing else Reading(Snap)).(lock := Some(id))
    case Choose(id) => SetW(s, id, Chosen(s.threads[id].op, s.threads[id].w.pc.reply))
    case Commit(id, outage) =>
      var Writer(op, Committing(r, out)) := s.threads[id];
      if outage.Some? then SetW(s, id, Leaving(BackendFailed(outage.value)))
      else SetW(s, id, Refreshing(r, out)).(inner := s.inner[op.name := r])
    case Refresh(id, j) =>
      var Writer(op, Refreshing(r, out)) := s.threads[id];
      SetW(s, id, Leaving(Answered(out))).(cache := Saved(s.cache, op.name, r, s.now, j))
    case Erase(id, outage) =>
      if outage.Some? then SetW(s, id, Leaving(BackendFailed(outage.value)))
      else SetW(s, id, Evicting).(inner := s.inner - {s.threads[id].op.name})
    case Evict(id) => SetW(s, id, Dropping).(cache := Removed(s.cache, s.threads[id].op.name))
    case Drop(id) => SetW(s, id, Leaving(Answered(Done))).(cache := NamesDropped(s.cache))
    case Release(id) => SetW(s, id, Closed(s.threads[id].w.result)).(lock := None)
    case Remove(name) => s.(cache := Removed(s.cache, name))
    case Purge => s.(cache := Purged(s.cache))
    case PushOut(names) => s.(cache := Evicted(s.cache, names))
    case Tick(d) => s.(now := s.now + d)
    case OutOfBand(name, r) => s.(inner := if r.Some? then s.inner[name := r.value] else s.inner - {name})
  }

  // A cold cache over any inner contents.
  function Start(m: Secrets, ttl: int, now: int): System {
    System(m, CacheState(ttl, 0, map[], None), now, [], map[], None)
  }

  // At most one fetch per sequence number and target is in flight.
  predicate Coalesced(s: System) {
    forall i, j | 0 <= i < j < |s.flights| ::
      s.flights[i].seqno == s.flights[j].seqno && s.flights[i].target == s.flights[j].target ==>
        s.flights[i].phase.Landed? || s.flights[j].phase.Landed?
  }

  lemma StaysCoalesced(s: System, step: Step)
    requires Coalesced(s) && Enabled(s, step)
    ensures Coalesced(Next(s, step))
  {
    if step.Open? {
      assert Next(s, step).flights[..|s.flights|] == s.flights;
    }
  }
}
