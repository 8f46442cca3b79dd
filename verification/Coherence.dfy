/** What every run of the service keeps, as long as the inner backend is written only through it.
    History variables record every inner state, how many writes have reached the cache, and the
    order in which operations took effect; no guard of the step system can see them. */
module Coherence {
  import opened Wrappers
  import opened Records
  import opened ReadCache
  import opened Versions
  import opened Protocol

  datatype History = History(
    hist: seq<Secrets>,      // every inner state so far, the current one last
    bumped: nat,             // writes whose sequence bump has happened
    listed: nat,             // writes that have also dropped the name list
    marks: seq<nat>,         // marks[q]: the value of bumped when the sequence number became q
    fetched: map<nat, nat>,  // the inner state each flight read, as an index into hist
    floor: map<nat, nat>,    // writes already complete when a read began
    got: map<nat, nat>,      // the inner state a finished read's answer belongs to
    log: seq<Event>,         // operations in the order they took effect
    owners: seq<nat>,        // the thread of each logged operation
    entry: map<nat, nat>,    // the place in the log of each thread's operation
    born: map<nat, nat>)     // the length of the log when a writer appeared

  datatype State = State(sys: System, h: History)

  function Low(h: History, t: Target): nat {
    if t.AllNames? then h.listed else h.bumped
  }

  // The inner state a resident answer belongs to.
  function Origin(h: History, t: Target, a: Answer): nat
    requires h.hist != []
  {
    if Low(h, t) < |h.hist| && a == View(h.hist[Low(h, t)], t) then Low(h, t) else |h.hist| - 1
  }

  function Logged(h: History, id: nat, op: Op, outcome: Outcome): History {
    h.(log := h.log + [Event(op, outcome)], owners := h.owners + [id], entry := h.entry[id := |h.log|])
  }

  function Marked(h: History): History {
    h.(marks := h.marks + [h.bumped])
  }

  // Where the answer a read has just been given comes from.
  function GotThen(s: State, step: Step): map<nat, nat>
    requires Enabled(s.sys, step) && (step.LookUp? || step.Wake?) && s.h.hist != []
  {
    var h, sys := s.h, s.sys;
    match step
    case LookUp(id) =>
      var t := TheAsk(sys, id).target;
      var hit := Hit(sys.cache, t, sys.now);
      if hit.Some? then h.got[id := Origin(h, t, hit.value)] else h.got
    case Wake(id) =>
      var ask := TheAsk(sys, id);
      var landed := sys.flights[ask.pc.flight].phase.reply;
      var reply := Delivered(sys.cache, ask.target, ask.force, landed);
      if landed.Got? then
        if ask.pc.flight in h.fetched then h.got[id := h.fetched[ask.pc.flight]] else h.got
      else if reply.Got? then h.got[id := Origin(h, ask.target, reply.answer)]
      else h.got
  }

  function Note(s: State, step: Step): History
    requires Enabled(s.sys, step) && s.h.hist != []
  {
    var h, sys := s.h, s.sys;
    match step
    case SpawnReader(id, t, _) => h.(floor := h.floor[id := Low(h, t)])
    case SpawnWriter(id, op) =>
      var h := h.(born := h.born[id := |h.log|]);
      if Precheck(op).Some? then Logged(h, id, op, Refused(Precheck(op).value)) else h
    case LookUp(_) => h.(got := GotThen(s, step))
    case Wake(_) => h.(got := GotThen(s, step))
    case Fetch(i, _) => h.(fetched := h.fetched[i := |h.hist| - 1])
    case Acquire(id) => h.(floor := h.floor[id := h.bumped])
    case Choose(id) =>
      var op := sys.threads[id].op;
      var w := Chosen(op, sys.threads[id].w.pc.reply);
      if w.Leaving? && w.result.Answered? then Logged(h, id, op, w.result.outcome) else h
    case Commit(id, outage) =>
      var Writer(op, Committing(_, out)) := sys.threads[id];
      if outage.Some? then h
      else Logged(h, id, op, out).(hist := h.hist + [Next(sys, step).inner])
    case Erase(id, outage) =>
      if outage.Some? then h
      else Logged(h, id, sys.threads[id].op, Done).(hist := h.hist + [Next(sys, step).inner])
    case Refresh(id, _) => Marked(h.(bumped := |h.hist| - 1, listed := |h.hist| - 1))
    case Evict(id) => Marked(h.(bumped := |h.hist| - 1))
    case Drop(id) => h.(listed := h.bumped)
    case Remove(_) => Marked(h)
    case Purge => Marked(h)
    case _ => h
  }

  function Take(s: State, step: Step): State
    requires Enabled(s.sys, step) && s.h.hist != []
  {
    State(Next(s.sys, step), Note(s, step))
  }

  function Init(m: Secrets, ttl: int, now: int): State {
    State(Start(m, ttl, now), History([m], 0, 0, [0], map[], map[], map[], [], [], map[], map[]))
  }

  // --- the invariant ---

  // Between its inner commit and its last cache step, a write's effect on the cache is pending.
  predicate Counters(s: State) {
    && s.h.hist != [] && s.sys.inner == Last(s.h.hist)
    && s.h.listed <= s.h.bumped < |s.h.hist| <= s.h.listed + 2
  }

  // What the mutex's owner has done so far; in particular its load began with every earlier write complete.
  predicate HolderFits(s: State, id: nat, th: Thread)
    requires Counters(s) && th.Writer?
  {
    var n := |s.h.hist| - 1;
    match th.w
    case Refreshing(r, _) =>
      s.h.bumped == s.h.listed == n - 1 && s.sys.inner == s.h.hist[n - 1][th.op.name := r]
    case Evicting => s.h.bumped == s.h.listed == n - 1 && s.sys.inner == s.h.hist[n - 1] - {th.op.name}
    case Dropping => s.h.bumped == n && s.h.listed == n - 1
    case Committing(r, out) =>
      s.h.listed == n && !th.op.Delete? && Decide(th.op, Lookup(s.sys.inner, th.op.name)) == Write(r, out)
    case Reading(_) => s.h.listed == n && !th.op.Delete? && id in s.h.floor && s.h.floor[id] == n
    case Erasing => s.h.listed == n && th.op.Delete?
    case _ => s.h.listed == n
  }

  // The mutex has at most one owner, and only its owner can have a write in progress.
  predicate Locked(s: State)
    requires Counters(s)
  {
    && (s.sys.lock.None? ==> s.h.listed == |s.h.hist| - 1)
    && (s.sys.lock.Some? ==> s.sys.lock.value in s.sys.threads && Holding(s.sys.threads[s.sys.lock.value])
                             && HolderFits(s, s.sys.lock.value, s.sys.threads[s.sys.lock.value]))
    && (forall id | id in s.sys.threads :: Holding(s.sys.threads[id]) ==> s.sys.lock == Some(id))
    && (forall id | id in s.sys.threads ::
          s.sys.threads[id].Writer? && !s.sys.threads[id].w.Closed? ==> Precheck(s.sys.threads[id].op).None?)
  }

  predicate MarksFit(s: State) {
    && |s.h.marks| == s.sys.cache.seqno + 1
    && s.h.marks[s.sys.cache.seqno] == s.h.bumped
    && forall p, q | 0 <= p <= q < |s.h.marks| :: s.h.marks[p] <= s.h.marks[q]
  }

  // Each resident answer is the bare map's answer at the last completed write, or at the pending one.
  ghost predicate ResidentsFit(s: State)
    requires Counters(s)
  {
    forall t: Target | Resident(s.sys.cache, t).Some? ::
      var a := Resident(s.sys.cache, t).value.val;
      a == View(s.h.hist[Low(s.h, t)], t) || a == View(s.sys.inner, t)
  }

  predicate FlightFits(s: State, i: nat)
    requires i < |s.sys.flights|
  {
    var f := s.sys.flights[i];
    && f.seqno < |s.h.marks|
    && (!f.phase.Opened? && f.phase.reply.Got? ==>
          && i in s.h.fetched && s.h.marks[f.seqno] <= s.h.fetched[i] < |s.h.hist|
          && f.phase.reply.answer == View(s.h.hist[s.h.fetched[i]], f.target))
  }

  predicate FlightsFit(s: State) {
    forall i | 0 <= i < |s.sys.flights| :: FlightFits(s, i)
  }

  predicate AskFits(s: State, id: nat)
    requires Asking(s.sys, id)
  {
    var ask := TheAsk(s.sys, id);
    && id in s.h.floor && s.h.floor[id] <= Low(s.h, ask.target)
    && match ask.pc
       case Check => true
       case Snap => true
       case Join(q) => q < |s.h.marks| && s.h.floor[id] <= s.h.marks[q]
       case Wait(i) =>
         && i < |s.sys.flights| && s.sys.flights[i].target == ask.target
         && s.sys.flights[i].seqno < |s.h.marks| && s.h.floor[id] <= s.h.marks[s.sys.flights[i].seqno]
       case Ended(reply) =>
         reply.Got? ==> id in s.h.got && s.h.floor[id] <= s.h.got[id] < |s.h.hist|
                        && reply.answer == View(s.h.hist[s.h.got[id]], ask.target)
  }

  ghost predicate ThreadsFit(s: State) {
    forall id | Asking(s.sys, id) :: AskFits(s, id)
  }

  // The outcome of a writer whose operation has taken effect.
  function TookEffect(w: WritePc): Option<Outcome> {
    match w
    case Refreshing(_, out) => Some(out)
    case Evicting => Some(Done)
    case Dropping => Some(Done)
    case Leaving(Answered(out)) => Some(out)
    case Closed(Answered(out)) => Some(out)
    case _ => None
  }

  // The log is exactly the operations that took effect, one entry each, made after their thread began.
  ghost predicate LogFits(s: State) {
    && |s.h.owners| == |s.h.log|
    && (forall k | 0 <= k < |s.h.owners| ::
          && s.h.owners[k] in s.h.entry && s.h.entry[s.h.owners[k]] == k
          && s.h.owners[k] in s.sys.threads)
    && (forall id | id in s.h.entry ::
          && s.h.entry[id] < |s.h.log| && s.h.owners[s.h.entry[id]] == id
          && Writing(s.sys, id) && s.sys.threads[id].op == s.h.log[s.h.entry[id]].op
          && TookEffect(s.sys.threads[id].w) == Some(s.h.log[s.h.entry[id]].outcome)
          && id in s.h.born && s.h.born[id] <= s.h.entry[id])
    && (forall id | Writing(s.sys, id) ::
          && id in s.h.born && s.h.born[id] <= |s.h.log|
          && (TookEffect(s.sys.threads[id].w).Some? ==> id in s.h.entry))
  }

  // Inner contents and acknowledged outcomes are those of the bare machine run on the log.
  predicate Refines(s: State)
    requires s.h.hist != []
  {
    s.sys.inner == After(s.h.hist[0], s.h.log) && Explains(s.h.hist[0], s.h.log)
  }

  ghost predicate Coherence(s: State) {
    && Counters(s) && Locked(s) && MarksFit(s) && ResidentsFit(s) && FlightsFit(s) && Coalesced(s.sys)
    && ThreadsFit(s)
  }

  ghost predicate Inv(s: State) {
    Coherence(s) && LogFits(s) && Refines(s)
  }


  // --- every step only adds to the past ---

  predicate SameFlight(f: Flight, g: Flight) {
    f.seqno == g.seqno && f.target == g.target
  }

  predicate Later(s: State, t: State) {
    && s.h.hist <= t.h.hist && s.h.marks <= t.h.marks
    && s.h.bumped <= t.h.bumped && s.h.listed <= t.h.listed
    && |s.sys.flights| <= |t.sys.flights|
    && (forall i | 0 <= i < |s.sys.flights| :: SameFlight(s.sys.flights[i], t.sys.flights[i]))
  }

  lemma StepExtendsHistory(s: State, step: Step)
    requires Counters(s) && Enabled(s.sys, step)
    ensures var h := Note(s, step); s.h.hist <= h.hist && s.h.marks <= h.marks
  {
    var h := Note(s, step);
    assert h.hist == s.h.hist || h.hist == s.h.hist + [Next(s.sys, step).inner];
    assert h.marks == s.h.marks || h.marks == s.h.marks + [h.bumped];
  }

  lemma CountersRise(s: State, step: Step)
    requires Counters(s) && Enabled(s.sys, step)
    ensures var h := Note(s, step); s.h.bumped <= h.bumped && s.h.listed <= h.listed
  {}

  lemma StepExtendsFlights(s: System, step: Step)
    requires Enabled(s, step)
    ensures var fs := Next(s, step).flights;
            |s.flights| <= |fs| && forall i | 0 <= i < |s.flights| :: SameFlight(s.flights[i], fs[i])
  {}

  lemma StepIsLater(s: State, step: Step)
    requires Counters(s) && Enabled(s.sys, step)
    ensures Later(s, Take(s, step))
  {
    StepExtendsHistory(s, step);
    CountersRise(s, step);
    StepExtendsFlights(s.sys, step);
  }

  lemma FlightCarries(s: State, t: State, i: nat)
    requires Later(s, t) && i < |s.sys.flights| && FlightFits(s, i)
    requires s.sys.flights[i].phase.Opened? == t.sys.flights[i].phase.Opened?
    requires !s.sys.flights[i].phase.Opened? ==> s.sys.flights[i].phase.reply == t.sys.flights[i].phase.reply
    requires i in s.h.fetched ==> i in t.h.fetched && t.h.fetched[i] == s.h.fetched[i]
    ensures FlightFits(t, i)
  {}

  lemma AskCarries(s: State, t: State, id: nat)
    requires Later(s, t) && Asking(s.sys, id) && Asking(t.sys, id)
    requires TheAsk(s.sys, id) == TheAsk(t.sys, id) && AskFits(s, id)
    requires id in t.h.floor && t.h.floor[id] == s.h.floor[id]
    requires id in s.h.got ==> id in t.h.got && t.h.got[id] == s.h.got[id]
    ensures AskFits(t, id)
  {}

  // A flight just opened, by a caller whose sequence number is known.
  lemma OpenedFits(s: State, step: Step)
    requires Counters(s) && MarksFit(s) && ThreadsFit(s) && Enabled(s.sys, step) && step.Open?
    ensures FlightFits(Take(s, step), |s.sys.flights|)
  {
    assert AskFits(s, step.id);
  }

  // A fetch reads the inner state of the moment, no older than what its sequence number stands for.
  lemma FetchedFits(s: State, step: Step)
    requires Counters(s) && MarksFit(s) && FlightsFit(s) && Enabled(s.sys, step) && step.Fetch?
    ensures FlightFits(Take(s, step), step.flight)
  {
    assert FlightFits(s, step.flight);
    assert s.h.marks[s.sys.flights[step.flight].seqno] <= s.h.marks[s.sys.cache.seqno];
  }

  lemma OtherFlightStays(s: State, step: Step, i: nat)
    requires Enabled(s.sys, step) && i < |s.sys.flights| && !(step.Fetch? && step.flight == i) && s.h.hist != []
    ensures var f, g := s.sys.flights[i], Next(s.sys, step).flights[i];
            f.phase.Opened? == g.phase.Opened? && (!f.phase.Opened? ==> f.phase.reply == g.phase.reply)
  {}

  lemma FetchedStays(s: State, step: Step, i: nat)
    requires Enabled(s.sys, step) && !(step.Fetch? && step.flight == i) && s.h.hist != []
    ensures i in s.h.fetched ==> i in Note(s, step).fetched && Note(s, step).fetched[i] == s.h.fetched[i]
  {}

  lemma KeepsFlights(s: State, step: Step)
    requires Counters(s) && MarksFit(s) && FlightsFit(s) && ThreadsFit(s) && Enabled(s.sys, step)
    ensures FlightsFit(Take(s, step))
  {
    var t := Take(s, step);
    StepIsLater(s, step);
    assert |t.sys.flights| == |s.sys.flights| + if step.Open? then 1 else 0;
    forall i | 0 <= i < |t.sys.flights|
      ensures FlightFits(t, i)
    {
      if i == |s.sys.flights| {
        OpenedFits(s, step);
      } else if step.Fetch? && step.flight == i {
        FetchedFits(s, step);
      } else {
        OtherFlightStays(s, step, i);
        FetchedStays(s, step, i);
        FlightCarries(s, t, i);
      }
    }
  }

  // Only thread id moved.
  lemma KeepsThreads(s: State, t: State, id: nat)
    requires ThreadsFit(s) && Later(s, t)
    requires forall j | j in t.sys.threads && j != id :: j in s.sys.threads && t.sys.threads[j] == s.sys.threads[j]
    requires forall j | j in s.h.floor && j != id :: j in t.h.floor && t.h.floor[j] == s.h.floor[j]
    requires forall j | j in s.h.got && j != id :: j in t.h.got && t.h.got[j] == s.h.got[j]
    requires Asking(t.sys, id) ==> AskFits(t, id)
    ensures ThreadsFit(t)
  {
    forall j | Asking(t.sys, j)
      ensures AskFits(t, j)
    {
      if j != id {
        AskCarries(s, t, j);
      }
    }
  }

  // No thread moved, or only past its read.
  lemma KeepsAllThreads(s: State, t: State)
    requires ThreadsFit(s) && Later(s, t) && t.h.floor == s.h.floor && t.h.got == s.h.got
    requires forall j | Asking(t.sys, j) :: Asking(s.sys, j) && TheAsk(t.sys, j) == TheAsk(s.sys, j)
    ensures ThreadsFit(t)
  {
    forall j | Asking(t.sys, j)
      ensures AskFits(t, j)
    {
      AskCarries(s, t, j);
    }
  }

  lemma KeepsPast(s: State, step: Step)
    requires Coherence(s) && Enabled(s.sys, step)
    ensures var t := Take(s, step); Later(s, t) && FlightsFit(t) && Coalesced(t.sys)
  {
    StepIsLater(s, step);
    KeepsFlights(s, step);
    StaysCoalesced(s.sys, step);
  }

  lemma StepKeepsCoherence(s: State, step: Step)
    requires Coherence(s) && Enabled(s.sys, step) && !step.OutOfBand?
    ensures Coherence(Take(s, step))
  {
    match step
    case SpawnReader(_, _, _) => KeepsSpawnReader(s, step);
    case SpawnWriter(_, _) => KeepsSpawnWriter(s, step);
    case LookUp(_) => KeepsLookUp(s, step);
    case Snapshot(_) => KeepsSnapshot(s, step);
    case Open(_) => KeepsOpen(s, step);
    case Attach(_, _) => KeepsAttach(s, step);
    case Wake(_) => KeepsWake(s, step);
    case Fetch(_, _) => KeepsFetch(s, step);
    case Apply(_, _) => KeepsApply(s, step);
    case Land(_) => KeepsLand(s, step);
    case Acquire(_) => KeepsAcquire(s, step);
    case Choose(_) => KeepsChoose(s, step);
    case Commit(_, _) => KeepsCommit(s, step);
    case Refresh(_, _) => KeepsRefresh(s, step);
    case Erase(_, _) => KeepsErase(s, step);
    case Evict(_) => KeepsEvict(s, step);
    case Drop(_) => KeepsDrop(s, step);
    case Release(_) => KeepsRelease(s, step);
    case Remove(_) => KeepsRemove(s, step);
    case Purge => KeepsPurge(s, step);
    case PushOut(_) => KeepsPushOut(s, step);
    case Tick(_) => KeepsTick(s, step);
  }

  // A new thread holds nothing.
  lemma SpawnKeepsLocked(s: State, t: State, id: nat, th: Thread)
    requires Counters(s) && Locked(s) && Counters(t) && id !in s.sys.threads && !Holding(th)
    requires th.Writer? && !th.w.Closed? ==> Precheck(th.op).None?
    requires t.sys.threads == s.sys.threads[id := th] && t.sys.lock == s.sys.lock && t.sys.inner == s.sys.inner
    requires t.h.hist == s.h.hist && t.h.bumped == s.h.bumped && t.h.listed == s.h.listed
    requires forall j | j in s.h.floor && j != id :: j in t.h.floor && t.h.floor[j] == s.h.floor[j]
    ensures Locked(t)
  {}

  // A thread has been added; nothing else that the cache and the mutex depend on changed.
  predicate Added(s: State, t: State, id: nat) {
    && id !in s.sys.threads && id in t.sys.threads && t.sys.threads == s.sys.threads[id := t.sys.threads[id]]
    && t.sys.inner == s.sys.inner && t.sys.cache == s.sys.cache && t.sys.lock == s.sys.lock
    && t.h.hist == s.h.hist && t.h.bumped == s.h.bumped && t.h.listed == s.h.listed && t.h.marks == s.h.marks
    && (forall j | j in s.h.floor && j != id :: j in t.h.floor && t.h.floor[j] == s.h.floor[j])
    && (forall j | j in s.h.got && j != id :: j in t.h.got && t.h.got[j] == s.h.got[j])
  }

  lemma AddedKeeps(s: State, t: State, id: nat)
    requires Coherence(s) && Added(s, t, id) && Later(s, t) && FlightsFit(t) && Coalesced(t.sys)
    requires var th := t.sys.threads[id];
             !Holding(th) && (th.Writer? && !th.w.Closed? ==> Precheck(th.op).None?)
    requires Asking(t.sys, id) ==> AskFits(t, id)
    ensures Coherence(t)
  {
    KeepsThreads(s, t, id);
    assert Counters(t);
    SpawnKeepsLocked(s, t, id, t.sys.threads[id]);
  }

  lemma SpawnAdds(s: State, step: Step)
    requires Coherence(s) && Enabled(s.sys, step) && (step.SpawnReader? || step.SpawnWriter?)
    ensures Added(s, Take(s, step), step.id)
  {}

  lemma KeepsSpawnReader(s: State, step: Step)
    requires Coherence(s) && Enabled(s.sys, step) && step.SpawnReader?
    ensures Coherence(Take(s, step))
  {
    KeepsPast(s, step);
    SpawnAdds(s, step);
    AddedKeeps(s, Take(s, step), step.id);
  }

  lemma KeepsSpawnWriter(s: State, step: Step)
    requires Coherence(s) && Enabled(s.sys, step) && step.SpawnWriter?
    ensures Coherence(Take(s, step))
  {
    KeepsPast(s, step);
    SpawnAdds(s, step);
    AddedKeeps(s, Take(s, step), step.id);
  }

  // A thread moved on inside its read; nothing else that the cache and the mutex depend on changed.
  predicate Steady(s: State, t: State, id: nat) {
    && Asking(s.sys, id) && Asking(t.sys, id)
    && t.sys.inner == s.sys.inner && t.sys.cache == s.sys.cache && t.sys.lock == s.sys.lock
    && t.h.hist == s.h.hist && t.h.bumped == s.h.bumped && t.h.listed == s.h.listed && t.h.marks == s.h.marks
    && t.h.floor == s.h.floor && (forall j | j in s.h.got && j != id :: j in t.h.got && t.h.got[j] == s.h.got[j])
    && t.sys.threads == s.sys.threads[id := WithPc(s.sys.threads[id], TheAsk(t.sys, id).pc)]
  }

  lemma SteadyLocked(s: State, t: State, id: nat)
    requires Counters(s) && Locked(s) && MarksFit(s) && ResidentsFit(s) && Steady(s, t, id)
    ensures Counters(t) && Locked(t) && MarksFit(t) && ResidentsFit(t)
  {}

  lemma SteadyKeeps(s: State, t: State, id: nat)
    requires Coherence(s) && Steady(s, t, id) && Later(s, t) && FlightsFit(t) && Coalesced(t.sys) && AskFits(t, id)
    ensures Coherence(t)
  {
    KeepsThreads(s, t, id);
    SteadyLocked(s, t, id);
  }

  lemma ReadSparesSystem(s: System, step: Step)
    requires Enabled(s, step) && OfRead(step)
    ensures var t := Next(s, step);
            && Asking(s, step.id) && Asking(t, step.id) && t.inner == s.inner && t.cache == s.cache && t.lock == s.lock
            && t.threads == s.threads[step.id := WithPc(s.threads[step.id], TheAsk(t, step.id).pc)]
  {}

  lemma ReadSparesHistory(s: State, step: Step)
    requires Enabled(s.sys, step) && OfRead(step) && s.h.hist != []
    ensures var h := Note(s, step);
            && h.hist == s.h.hist && h.bumped == s.h.bumped && h.listed == s.h.listed && h.marks == s.h.marks
            && h.floor == s.h.floor && forall j | j in s.h.got && j != step.id :: j in h.got && h.got[j] == s.h.got[j]
  {}

  lemma ReadIsSteady(s: State, step: Step)
    requires Enabled(s.sys, step) && OfRead(step) && s.h.hist != []
    ensures Steady(s, Take(s, step), step.id)
  {
    ReadSparesSystem(s.sys, step);
    ReadSparesHistory(s, step);
  }

  lemma KeepsLookUp(s: State, step: Step)
    requires Coherence(s) && Enabled(s.sys, step) && step.LookUp?
    ensures Coherence(Take(s, step))
  {
    KeepsPast(s, step);
    ReadIsSteady(s, step);
    assert AskFits(s, step.id);
    LookUpFits(s, step);
    SteadyKeeps(s, Take(s, step), step.id);
  }

  lemma LookUpFits(s: State, step: Step)
    requires Counters(s) && ResidentsFit(s) && Enabled(s.sys, step) && step.LookUp? && AskFits(s, step.id)
    ensures AskFits(Take(s, step), step.id)
  {}

  lemma KeepsSnapshot(s: State, step: Step)
    requires Coherence(s) && Enabled(s.sys, step) && step.Snapshot?
    ensures Coherence(Take(s, step))
  {
    KeepsPast(s, step);
    ReadIsSteady(s, step);
    assert AskFits(s, step.id);
    SteadyKeeps(s, Take(s, step), step.id);
  }

  lemma KeepsOpen(s: State, step: Step)
    requires Coherence(s) && Enabled(s.sys, step) && step.Open?
    ensures Coherence(Take(s, step))
  {
    KeepsPast(s, step);
    ReadIsSteady(s, step);
    assert AskFits(s, step.id);
    SteadyKeeps(s, Take(s, step), step.id);
  }

  lemma KeepsAttach(s: State, step: Step)
    requires Coherence(s) && Enabled(s.sys, step) && step.Attach?
    ensures Coherence(Take(s, step))
  {
    KeepsPast(s, step);
    ReadIsSteady(s, step);
    assert AskFits(s, step.id);
    SteadyKeeps(s, Take(s, step), step.id);
  }

  // What a woken reader is given belongs to an inner state no older than its floor.
  lemma WokenFits(s: State, step: Step)
    requires Coherence(s) && Enabled(s.sys, step) && step.Wake?
    ensures AskFits(Take(s, step), step.id)
  {
    var ask := TheAsk(s.sys, step.id);
    assert AskFits(s, step.id) && FlightFits(s, ask.pc.flight);
    assert Resident(s.sys.cache, ask.target).Some? || Fallback(s.sys.cache, ask.target).None?;
  }

  lemma KeepsWake(s: State, step: Step)
    requires Coherence(s) && Enabled(s.sys, step) && step.Wake?
    ensures Coherence(Take(s, step))
  {
    KeepsPast(s, step);
    ReadIsSteady(s, step);
    WokenFits(s, step);
    SteadyKeeps(s, Take(s, step), step.id);
  }

  lemma KeepsFetch(s: State, step: Step)
    requires Coherence(s) && Enabled(s.sys, step) && step.Fetch?
    ensures Coherence(Take(s, step))
  {
    var t := Take(s, step);
    KeepsPast(s, step);
    KeepsAllThreads(s, t);
    assert Counters(t);
    assert Locked(t);
    assert MarksFit(t);
    assert ResidentsFit(t);
  }

  lemma KeepsApply(s: State, step: Step)
    requires Coherence(s) && Enabled(s.sys, step) && step.Apply?
    ensures Coherence(Take(s, step))
  {
    var t := Take(s, step);
    KeepsPast(s, step);
    KeepsAllThreads(s, t);
    assert Counters(t);
    assert Locked(t);
    assert MarksFit(t);
    FillFits(s, step);
  }

  // The fill guarded by the sequence number.
  lemma FillFits(s: State, step: Step)
    requires Counters(s) && MarksFit(s) && ResidentsFit(s) && FlightsFit(s) && Enabled(s.sys, step) && step.Apply?
    requires Counters(Take(s, step))
    ensures ResidentsFit(Take(s, step))
  {
    var t := Take(s, step);
    var f := s.sys.flights[step.flight];
    assert FlightFits(s, step.flight);
    forall g: Target | Resident(t.sys.cache, g).Some?
      ensures var a := Resident(t.sys.cache, g).value.val;
              a == View(t.h.hist[Low(t.h, g)], g) || a == View(t.sys.inner, g)
    {
      if g != f.target {
        assert Resident(t.sys.cache, g) == Resident(s.sys.cache, g);
      }
    }
  }

  lemma KeepsLand(s: State, step: Step)
    requires Coherence(s) && Enabled(s.sys, step) && step.Land?
    ensures Coherence(Take(s, step))
  {
    var t := Take(s, step);
    KeepsPast(s, step);
    KeepsAllThreads(s, t);
    assert Counters(t);
    assert Locked(t);
    assert MarksFit(t);
    assert ResidentsFit(t);
  }

  lemma KeepsAcquire(s: State, step: Step)
    requires Coherence(s) && Enabled(s.sys, step) && step.Acquire?
    ensures Coherence(Take(s, step))
  {
    var t := Take(s, step);
    KeepsPast(s, step);
    KeepsThreads(s, t, step.id);
    assert Counters(t);
    assert Locked(t);
    assert MarksFit(t);
    assert ResidentsFit(t);
  }

  lemma KeepsChoose(s: State, step: Step)
    requires Coherence(s) && Enabled(s.sys, step) && step.Choose?
    ensures Coherence(Take(s, step))
  {
    var t := Take(s, step);
    KeepsPast(s, step);
    KeepsAllThreads(s, t);
    assert Counters(t);
    assert Asking(s.sys, step.id) && AskFits(s, step.id);
    assert Locked(t);
    assert MarksFit(t);
    assert ResidentsFit(t);
  }

  lemma KeepsCommit(s: State, step: Step)
    requires Coherence(s) && Enabled(s.sys, step) && step.Commit?
    ensures Coherence(Take(s, step))
  {
    var t := Take(s, step);
    KeepsPast(s, step);
    KeepsAllThreads(s, t);
    assert Counters(t);
    assert Locked(t);
    assert MarksFit(t);
    assert ResidentsFit(t);
  }

  lemma KeepsRefresh(s: State, step: Step)
    requires Coherence(s) && Enabled(s.sys, step) && step.Refresh?
    ensures Coherence(Take(s, step))
  {
    var t := Take(s, step);
    KeepsPast(s, step);
    KeepsAllThreads(s, t);
    assert Counters(t);
    assert Locked(t);
    assert MarksFit(t);
    assert ResidentsFit(t);
  }

  lemma KeepsErase(s: State, step: Step)
    requires Coherence(s) && Enabled(s.sys, step) && step.Erase?
    ensures Coherence(Take(s, step))
  {
    var t := Take(s, step);
    KeepsPast(s, step);
    KeepsAllThreads(s, t);
    assert Counters(t);
    assert Locked(t);
    assert MarksFit(t);
    assert ResidentsFit(t);
  }

  lemma KeepsEvict(s: State, step: Step)
    requires Coherence(s) && Enabled(s.sys, step) && step.Evict?
    ensures Coherence(Take(s, step))
  {
    var t := Take(s, step);
    KeepsPast(s, step);
    KeepsAllThreads(s, t);
    assert Counters(t);
    assert Locked(t);
    assert MarksFit(t);
    assert ResidentsFit(t);
  }

  lemma KeepsDrop(s: State, step: Step)
    requires Coherence(s) && Enabled(s.sys, step) && step.Drop?
    ensures Coherence(Take(s, step))
  {
    var t := Take(s, step);
    KeepsPast(s, step);
    KeepsAllThreads(s, t);
    assert Counters(t);
    assert Locked(t);
    assert MarksFit(t);
    assert ResidentsFit(t);
  }

  lemma KeepsRelease(s: State, step: Step)
    requires Coherence(s) && Enabled(s.sys, step) && step.Release?
    ensures Coherence(Take(s, step))
  {
    var t := Take(s, step);
    KeepsPast(s, step);
    KeepsAllThreads(s, t);
    assert Counters(t);
    assert Locked(t);
    assert MarksFit(t);
    assert ResidentsFit(t);
  }

  lemma KeepsRemove(s: State, step: Step)
    requires Coherence(s) && Enabled(s.sys, step) && step.Remove?
    ensures Coherence(Take(s, step))
  {
    var t := Take(s, step);
    KeepsPast(s, step);
    KeepsAllThreads(s, t);
    assert Counters(t);
    assert Locked(t);
    assert MarksFit(t);
    assert ResidentsFit(t);
  }

  lemma KeepsPurge(s: State, step: Step)
    requires Coherence(s) && Enabled(s.sys, step) && step.Purge?
    ensures Coherence(Take(s, step))
  {
    var t := Take(s, step);
    KeepsPast(s, step);
    KeepsAllThreads(s, t);
    assert Counters(t);
    assert Locked(t);
    assert MarksFit(t);
    assert ResidentsFit(t);
  }

  lemma KeepsPushOut(s: State, step: Step)
    requires Coherence(s) && Enabled(s.sys, step) && step.PushOut?
    ensures Coherence(Take(s, step))
  {
    var t := Take(s, step);
    KeepsPast(s, step);
    KeepsAllThreads(s, t);
    assert Counters(t);
    assert Locked(t);
    assert MarksFit(t);
    assert ResidentsFit(t);
  }

  lemma KeepsTick(s: State, step: Step)
    requires Coherence(s) && Enabled(s.sys, step) && step.Tick?
    ensures Coherence(Take(s, step))
  {
    var t := Take(s, step);
    KeepsPast(s, step);
    KeepsAllThreads(s, t);
    assert Counters(t);
    assert Locked(t);
    assert MarksFit(t);
    assert ResidentsFit(t);
  }

  // --- the log ---

  lemma LogStays(s: State, t: State)
    requires LogFits(s) && t.h.log == s.h.log && t.h.owners == s.h.owners && t.h.entry == s.h.entry
    requires forall id | id in s.h.born && id in s.sys.threads :: id in t.h.born && t.h.born[id] == s.h.born[id]
    requires forall id | id in s.sys.threads :: SameStanding(s.sys, t.sys, id)
    requires forall id | Writing(t.sys, id) && id !in s.sys.threads ::
               TookEffect(t.sys.threads[id].w).None? && id in t.h.born && t.h.born[id] == |t.h.log|
    ensures LogFits(t)
  {
    forall id | id in t.h.entry
      ensures Writing(t.sys, id) && SameStanding(s.sys, t.sys, id)
    {
      assert Writing(s.sys, id);
    }
    forall id | Writing(t.sys, id)
      ensures id in t.h.born && t.h.born[id] <= |t.h.log|
    {
      if id in s.sys.threads {
        assert SameStanding(s.sys, t.sys, id) && Writing(s.sys, id);
      }
    }
  }

  // Thread id's operation takes effect now.
  lemma LogGrows(s: State, t: State, id: nat, op: Op, out: Outcome)
    requires LogFits(s) && id !in s.h.entry && id in t.sys.threads && t.sys.threads[id].Writer?
    requires t.h.log == s.h.log + [Event(op, out)] && t.h.owners == s.h.owners + [id]
    requires t.h.entry == s.h.entry[id := |s.h.log|]
    requires t.sys.threads == s.sys.threads[id := t.sys.threads[id]]
    requires t.sys.threads[id].op == op && TookEffect(t.sys.threads[id].w) == Some(out)
    requires id in t.h.born && t.h.born[id] <= |s.h.log|
    requires forall j | j in s.h.born && j != id :: j in t.h.born && t.h.born[j] == s.h.born[j]
    ensures LogFits(t)
  {
    forall j | j in t.h.entry && j != id
      ensures Writing(t.sys, j) && t.h.entry[j] < |s.h.log|
    {
      assert Writing(s.sys, j);
    }
    forall j | Writing(t.sys, j) && j != id
      ensures j in t.h.born && t.h.born[j] <= |t.h.log|
      ensures TookEffect(t.sys.threads[j].w).Some? ==> j in t.h.entry
    {
      assert Writing(s.sys, j);
    }
  }

  lemma RefinementGrows(s: State, t: State, op: Op, out: Outcome)
    requires s.h.hist != [] && t.h.hist != [] && t.h.hist[0] == s.h.hist[0] && Refines(s)
    requires t.h.log == s.h.log + [Event(op, out)]
    requires (t.sys.inner, out) == Exec(s.sys.inner, op)
    ensures Refines(t)
  {
    assert Front(t.h.log) == s.h.log;
  }

  // The step is the point where a write takes effect.
  predicate TakesEffect(s: System, step: Step)
    requires Enabled(s, step)
  {
    match step
    case SpawnWriter(_, op) => Precheck(op).Some?
    case Choose(id) => var w := Chosen(s.threads[id].op, s.threads[id].w.pc.reply); w.Leaving? && w.result.Answered?
    case Commit(_, outage) => outage.None?
    case Erase(_, outage) => outage.None?
    case _ => false
  }

  // A step that is no operation's effect leaves the log, the inner contents and every writer's
  // standing alone.
  lemma QuietStep(s: State, step: Step)
    requires Counters(s) && Enabled(s.sys, step) && !TakesEffect(s.sys, step)
    ensures var t := Take(s, step);
            && t.h.log == s.h.log && t.h.owners == s.h.owners && t.h.entry == s.h.entry && t.h.hist == s.h.hist
            && (!step.OutOfBand? ==> t.sys.inner == s.sys.inner)
  {
    if !step.OutOfBand? {
      QuietInner(s.sys, step);
    }
  }

  lemma QuietInner(s: System, step: Step)
    requires Enabled(s, step) && !TakesEffect(s, step) && !step.OutOfBand?
    ensures Next(s, step).inner == s.inner
  {}

  // A writer's operation, and whether it has taken effect, do not change in a quiet step.
  predicate SameStanding(s: System, t: System, id: nat)
    requires id in s.threads
  {
    && id in t.threads && t.threads[id].Writer? == s.threads[id].Writer?
    && (t.threads[id].Writer? ==>
          && t.threads[id].op == s.threads[id].op
          && TookEffect(t.threads[id].w) == TookEffect(s.threads[id].w))
  }

  lemma QuietStanding(s: System, step: Step, id: nat)
    requires Enabled(s, step) && !TakesEffect(s, step) && id in s.threads
    ensures SameStanding(s, Next(s, step), id)
  {
    if OfRead(step) {
      ReadStanding(s, step, id);
    } else if OfWrite(step) {
      WriteStanding(s, step, id);
    } else {
      IdleStanding(s, step, id);
    }
  }

  lemma ReadStanding(s: System, step: Step, id: nat)
    requires Enabled(s, step) && OfRead(step) && id in s.threads
    ensures SameStanding(s, Next(s, step), id)
  {}

  lemma WriteStanding(s: System, step: Step, id: nat)
    requires Enabled(s, step) && !TakesEffect(s, step) && OfWrite(step) && id in s.threads
    ensures SameStanding(s, Next(s, step), id)
  {}

  lemma IdleStanding(s: System, step: Step, id: nat)
    requires Enabled(s, step) && !OfWrite(step) && !OfRead(step) && id in s.threads
    ensures SameStanding(s, Next(s, step), id)
  {}

  lemma QuietBirths(s: State, step: Step)
    requires Counters(s) && Enabled(s.sys, step) && !TakesEffect(s.sys, step)
    ensures var t := Take(s, step);
            && (forall id | id in s.h.born && id in s.sys.threads :: id in t.h.born && t.h.born[id] == s.h.born[id])
            && (forall id | Writing(t.sys, id) && id !in s.sys.threads ::
                  TookEffect(t.sys.threads[id].w).None? && id in t.h.born && t.h.born[id] == |t.h.log|)
  {}

  lemma EffectStep(s: State, step: Step)
    requires Coherence(s) && Enabled(s.sys, step) && TakesEffect(s.sys, step)
    ensures var t := Take(s, step);
            && step.id in t.sys.threads && t.sys.threads[step.id].Writer?
            && (step.id in s.sys.threads ==> s.sys.threads[step.id].Writer? && TookEffect(s.sys.threads[step.id].w).None?
                                             && t.sys.threads[step.id].op == s.sys.threads[step.id].op)
            && t.sys.threads == s.sys.threads[step.id := t.sys.threads[step.id]]
            && TookEffect(t.sys.threads[step.id].w).Some?
            && t.h.born == (if step.SpawnWriter? then s.h.born[step.id := |s.h.log|] else s.h.born)
            && var out := TookEffect(t.sys.threads[step.id].w).value;
            && t.h == Logged(t.h.(log := s.h.log, owners := s.h.owners, entry := s.h.entry), step.id,
                             t.sys.threads[step.id].op, out)
            && t.h.hist != [] && t.h.hist[0] == s.h.hist[0]
            && (t.sys.inner, out) == Exec(s.sys.inner, t.sys.threads[step.id].op)
  {
    if step.Choose? {
      assert Asking(s.sys, step.id) && AskFits(s, step.id);
    }
  }

  lemma StepKeepsLog(s: State, step: Step)
    requires Coherence(s) && LogFits(s) && Enabled(s.sys, step)
    ensures LogFits(Take(s, step))
  {
    var t := Take(s, step);
    if TakesEffect(s.sys, step) {
      EffectStep(s, step);
      var th := t.sys.threads[step.id];
      assert step.id in s.h.entry ==> Writing(s.sys, step.id);
      assert step.id in s.sys.threads ==> Writing(s.sys, step.id);
      LogGrows(s, t, step.id, th.op, TookEffect(th.w).value);
    } else {
      QuietStep(s, step);
      QuietBirths(s, step);
      forall id | id in s.sys.threads
        ensures SameStanding(s.sys, t.sys, id)
      {
        QuietStanding(s.sys, step, id);
      }
      LogStays(s, t);
    }
  }

  lemma {:induction false} StepKeepsRefinement(s: State, step: Step)
    requires Coherence(s) && Refines(s) && Enabled(s.sys, step) && !step.OutOfBand?
    ensures Take(s, step).h.hist != [] && Refines(Take(s, step))
  {
    if TakesEffect(s.sys, step) {
      EffectStep(s, step);
      var t := Take(s, step);
      var th := t.sys.threads[step.id];
      RefinementGrows(s, t, th.op, TookEffect(th.w).value);
    } else {
      QuietStep(s, step);
    }
  }

  lemma StepKeeps(s: State, step: Step)
    requires Inv(s) && Enabled(s.sys, step) && !step.OutOfBand?
    ensures Inv(Take(s, step))
  {
    StepKeepsCoherence(s, step);
    StepKeepsLog(s, step);
    StepKeepsRefinement(s, step);
  }
}
