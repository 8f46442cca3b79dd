/** Where an answer handed to a reader came from, on every run, including runs in which others edit the
    vault behind the cache's back: a confirmed not-found is never undone by something older. */
module Provenance {
  import opened Wrappers
  import opened Records
  import opened ReadCache
  import opened Versions
  import opened Protocol

  // An answer came with a Save, or with a fetch.
  datatype Supply = BySave(save: nat) | ByFetch(flight: nat)

  // The cache step of a Save, and the sequence number it moved the cache on to.
  datatype SaveStep = SaveStep(time: nat, name: string, record: Record, seqno: nat)

  // A not-found that was applied while its sequence number was still current.
  datatype Denial = Denial(time: nat, name: string, seqno: nat)

  datatype Trace = Trace(
    time: nat,                     // steps so far
    begun: seq<nat>,               // when each flight was opened
    saves: seq<SaveStep>,          // the cache steps of all Saves
    denials: seq<Denial>,
    source: map<string, Supply>,   // what supplied the resident record or negative
    seen: map<nat, nat>,           // how many denials precede each read
    saw: map<nat, nat>,            // how many Saves' cache steps do
    given: map<nat, Supply>,       // what supplied the answer a read returned
    via: map<nat, nat>)            // the flight a read was answered by

  datatype Traced = Traced(sys: System, tr: Trace)

  function FlightOf(s: System, id: nat): nat
    requires Enabled(s, Wake(id))
  {
    TheAsk(s, id).pc.flight
  }

  // The step takes up a read: a client's, or a writer's forced load, which begins with the mutex.
  predicate Takes(step: Step, id: nat) {
    (step.SpawnReader? && step.id == id) || (step.Acquire? && step.id == id)
  }

  function Counted(was: map<nat, nat>, step: Step, count: nat): map<nat, nat> {
    if step.SpawnReader? || step.Acquire? then was[step.id := count] else was
  }

  // The step is a fill, or a denial, under a still-current sequence number.
  predicate Settles(s: System, step: Step)
    requires Enabled(s, step)
  {
    && step.Apply? && s.flights[step.flight].target.RecordOf? && s.flights[step.flight].seqno == s.cache.seqno
    && s.flights[step.flight].phase.reply.Got?
  }

  function SavesThen(s: Traced, step: Step): seq<SaveStep>
    requires Enabled(s.sys, step)
  {
    if !step.Refresh? then s.tr.saves
    else
      var Writer(op, Refreshing(r, _)) := s.sys.threads[step.id];
      s.tr.saves + [SaveStep(s.tr.time, op.name, r, s.sys.cache.seqno + 1)]
  }

  function DenialsThen(s: Traced, step: Step): seq<Denial>
    requires Enabled(s.sys, step)
  {
    if Settles(s.sys, step) && s.sys.flights[step.flight].phase.reply.answer.Missing? then
      var f := s.sys.flights[step.flight];
      s.tr.denials + [Denial(s.tr.time, f.target.name, f.seqno)]
    else s.tr.denials
  }

  function SourceThen(s: Traced, step: Step): map<string, Supply>
    requires Enabled(s.sys, step)
  {
    if Settles(s.sys, step) then s.tr.source[s.sys.flights[step.flight].target.name := ByFetch(step.flight)]
    else if step.Refresh? then s.tr.source[s.sys.threads[step.id].op.name := BySave(|s.tr.saves|)]
    else s.tr.source
  }

  // A hit and an outage fallback pass on what is resident.
  function GivenThen(s: Traced, step: Step): map<nat, Supply>
    requires Enabled(s.sys, step)
  {
    if step.Wake? && s.sys.flights[FlightOf(s.sys, step.id)].phase.reply.Got? then
      s.tr.given[step.id := ByFetch(FlightOf(s.sys, step.id))]
    else if step.LookUp? || step.Wake? then
      var t := TheAsk(s.sys, step.id).target;
      if t.RecordOf? && t.name in s.tr.source then s.tr.given[step.id := s.tr.source[t.name]] else s.tr.given
    else s.tr.given
  }

  function ViaThen(s: Traced, step: Step): map<nat, nat>
    requires Enabled(s.sys, step)
  {
    if step.Wake? then s.tr.via[step.id := FlightOf(s.sys, step.id)] else s.tr.via
  }

  function Note(s: Traced, step: Step): Trace
    requires Enabled(s.sys, step)
  {
    Trace(s.tr.time + 1, if step.Open? then s.tr.begun + [s.tr.time] else s.tr.begun, SavesThen(s, step),
          DenialsThen(s, step), SourceThen(s, step), Counted(s.tr.seen, step, |s.tr.denials|),
          Counted(s.tr.saw, step, |s.tr.saves|), GivenThen(s, step), ViaThen(s, step))
  }

  function Take(s: Traced, step: Step): Traced
    requires Enabled(s.sys, step)
  {
    Traced(Next(s.sys, step), Note(s, step))
  }

  function Init(m: Secrets, ttl: int, now: int): Traced {
    Traced(Start(m, ttl, now), Trace(0, [], [], [], map[], map[], map[], map[], map[]))
  }

  // The supply really is a Save of that record to n, or a fetch of n with that answer.
  predicate Genuine(s: Traced, n: string, a: Answer, supply: Supply) {
    match supply
    case BySave(j) => j < |s.tr.saves| && s.tr.saves[j].name == n && a == Found(s.tr.saves[j].record)
    case ByFetch(i) =>
      && i < |s.sys.flights| && i < |s.tr.begun| && s.sys.flights[i].target == RecordOf(n)
      && !s.sys.flights[i].phase.Opened? && s.sys.flights[i].phase.reply == Got(a)
  }

  // The Save's cache step, or the fetch's beginning, came after the denial.
  predicate After(s: Traced, supply: Supply, d: Denial) {
    match supply
    case BySave(j) => j < |s.tr.saves| && d.time < s.tr.saves[j].time
    case ByFetch(i) => i < |s.tr.begun| && d.time < s.tr.begun[i]
  }

  // A flight that cannot bring back what d denied.
  predicate Harmless(s: Traced, i: nat, d: Denial)
    requires i < |s.sys.flights|
  {
    || (i < |s.tr.begun| && d.time < s.tr.begun[i])
    || (!s.sys.flights[i].phase.Opened? && !(s.sys.flights[i].phase.reply.Got? && s.sys.flights[i].phase.reply.answer.Found?))
  }

  predicate FlightFits(s: Traced, i: nat)
    requires i < |s.sys.flights| == |s.tr.begun|
  {
    var f := s.sys.flights[i];
    && s.tr.begun[i] < s.tr.time && f.seqno <= s.sys.cache.seqno
    && (!f.phase.Opened? && f.phase.reply.Got? ==> Matches(f.target, f.phase.reply.answer))
  }

  predicate DenialsFit(s: Traced) {
    forall k | 0 <= k < |s.tr.denials| :: s.tr.denials[k].time < s.tr.time && s.tr.denials[k].seqno <= s.sys.cache.seqno
  }

  predicate JoinsFit(s: System) {
    forall id | id in s.threads ::
      Asking(s, id) && TheAsk(s, id).pc.Join? ==> TheAsk(s, id).pc.seqno <= s.cache.seqno
  }

  predicate ClockFits(s: Traced) {
    && |s.tr.begun| == |s.sys.flights|
    && (forall i | 0 <= i < |s.sys.flights| :: FlightFits(s, i))
    && DenialsFit(s) && JoinsFit(s.sys)
  }

  // The resident record under n, or the negative.
  function Kept(s: System, n: string): Answer
    requires n in s.cache.recs
  {
    Resident(s.cache, RecordOf(n)).value.val
  }

  predicate ResidentNew(s: Traced, n: string)
    requires n in s.sys.cache.recs
  {
    && n in s.tr.source && Genuine(s, n, Kept(s.sys, n), s.tr.source[n])
    && (Kept(s.sys, n).Found? ==>
          forall k | 0 <= k < |s.tr.denials| :: s.tr.denials[k].name == n ==> After(s, s.tr.source[n], s.tr.denials[k]))
  }

  // Every resident has its supply, and every resident record came after every denial of its name.
  predicate ResidentsNew(s: Traced) {
    forall n | n in s.sys.cache.recs :: ResidentNew(s, n)
  }

  predicate FlightNew(s: Traced, i: nat, d: Denial)
    requires i < |s.sys.flights|
  {
    var f := s.sys.flights[i];
    f.target == RecordOf(d.name) && d.seqno <= f.seqno && !f.phase.Landed? ==> Harmless(s, i, d)
  }

  // A fetch still under way under a denial's sequence number, or a later one, began after it.
  predicate FlightsNew(s: Traced) {
    forall i, k | 0 <= i < |s.sys.flights| && 0 <= k < |s.tr.denials| :: FlightNew(s, i, s.tr.denials[k])
  }

  // A read in progress, a writer's forced load included.
  predicate ReaderNew(s: Traced, id: nat)
    requires Asking(s.sys, id)
  {
    var th := TheAsk(s.sys, id);
    && id in s.tr.seen && s.tr.seen[id] <= |s.tr.denials|
    && (th.pc.Wait? ==> th.pc.flight < |s.sys.flights| && s.sys.flights[th.pc.flight].target == th.target)
    && (th.pc.Ended? && th.force ==>
          id in s.tr.via && s.tr.via[id] < |s.sys.flights| && s.sys.flights[s.tr.via[id]].phase == Landed(th.pc.reply)
          && s.sys.flights[s.tr.via[id]].target == th.target)
    && (th.pc.Check? ==> !th.force)
    && (th.target.RecordOf? && th.pc.Ended? && th.pc.reply.Got? ==>
          id in s.tr.given && Genuine(s, th.target.name, th.pc.reply.answer, s.tr.given[id]))
    && (forall k | 0 <= k < s.tr.seen[id] :: th.target == RecordOf(s.tr.denials[k].name) ==>
          match th.pc
          case Join(q) => s.tr.denials[k].seqno <= q
          case Wait(i) => Harmless(s, i, s.tr.denials[k])
          case Ended(reply) => reply.Got? && reply.answer.Found? ==> After(s, s.tr.given[id], s.tr.denials[k])
          case _ => true)
  }

  predicate ReadersNew(s: Traced) {
    forall id | id in s.sys.threads :: Asking(s.sys, id) ==> ReaderNew(s, id)
  }

  predicate Inv(s: Traced) {
    ClockFits(s) && Coalesced(s.sys) && ResidentsNew(s) && FlightsNew(s) && ReadersNew(s)
  }

  // --- every step, out-of-band edits included, keeps the invariant ---

  predicate Later(s: Traced, t: Traced) {
    && s.tr.begun <= t.tr.begun && s.tr.saves <= t.tr.saves && s.tr.denials <= t.tr.denials
    && |s.sys.flights| <= |t.sys.flights|
    && forall i | 0 <= i < |s.sys.flights| ::
         var f, g := s.sys.flights[i], t.sys.flights[i];
         && f.seqno == g.seqno && f.target == g.target
         && (!f.phase.Opened? ==> !g.phase.Opened? && f.phase.reply == g.phase.reply)
         && (f.phase.Landed? ==> f.phase == g.phase)
  }

  lemma TraceGrows(s: Traced, step: Step)
    requires Enabled(s.sys, step)
    ensures var tr := Note(s, step);
            s.tr.begun <= tr.begun && s.tr.saves <= tr.saves && s.tr.denials <= tr.denials
  {}

  lemma StepIsLater(s: Traced, step: Step)
    requires Enabled(s.sys, step)
    ensures Later(s, Take(s, step))
  {
    TraceGrows(s, step);
  }

  lemma KeepsJoins(s: System, step: Step)
    requires Enabled(s, step) && JoinsFit(s)
    ensures JoinsFit(Next(s, step))
  {
    SequenceRises(s, step);
    forall id | id in Next(s, step).threads && Asking(Next(s, step), id) && TheAsk(Next(s, step), id).pc.Join?
      ensures TheAsk(Next(s, step), id).pc.seqno <= Next(s, step).cache.seqno
    {
      if !MovesRead(s, step, id) {
        OtherReaderStays(s, step, id);
      }
    }
  }

  lemma SequenceRises(s: System, step: Step)
    requires Enabled(s, step)
    ensures s.cache.seqno <= Next(s, step).cache.seqno
  {}

  // What a step may do to the flights.
  lemma FlightMoves(s: System, step: Step, i: nat)
    requires Enabled(s, step) && i < |Next(s, step).flights|
    ensures var g := Next(s, step).flights[i];
            if i < |s.flights| then
              var f := s.flights[i];
              && g.seqno == f.seqno && g.target == f.target
              && (g.phase == f.phase
                  || (f.phase.Opened? && step.Fetch? && g.phase == Fetched(Pending(step.outage, s.inner, f.target)))
                  || (!f.phase.Opened? && !g.phase.Opened? && g.phase.reply == f.phase.reply))
            else
              && step.Open? && i == |s.flights| && g == Flight(TheAsk(s, step.id).pc.seqno, TheAsk(s, step.id).target, Opened)
  {}

  lemma FlightsOnlyOpen(s: System, step: Step)
    requires Enabled(s, step)
    ensures |Next(s, step).flights| == |s.flights| + if step.Open? then 1 else 0
  {}

  lemma FlightStaysTimed(s: Traced, step: Step, i: nat)
    requires Enabled(s.sys, step) && ClockFits(s) && i < |Next(s.sys, step).flights|
    ensures |Note(s, step).begun| == |Next(s.sys, step).flights| && FlightFits(Take(s, step), i)
  {
    assert i < |s.sys.flights| ==> FlightFits(s, i);
    SequenceRises(s.sys, step);
    FlightMoves(s.sys, step, i);
    FlightsOnlyOpen(s.sys, step);
  }

  lemma KeepsDenials(s: Traced, step: Step)
    requires Enabled(s.sys, step) && ClockFits(s)
    ensures DenialsFit(Take(s, step))
  {
    SequenceRises(s.sys, step);
    var ds, ds' := s.tr.denials, Note(s, step).denials;
    assert ds' == ds || (step.Apply? && |ds'| == |ds| + 1 && ds <= ds');
    assert step.Apply? ==> FlightFits(s, step.flight);
  }

  lemma KeepsClock(s: Traced, step: Step)
    requires Enabled(s.sys, step) && ClockFits(s)
    ensures ClockFits(Take(s, step))
  {
    var t := Take(s, step);
    KeepsJoins(s.sys, step);
    KeepsDenials(s, step);
    assert |t.tr.begun| == |t.sys.flights|;
    forall i | 0 <= i < |t.sys.flights|
      ensures FlightFits(t, i)
    {
      FlightStaysTimed(s, step, i);
    }
  }

  lemma ResidentCarries(s: Traced, t: Traced, n: string)
    requires Later(s, t) && t.tr.denials == s.tr.denials
    requires n in s.sys.cache.recs && ResidentNew(s, n)
    requires n in t.sys.cache.recs && t.sys.cache.recs[n].val == s.sys.cache.recs[n].val
    requires n in t.tr.source && t.tr.source[n] == s.tr.source[n]
    ensures ResidentNew(t, n)
  {}

  lemma KeepsResidents(s: Traced, step: Step)
    requires Enabled(s.sys, step) && ClockFits(s) && ResidentsNew(s) && !step.Apply? && !step.Refresh?
    ensures ResidentsNew(Take(s, step))
  {
    var t := Take(s, step);
    StepIsLater(s, step);
    forall n | n in t.sys.cache.recs
      ensures ResidentNew(t, n)
    {
      ResidentCarries(s, t, n);
    }
  }

  lemma RefreshKeepsResidents(s: Traced, step: Step)
    requires Enabled(s.sys, step) && ClockFits(s) && ResidentsNew(s) && step.Refresh?
    ensures ResidentsNew(Take(s, step))
  {
    var t := Take(s, step);
    StepIsLater(s, step);
    forall n | n in t.sys.cache.recs
      ensures ResidentNew(t, n)
    {
      if n != s.sys.threads[step.id].op.name {
        ResidentCarries(s, t, n);
      }
    }
  }

  // A fetch that fills the cache began after every denial of its name.
  lemma FillIsNew(s: Traced, step: Step)
    requires Enabled(s.sys, step) && ClockFits(s) && FlightsNew(s) && step.Apply?
    requires var f := s.sys.flights[step.flight];
             f.target.RecordOf? && f.seqno == s.sys.cache.seqno && f.phase.reply.Got? && f.phase.reply.answer.Found?
    ensures var n, t := s.sys.flights[step.flight].target.name, Take(s, step);
            n in t.sys.cache.recs && ResidentNew(t, n)
  {
    var n, t := s.sys.flights[step.flight].target.name, Take(s, step);
    forall k | 0 <= k < |t.tr.denials| && t.tr.denials[k].name == n
      ensures After(t, t.tr.source[n], t.tr.denials[k])
    {
      assert FlightNew(s, step.flight, s.tr.denials[k]);
    }
  }

  // A denial leaves a negative, supplied by its own fetch.
  lemma DenialIsSupplied(s: Traced, step: Step)
    requires Enabled(s.sys, step) && ClockFits(s) && Settles(s.sys, step)
    requires s.sys.flights[step.flight].phase.reply.answer.Missing?
    ensures var n, t := s.sys.flights[step.flight].target.name, Take(s, step);
            n in t.sys.cache.recs ==> ResidentNew(t, n)
  {}

  // A fill or denial touches its own name only.
  lemma ApplySparesResident(s: Traced, step: Step, n: string)
    requires Enabled(s.sys, step) && ClockFits(s) && step.Apply? && n in Next(s.sys, step).cache.recs
    requires !(s.sys.flights[step.flight].target == RecordOf(n) && Settles(s.sys, step))
    requires n in s.sys.cache.recs ==> ResidentNew(s, n)
    ensures ResidentNew(Take(s, step), n)
  {
    assert FlightFits(s, step.flight);
    StepIsLater(s, step);
  }

  lemma ApplyKeepsResidents(s: Traced, step: Step)
    requires Enabled(s.sys, step) && ClockFits(s) && ResidentsNew(s) && FlightsNew(s) && step.Apply?
    ensures ResidentsNew(Take(s, step))
  {
    var t := Take(s, step);
    var f := s.sys.flights[step.flight];
    assert FlightFits(s, step.flight);
    forall n | n in t.sys.cache.recs
      ensures ResidentNew(t, n)
    {
      if !(f.target == RecordOf(n) && Settles(s.sys, step)) {
        ApplySparesResident(s, step, n);
      } else if f.phase.reply.answer.Found? {
        FillIsNew(s, step);
      } else {
        DenialIsSupplied(s, step);
      }
    }
  }

  // A new denial: as fetches are coalesced, the only flight still under way under its key is its own.
  lemma DeniedFlight(s: Traced, step: Step, i: nat)
    requires Enabled(s.sys, step) && ClockFits(s) && Coalesced(s.sys) && |Note(s, step).denials| > |s.tr.denials|
    requires i < |s.sys.flights|
    ensures FlightNew(Take(s, step), i, Note(s, step).denials[|s.tr.denials|])
  {
    assert step.Apply? && FlightFits(s, i);
  }

  lemma OldDenial(s: Traced, step: Step, i: nat, k: nat)
    requires Enabled(s.sys, step) && ClockFits(s) && FlightsNew(s)
    requires i < |Next(s.sys, step).flights| && k < |s.tr.denials| && s.tr.denials <= Note(s, step).denials
    ensures FlightNew(Take(s, step), i, Note(s, step).denials[k])
  {
    StepIsLater(s, step);
    assert i < |s.sys.flights| ==> FlightNew(s, i, s.tr.denials[k]);
  }

  lemma OneMore(s: Traced, step: Step)
    requires Enabled(s.sys, step)
    ensures |Note(s, step).denials| <= |s.tr.denials| + 1
    ensures |Note(s, step).denials| > |s.tr.denials| ==> |Next(s.sys, step).flights| == |s.sys.flights|
  {}

  lemma FlightKept(s: Traced, step: Step, i: nat, k: nat)
    requires Enabled(s.sys, step) && ClockFits(s) && Coalesced(s.sys) && FlightsNew(s)
    requires i < |Next(s.sys, step).flights| && k < |Note(s, step).denials|
    ensures FlightNew(Take(s, step), i, Note(s, step).denials[k])
  {
    TraceGrows(s, step);
    OneMore(s, step);
    if k < |s.tr.denials| {
      OldDenial(s, step, i, k);
    } else {
      DeniedFlight(s, step, i);
    }
  }

  lemma KeepsFlights(s: Traced, step: Step)
    requires Enabled(s.sys, step) && ClockFits(s) && Coalesced(s.sys) && FlightsNew(s)
    ensures FlightsNew(Take(s, step))
  {
    var t := Take(s, step);
    forall i, k | 0 <= i < |t.sys.flights| && 0 <= k < |t.tr.denials|
      ensures FlightNew(t, i, t.tr.denials[k])
    {
      FlightKept(s, step, i, k);
    }
  }

  lemma ReaderCarries(s: Traced, t: Traced, id: nat)
    requires Later(s, t) && Asking(s.sys, id) && ReaderNew(s, id)
    requires Asking(t.sys, id) && TheAsk(t.sys, id) == TheAsk(s.sys, id)
    requires id in t.tr.seen && t.tr.seen[id] == s.tr.seen[id]
    requires id in s.tr.given ==> id in t.tr.given && t.tr.given[id] == s.tr.given[id]
    requires id in s.tr.via ==> id in t.tr.via && t.tr.via[id] == s.tr.via[id]
    ensures ReaderNew(t, id)
  {}

  lemma SpawnReaderKeepsReader(s: Traced, step: Step)
    requires Inv(s) && Enabled(s.sys, step) && step.SpawnReader?
    ensures ReaderNew(Take(s, step), step.id)
  {}

  // A writer's load begins when it gets the mutex.
  lemma AcquireKeepsReader(s: Traced, step: Step)
    requires Inv(s) && Enabled(s.sys, step) && step.Acquire? && Asking(Next(s.sys, step), step.id)
    ensures ReaderNew(Take(s, step), step.id)
  {}

  lemma LookUpKeepsReader(s: Traced, step: Step)
    requires Inv(s) && Enabled(s.sys, step) && step.LookUp?
    ensures ReaderNew(Take(s, step), step.id)
  {
    assert ReaderNew(s, step.id);
    var t := TheAsk(s.sys, step.id).target;
    if t.RecordOf? && t.name in s.sys.cache.recs {
      assert ResidentNew(s, t.name);
    }
  }

  lemma SnapshotKeepsReader(s: Traced, step: Step)
    requires Inv(s) && Enabled(s.sys, step) && step.Snapshot?
    ensures ReaderNew(Take(s, step), step.id)
  {
    assert ReaderNew(s, step.id);
  }

  lemma OpenKeepsReader(s: Traced, step: Step)
    requires Inv(s) && Enabled(s.sys, step) && step.Open?
    ensures ReaderNew(Take(s, step), step.id)
  {
    assert ReaderNew(s, step.id);
  }

  lemma AttachKeepsReader(s: Traced, step: Step)
    requires Inv(s) && Enabled(s.sys, step) && step.Attach?
    ensures ReaderNew(Take(s, step), step.id)
  {
    var t := Take(s, step);
    var th := TheAsk(s.sys, step.id);
    assert ReaderNew(s, step.id);
    forall k | 0 <= k < s.tr.seen[step.id] && th.target == RecordOf(s.tr.denials[k].name)
      ensures Harmless(t, step.flight, t.tr.denials[k])
    {
      assert FlightNew(s, step.flight, s.tr.denials[k]);
    }
  }

  // A woken reader's flight told the truth about where its record came from.
  lemma WokenByFlight(s: Traced, step: Step)
    requires Inv(s) && Enabled(s.sys, step) && step.Wake?
    requires s.sys.flights[FlightOf(s.sys, step.id)].phase.reply.Got?
    ensures ReaderNew(Take(s, step), step.id)
  {
    assert ReaderNew(s, step.id);
  }

  // An outage: the reader may fall back on what is resident.
  lemma WokenByOutage(s: Traced, step: Step)
    requires Inv(s) && Enabled(s.sys, step) && step.Wake?
    requires s.sys.flights[FlightOf(s.sys, step.id)].phase.reply.Failed?
    ensures ReaderNew(Take(s, step), step.id)
  {
    assert ReaderNew(s, step.id);
    var t := TheAsk(s.sys, step.id).target;
    if t.RecordOf? && t.name in s.sys.cache.recs {
      assert ResidentNew(s, t.name);
    }
  }

  // The step moves the read of thread id.
  predicate MovesRead(s: System, step: Step, id: nat) {
    match step
    case SpawnReader(i, _, _) => i == id
    case Acquire(i) => i == id
    case LookUp(i) => i == id
    case Snapshot(i) => i == id
    case Open(i) => i == id
    case Attach(i, _) => i == id
    case Wake(i) => i == id
    case _ => false
  }

  lemma ReaderMoved(s: Traced, step: Step, id: nat)
    requires Inv(s) && Enabled(s.sys, step) && MovesRead(s.sys, step, id) && Asking(Next(s.sys, step), id)
    ensures ReaderNew(Take(s, step), id)
  {
    match step
    case SpawnReader(_, _, _) => SpawnReaderKeepsReader(s, step);
    case Acquire(_) => AcquireKeepsReader(s, step);
    case LookUp(_) => LookUpKeepsReader(s, step);
    case Snapshot(_) => SnapshotKeepsReader(s, step);
    case Open(_) => OpenKeepsReader(s, step);
    case Attach(_, _) => AttachKeepsReader(s, step);
    case Wake(_) =>
      if s.sys.flights[FlightOf(s.sys, step.id)].phase.reply.Got? {
        WokenByFlight(s, step);
      } else {
        WokenByOutage(s, step);
      }
  }

  lemma WriteSparesReaders(s: System, step: Step, id: nat)
    requires Enabled(s, step) && Asking(Next(s, step), id) && OfWrite(step)
    ensures Asking(s, id) && TheAsk(s, id) == TheAsk(Next(s, step), id)
  {}

  lemma OtherReaderStays(s: System, step: Step, id: nat)
    requires Enabled(s, step) && Asking(Next(s, step), id) && !MovesRead(s, step, id)
    ensures Asking(s, id) && TheAsk(s, id) == TheAsk(Next(s, step), id)
  {
    if OfWrite(step) {
      WriteSparesReaders(s, step, id);
    }
  }

  lemma OtherTraceStays(s: Traced, step: Step, id: nat)
    requires Enabled(s.sys, step) && !MovesRead(s.sys, step, id)
    ensures var tr := Note(s, step);
            && (id in s.tr.given ==> id in tr.given && tr.given[id] == s.tr.given[id])
            && (id in s.tr.via ==> id in tr.via && tr.via[id] == s.tr.via[id])
  {}

  lemma KeepsReaders(s: Traced, step: Step)
    requires Inv(s) && Enabled(s.sys, step)
    ensures ReadersNew(Take(s, step))
  {
    var t := Take(s, step);
    StepIsLater(s, step);
    forall id | id in t.sys.threads && Asking(t.sys, id)
      ensures ReaderNew(t, id)
    {
      if MovesRead(s.sys, step, id) {
        ReaderMoved(s, step, id);
      } else {
        OtherReaderStays(s.sys, step, id);
        OtherTraceStays(s, step, id);
        SeenStays(s, step, id);
        ReaderCarries(s, t, id);
      }
    }
  }

  lemma StepKeeps(s: Traced, step: Step)
    requires Inv(s) && Enabled(s.sys, step)
    ensures Inv(Take(s, step))
  {
    KeepsClock(s, step);
    StaysCoalesced(s.sys, step);
    KeepsFlights(s, step);
    KeepsReaders(s, step);
    if step.Apply? {
      ApplyKeepsResidents(s, step);
    } else if step.Refresh? {
      RefreshKeepsResidents(s, step);
    } else {
      KeepsResidents(s, step);
    }
  }

  // --- whole runs, with edits behind the cache's back ---

  predicate Possible(s: Traced, steps: seq<Step>)
    decreases |steps|
  {
    steps == [] || (Enabled(s.sys, steps[0]) && Possible(Take(s, steps[0]), steps[1..]))
  }

  function Run(s: Traced, steps: seq<Step>): Traced
    requires Possible(s, steps)
    decreases |steps|
  {
    if steps == [] then s else Run(Take(s, steps[0]), steps[1..])
  }

  lemma InitFits(m: Secrets, ttl: int, now: int)
    ensures Inv(Init(m, ttl, now))
  {}

  // A read that had not begun has seen all denials so far once it has.
  predicate Seen(s: Traced, id: nat, count: nat) {
    Asking(s.sys, id) ==> id in s.tr.seen && count <= s.tr.seen[id]
  }

  lemma StepKeepsSeen(s: Traced, step: Step, id: nat, count: nat)
    requires Enabled(s.sys, step) && Seen(s, id, count) && count <= |s.tr.denials|
    ensures Seen(Take(s, step), id, count)
  {
    if Asking(Next(s.sys, step), id) && !Takes(step, id) {
      StillAsking(s.sys, step, id);
      SeenStays(s, step, id);
    }
  }

  lemma StillAsking(s: System, step: Step, id: nat)
    requires Enabled(s, step) && Asking(Next(s, step), id)
    requires !Takes(step, id)
    ensures Asking(s, id)
  {}

  lemma SeenStays(s: Traced, step: Step, id: nat)
    requires Enabled(s.sys, step) && id in s.tr.seen
    requires !Takes(step, id)
    ensures id in Note(s, step).seen && Note(s, step).seen[id] == s.tr.seen[id]
  {}

  lemma {:induction false} RunKeeps(s: Traced, steps: seq<Step>, id: nat, count: nat)
    requires Inv(s) && Possible(s, steps) && Seen(s, id, count) && count <= |s.tr.denials|
    ensures Inv(Run(s, steps)) && Seen(Run(s, steps), id, count)
    ensures s.tr.denials <= Run(s, steps).tr.denials
    decreases |steps|
  {
    if steps != [] {
      StepKeeps(s, steps[0]);
      StepIsLater(s, steps[0]);
      StepKeepsSeen(s, steps[0], id, count);
      RunKeeps(Take(s, steps[0]), steps[1..], id, count);
    }
  }

  // The state after a run from a cold cache, edits from outside included.
  function Reached(m: Secrets, ttl: int, now: int, steps: seq<Step>): Traced
    requires Possible(Init(m, ttl, now), steps)
  {
    Run(Init(m, ttl, now), steps)
  }

  lemma ReachedFits(m: Secrets, ttl: int, now: int, steps: seq<Step>)
    requires Possible(Init(m, ttl, now), steps)
    ensures Inv(Reached(m, ttl, now, steps))
  {
    InitFits(m, ttl, now);
    RunKeeps(Init(m, ttl, now), steps, 0, 0);
  }

  // Once a not-found for a name has been applied under a still-current sequence number, a read begun later,
  // a client's or a store write's, returns a record for that name only if a Save's cache step, or the
  // beginning of an inner fetch that found it, came after that point; a hit, a shared flight and the outage
  // fallback are all covered.
  lemma NoResurrection(m: Secrets, ttl: int, now: int, before: seq<Step>, steps: seq<Step>, k: nat, id: nat)
    requires Possible(Init(m, ttl, now), before)
    requires var s := Reached(m, ttl, now, before);
             Possible(s, steps) && k < |s.tr.denials| && !Asking(s.sys, id)
    requires var d := Reached(m, ttl, now, before).tr.denials[k];
             var t := Run(Reached(m, ttl, now, before), steps).sys;
             && Asking(t, id) && TheAsk(t, id).target == RecordOf(d.name)
             && TheAsk(t, id).pc.Ended? && TheAsk(t, id).pc.reply.Got? && TheAsk(t, id).pc.reply.answer.Found?
    ensures var d := Reached(m, ttl, now, before).tr.denials[k];
            var t := Run(Reached(m, ttl, now, before), steps);
            && id in t.tr.given
            && Genuine(t, d.name, TheAsk(t.sys, id).pc.reply.answer, t.tr.given[id])
            && After(t, t.tr.given[id], d)
  {
    var s := Reached(m, ttl, now, before);
    ReachedFits(m, ttl, now, before);
    RunKeeps(s, steps, id, |s.tr.denials|);
    var t := Run(s, steps);
    assert ReaderNew(t, id);
    assert t.tr.denials[k] == s.tr.denials[k];
  }

  // In every reachable state a record resident under a name that was ever denied came after that denial.
  lemma EvictedUntilSupplied(m: Secrets, ttl: int, now: int, steps: seq<Step>, k: nat)
    requires Possible(Init(m, ttl, now), steps)
    requires var s := Reached(m, ttl, now, steps);
             && k < |s.tr.denials| && s.tr.denials[k].name in s.sys.cache.recs
             && s.sys.cache.recs[s.tr.denials[k].name].val.Some?
    ensures var s := Reached(m, ttl, now, steps);
            var n := s.tr.denials[k].name;
            n in s.tr.source && Genuine(s, n, Found(s.sys.cache.recs[n].val.value), s.tr.source[n])
            && After(s, s.tr.source[n], s.tr.denials[k])
  {
    ReachedFits(m, ttl, now, steps);
    var s := Reached(m, ttl, now, steps);
    assert ResidentNew(s, s.tr.denials[k].name);
  }

  // A forced read, a client's or the one inside a store write, answers with what an inner fetch of its target
  // returned, failure included; never with a resident value.
  lemma ForcedReadIsFetched(m: Secrets, ttl: int, now: int, steps: seq<Step>, id: nat) returns (i: nat)
    requires Possible(Init(m, ttl, now), steps)
    requires var s := Reached(m, ttl, now, steps).sys;
             Asking(s, id) && TheAsk(s, id).force && TheAsk(s, id).pc.Ended?
    ensures var s := Reached(m, ttl, now, steps).sys;
            && i < |s.flights| && s.flights[i].target == TheAsk(s, id).target
            && s.flights[i].phase == Landed(TheAsk(s, id).pc.reply)
  {
    var s := Reached(m, ttl, now, steps);
    ReachedFits(m, ttl, now, steps);
    assert ReaderNew(s, id);
    i := s.tr.via[id];
  }
}
