/** What a Save guarantees later readers although others edit the vault behind the cache: once its cache step
    is done, no read begun later is answered with anything older. */
module Freshness {
  import opened Wrappers
  import opened Records
  import opened ReadCache
  import opened Versions
  import opened Protocol
  import opened Provenance

  // The supply is Save j, a later one, or a fetch begun after its cache step.
  predicate NotBefore(s: Traced, supply: Supply, j: nat)
    requires j < |s.tr.saves|
  {
    match supply
    case BySave(k) => j <= k
    case ByFetch(i) => i < |s.tr.begun| && s.tr.saves[j].time < s.tr.begun[i]
  }

  predicate SavesFit(s: Traced) {
    forall j | 0 <= j < |s.tr.saves| :: s.tr.saves[j].time < s.tr.time && s.tr.saves[j].seqno <= s.sys.cache.seqno
  }

  predicate FlightAfter(s: Traced, i: nat, j: nat)
    requires i < |s.sys.flights| && j < |s.tr.saves|
  {
    s.tr.saves[j].seqno <= s.sys.flights[i].seqno ==> i < |s.tr.begun| && s.tr.saves[j].time < s.tr.begun[i]
  }

  // A flight under a Save's sequence number, or a later one, began after its cache step.
  predicate FlightsAfter(s: Traced) {
    forall i, j | 0 <= i < |s.sys.flights| && 0 <= j < |s.tr.saves| :: FlightAfter(s, i, j)
  }

  predicate ResidentAfter(s: Traced, n: string) {
    && n in s.tr.source
    && forall j | 0 <= j < |s.tr.saves| :: s.tr.saves[j].name == n ==> NotBefore(s, s.tr.source[n], j)
  }

  predicate ResidentsAfter(s: Traced) {
    forall n | n in s.sys.cache.recs :: ResidentAfter(s, n)
  }

  // How far the read has come past Save j.
  predicate PcAfter(s: Traced, id: nat, pc: Pc, j: nat)
    requires j < |s.tr.saves|
  {
    match pc
    case Join(q) => s.tr.saves[j].seqno <= q
    case Wait(i) => i < |s.tr.begun| && s.tr.saves[j].time < s.tr.begun[i]
    case Ended(reply) => reply.Got? ==> id in s.tr.given && NotBefore(s, s.tr.given[id], j)
    case _ => true
  }

  predicate ReaderAfter(s: Traced, id: nat)
    requires Asking(s.sys, id)
  {
    var th := TheAsk(s.sys, id);
    && id in s.tr.saw && s.tr.saw[id] <= |s.tr.saves|
    && forall j | 0 <= j < s.tr.saw[id] :: th.target == RecordOf(s.tr.saves[j].name) ==> PcAfter(s, id, th.pc, j)
  }

  predicate ReadersAfter(s: Traced) {
    forall id | id in s.sys.threads :: Asking(s.sys, id) ==> ReaderAfter(s, id)
  }

  predicate Fresh(s: Traced) {
    SavesFit(s) && FlightsAfter(s) && ResidentsAfter(s) && ReadersAfter(s)
  }

  // --- every step keeps it ---

  lemma SaveAtRefresh(s: Traced, step: Step)
    requires Enabled(s.sys, step)
    ensures s.tr.saves <= Note(s, step).saves && (!step.Refresh? ==> Note(s, step).saves == s.tr.saves)
    ensures step.Refresh? ==>
              && |Note(s, step).saves| == |s.tr.saves| + 1 && Next(s.sys, step).cache.seqno == s.sys.cache.seqno + 1
              && Note(s, step).saves[|s.tr.saves|].time == s.tr.time
              && Note(s, step).saves[|s.tr.saves|].seqno == s.sys.cache.seqno + 1
              && Note(s, step).saves[|s.tr.saves|].name == s.sys.threads[step.id].op.name
  {}

  lemma KeepsSaves(s: Traced, step: Step)
    requires Enabled(s.sys, step) && SavesFit(s)
    ensures SavesFit(Take(s, step))
  {
    SequenceRises(s.sys, step);
    SaveAtRefresh(s, step);
  }

  lemma FlightStaysAfter(s: Traced, step: Step, i: nat, j: nat)
    requires Enabled(s.sys, step) && ClockFits(s) && SavesFit(s) && FlightsAfter(s)
    requires i < |Next(s.sys, step).flights| && j < |Note(s, step).saves|
    ensures FlightAfter(Take(s, step), i, j)
  {
    SaveAtRefresh(s, step);
    FlightMoves(s.sys, step, i);
    assert i < |s.sys.flights| ==> Provenance.FlightFits(s, i);
    assert i < |s.sys.flights| && j < |s.tr.saves| ==> FlightAfter(s, i, j);
  }

  lemma KeepsFlightsAfter(s: Traced, step: Step)
    requires Enabled(s.sys, step) && ClockFits(s) && SavesFit(s) && FlightsAfter(s)
    ensures FlightsAfter(Take(s, step))
  {
    var t := Take(s, step);
    forall i, j | 0 <= i < |t.sys.flights| && 0 <= j < |t.tr.saves|
      ensures FlightAfter(t, i, j)
    {
      FlightStaysAfter(s, step, i, j);
    }
  }

  lemma StaysNotBefore(s: Traced, t: Traced, supply: Supply, j: nat)
    requires Later(s, t) && j < |s.tr.saves| && NotBefore(s, supply, j)
    ensures NotBefore(t, supply, j)
  {}

  // A fill under the current sequence number comes from a fetch begun after every Save so far.
  lemma FillIsAfter(s: Traced, i: nat)
    requires SavesFit(s) && FlightsAfter(s) && i < |s.sys.flights| && s.sys.flights[i].seqno == s.sys.cache.seqno
    ensures forall j | 0 <= j < |s.tr.saves| :: NotBefore(s, ByFetch(i), j)
  {
    forall j | 0 <= j < |s.tr.saves|
      ensures NotBefore(s, ByFetch(i), j)
    {
      assert FlightAfter(s, i, j);
    }
  }

  // A step that is neither a fill nor a Save makes nothing resident.
  lemma SourceStays(s: Traced, step: Step)
    requires Enabled(s.sys, step) && !step.Apply? && !step.Refresh?
    ensures Next(s.sys, step).cache.recs.Keys <= s.sys.cache.recs.Keys && Note(s, step).source == s.tr.source
  {}

  // A fill makes its own name resident, and supplies it.
  lemma SourceAtFill(s: Traced, step: Step, n: string)
    requires Enabled(s.sys, step) && ClockFits(s) && step.Apply? && n in Next(s.sys, step).cache.recs
    ensures var f, t := s.sys.flights[step.flight], Take(s, step);
            if f.target == RecordOf(n) && f.seqno == s.sys.cache.seqno && f.phase.reply.Got?
            then n in t.tr.source && t.tr.source[n] == ByFetch(step.flight)
            else n in s.sys.cache.recs && (n in s.tr.source ==> n in t.tr.source && t.tr.source[n] == s.tr.source[n])
  {
    assert Provenance.FlightFits(s, step.flight);
  }

  lemma ResidentCarriesAfter(s: Traced, t: Traced, n: string)
    requires Later(s, t) && t.tr.saves == s.tr.saves && ResidentAfter(s, n)
    requires n in t.tr.source && t.tr.source[n] == s.tr.source[n]
    ensures ResidentAfter(t, n)
  {
    forall j | 0 <= j < |t.tr.saves| && t.tr.saves[j].name == n
      ensures NotBefore(t, t.tr.source[n], j)
    {
      StaysNotBefore(s, t, s.tr.source[n], j);
    }
  }

  lemma FilledAfter(s: Traced, t: Traced, n: string, i: nat)
    requires Later(s, t) && t.tr.saves == s.tr.saves && SavesFit(s) && FlightsAfter(s)
    requires i < |s.sys.flights| && s.sys.flights[i].seqno == s.sys.cache.seqno
    requires n in t.tr.source && t.tr.source[n] == ByFetch(i)
    ensures ResidentAfter(t, n)
  {
    FillIsAfter(s, i);
    forall j | 0 <= j < |t.tr.saves| && t.tr.saves[j].name == n
      ensures NotBefore(t, t.tr.source[n], j)
    {
      StaysNotBefore(s, t, ByFetch(i), j);
    }
  }

  lemma ResidentStaysAfter(s: Traced, step: Step, n: string)
    requires Enabled(s.sys, step) && ClockFits(s) && SavesFit(s) && FlightsAfter(s) && ResidentsAfter(s)
    requires n in Next(s.sys, step).cache.recs && !step.Refresh?
    ensures ResidentAfter(Take(s, step), n)
  {
    var t := Take(s, step);
    StepIsLater(s, step);
    SaveAtRefresh(s, step);
    assert n in s.sys.cache.recs ==> ResidentAfter(s, n);
    if step.Apply? {
      var f := s.sys.flights[step.flight];
      SourceAtFill(s, step, n);
      if f.target == RecordOf(n) && f.seqno == s.sys.cache.seqno && f.phase.reply.Got? {
        FilledAfter(s, t, n, step.flight);
      } else {
        ResidentCarriesAfter(s, t, n);
      }
    } else {
      SourceStays(s, step);
      ResidentCarriesAfter(s, t, n);
    }
  }

  lemma RefreshStaysAfter(s: Traced, step: Step, n: string)
    requires Enabled(s.sys, step) && ClockFits(s) && ResidentsAfter(s) && step.Refresh?
    requires n in Next(s.sys, step).cache.recs
    ensures ResidentAfter(Take(s, step), n)
  {
    StepIsLater(s, step);
    SaveAtRefresh(s, step);
    assert n in s.sys.cache.recs ==> ResidentAfter(s, n);
  }

  lemma KeepsResidentsAfter(s: Traced, step: Step)
    requires Enabled(s.sys, step) && ClockFits(s) && SavesFit(s) && FlightsAfter(s) && ResidentsAfter(s)
    ensures ResidentsAfter(Take(s, step))
  {
    var t := Take(s, step);
    forall n | n in t.sys.cache.recs
      ensures ResidentAfter(t, n)
    {
      if step.Refresh? {
        RefreshStaysAfter(s, step, n);
      } else {
        ResidentStaysAfter(s, step, n);
      }
    }
  }

  // A read that has just begun has seen all Saves so far, and is past none of its checks.
  lemma BeginsAfter(s: Traced, step: Step, id: nat)
    requires Enabled(s.sys, step) && Asking(Next(s.sys, step), id)
    requires Takes(step, id)
    ensures ReaderAfter(Take(s, step), id)
  {}

  lemma LookUpAfter(s: Traced, step: Step)
    requires Fresh(s) && Enabled(s.sys, step) && step.LookUp?
    ensures ReaderAfter(Take(s, step), step.id)
  {
    assert ReaderAfter(s, step.id);
    var t := TheAsk(s.sys, step.id).target;
    assert t.RecordOf? && t.name in s.sys.cache.recs ==> ResidentAfter(s, t.name);
  }

  lemma SnapshotAfter(s: Traced, step: Step)
    requires Fresh(s) && Enabled(s.sys, step) && step.Snapshot?
    ensures ReaderAfter(Take(s, step), step.id)
  {
    assert ReaderAfter(s, step.id);
  }

  lemma OpenAfter(s: Traced, step: Step)
    requires Fresh(s) && ClockFits(s) && Enabled(s.sys, step) && step.Open?
    ensures ReaderAfter(Take(s, step), step.id)
  {
    var t := Take(s, step);
    assert ReaderAfter(s, step.id);
    SaveAtRefresh(s, step);
    assert TheAsk(t.sys, step.id).pc == Wait(|s.sys.flights|) && t.tr.begun[|s.sys.flights|] == s.tr.time;
  }

  lemma AttachAfter(s: Traced, step: Step)
    requires Fresh(s) && Enabled(s.sys, step) && step.Attach?
    ensures ReaderAfter(Take(s, step), step.id)
  {
    var t, th := Take(s, step), TheAsk(s.sys, step.id);
    assert ReaderAfter(s, step.id);
    forall j | 0 <= j < s.tr.saw[step.id] && th.target == RecordOf(s.tr.saves[j].name)
      ensures PcAfter(t, step.id, Wait(step.flight), j)
    {
      assert PcAfter(s, step.id, th.pc, j) && FlightAfter(s, step.flight, j);
    }
  }

  lemma WakeAfter(s: Traced, step: Step)
    requires Fresh(s) && Enabled(s.sys, step) && step.Wake?
    ensures ReaderAfter(Take(s, step), step.id)
  {
    assert ReaderAfter(s, step.id);
    var t := TheAsk(s.sys, step.id).target;
    assert t.RecordOf? && t.name in s.sys.cache.recs ==> ResidentAfter(s, t.name);
  }

  lemma ReaderMovesAfter(s: Traced, step: Step, id: nat)
    requires Fresh(s) && ClockFits(s) && Enabled(s.sys, step)
    requires MovesRead(s.sys, step, id) && Asking(Next(s.sys, step), id)
    ensures ReaderAfter(Take(s, step), id)
  {
    match step
    case SpawnReader(_, _, _) => BeginsAfter(s, step, id);
    case Acquire(_) => BeginsAfter(s, step, id);
    case LookUp(_) => LookUpAfter(s, step);
    case Snapshot(_) => SnapshotAfter(s, step);
    case Open(_) => OpenAfter(s, step);
    case Attach(_, _) => AttachAfter(s, step);
    case Wake(_) => WakeAfter(s, step);
  }

  lemma SawStays(s: Traced, step: Step, id: nat)
    requires Enabled(s.sys, step) && id in s.tr.saw
    requires !Takes(step, id)
    ensures id in Note(s, step).saw && Note(s, step).saw[id] == s.tr.saw[id]
  {}

  lemma ReaderAfterCarries(s: Traced, t: Traced, id: nat)
    requires Later(s, t) && Asking(s.sys, id) && ReaderAfter(s, id)
    requires Asking(t.sys, id) && TheAsk(t.sys, id) == TheAsk(s.sys, id)
    requires id in t.tr.saw && t.tr.saw[id] == s.tr.saw[id]
    requires id in s.tr.given ==> id in t.tr.given && t.tr.given[id] == s.tr.given[id]
    ensures ReaderAfter(t, id)
  {}

  lemma KeepsReadersAfter(s: Traced, step: Step)
    requires Fresh(s) && ClockFits(s) && Enabled(s.sys, step)
    ensures ReadersAfter(Take(s, step))
  {
    var t := Take(s, step);
    StepIsLater(s, step);
    forall id | id in t.sys.threads && Asking(t.sys, id)
      ensures ReaderAfter(t, id)
    {
      if MovesRead(s.sys, step, id) {
        ReaderMovesAfter(s, step, id);
      } else {
        OtherReaderStays(s.sys, step, id);
        OtherTraceStays(s, step, id);
        SawStays(s, step, id);
        ReaderAfterCarries(s, t, id);
      }
    }
  }

  lemma StepKeepsFresh(s: Traced, step: Step)
    requires Fresh(s) && ClockFits(s) && Enabled(s.sys, step)
    ensures Fresh(Take(s, step))
  {
    KeepsSaves(s, step);
    KeepsFlightsAfter(s, step);
    KeepsResidentsAfter(s, step);
    KeepsReadersAfter(s, step);
  }

  // --- whole runs, with edits behind the cache's back ---

  // A read that had not begun has seen all Saves so far once it has.
  predicate Saw(s: Traced, id: nat, count: nat) {
    Asking(s.sys, id) ==> id in s.tr.saw && count <= s.tr.saw[id]
  }

  lemma StepKeepsSaw(s: Traced, step: Step, id: nat, count: nat)
    requires Enabled(s.sys, step) && Saw(s, id, count) && count <= |s.tr.saves|
    ensures Saw(Take(s, step), id, count)
  {
    if Asking(Next(s.sys, step), id) && !Takes(step, id) {
      StillAsking(s.sys, step, id);
      SawStays(s, step, id);
    }
  }

  lemma {:induction false} RunKeepsFresh(s: Traced, steps: seq<Step>, id: nat, count: nat)
    requires Inv(s) && Fresh(s) && Possible(s, steps) && Saw(s, id, count) && count <= |s.tr.saves|
    ensures Inv(Run(s, steps)) && Fresh(Run(s, steps)) && Saw(Run(s, steps), id, count)
    ensures s.tr.saves <= Run(s, steps).tr.saves
    decreases |steps|
  {
    if steps != [] {
      StepKeeps(s, steps[0]);
      StepIsLater(s, steps[0]);
      StepKeepsFresh(s, steps[0]);
      StepKeepsSaw(s, steps[0], id, count);
      RunKeepsFresh(Take(s, steps[0]), steps[1..], id, count);
    }
  }

  lemma InitIsFresh(m: Secrets, ttl: int, now: int)
    ensures Fresh(Init(m, ttl, now))
  {}

  // Once a Save's cache step is done, a read of its secret begun later, a client's or a store write's, is
  // answered, found or not, with what that Save stored, what a later one did, or what a fetch begun after
  // that step returned; a hit, a negative, a shared flight and the outage fallback are all covered.
  lemma SaveIsFollowed(m: Secrets, ttl: int, now: int, before: seq<Step>, steps: seq<Step>, j: nat, id: nat)
    requires Possible(Init(m, ttl, now), before)
    requires var s := Reached(m, ttl, now, before);
             Possible(s, steps) && j < |s.tr.saves| && !Asking(s.sys, id)
    requires var n := Reached(m, ttl, now, before).tr.saves[j].name;
             var t := Run(Reached(m, ttl, now, before), steps).sys;
             && Asking(t, id) && TheAsk(t, id).target == RecordOf(n)
             && TheAsk(t, id).pc.Ended? && TheAsk(t, id).pc.reply.Got?
    ensures var n := Reached(m, ttl, now, before).tr.saves[j].name;
            var t := Run(Reached(m, ttl, now, before), steps);
            && j < |t.tr.saves| && t.tr.saves[j] == Reached(m, ttl, now, before).tr.saves[j] && id in t.tr.given
            && Genuine(t, n, TheAsk(t.sys, id).pc.reply.answer, t.tr.given[id])
            && NotBefore(t, t.tr.given[id], j)
  {
    var s := Reached(m, ttl, now, before);
    InitFits(m, ttl, now);
    InitIsFresh(m, ttl, now);
    RunKeepsFresh(Init(m, ttl, now), before, 0, 0);
    RunKeepsFresh(s, steps, id, |s.tr.saves|);
    var t := Run(s, steps);
    assert ReaderNew(t, id) && ReaderAfter(t, id);
    assert PcAfter(t, id, TheAsk(t.sys, id).pc, j);
  }
}
