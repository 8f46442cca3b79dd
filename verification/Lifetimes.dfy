/** How long the cache serves what it holds, and what it serves in an outage, over every run with edits from
    outside (backend/cache/cache.go): told from the steps that store and remove, not from the entries. */
module Lifetimes {
  import opened Wrappers
  import opened Records
  import opened ReadCache
  import opened Versions
  import opened Protocol

  // An answer stored and not removed since, and when it was stored.
  datatype Kept = Kept(at: int, answer: Answer)

  type Stock = map<Target, Kept>

  // The fetch that step applies may store its answer: nothing moved the cache on since its callers' snapshot.
  predicate Stores(s: System, step: Step)
    requires Enabled(s, step)
  {
    && step.Apply? && s.flights[step.flight].seqno == s.cache.seqno && s.flights[step.flight].phase.reply.Got?
    && Matches(s.flights[step.flight].target, s.flights[step.flight].phase.reply.answer)
  }

  // What is stored after a step. Fetches and Saves store; the removals are those of names, by a Delete or by hand,
  // of the list, by any write, of anything, by a flush, and of any records, for capacity. Without expiry a not-found
  // is not stored, and removes.
  function Restock(s: System, stock: Stock, step: Step): Stock
    requires Enabled(s, step)
  {
    match step
    case Apply(i, _) =>
      if !Stores(s, step) then stock
      else
        var t, a := s.flights[i].target, s.flights[i].phase.reply.answer;
        if a.Missing? && s.cache.ttl <= 0 then stock - {t} else stock[t := Kept(s.now, a)]
    case Refresh(id, _) =>
      var Writer(op, Refreshing(r, _)) := s.threads[id];
      stock[RecordOf(op.name) := Kept(s.now, Found(r))] - {AllNames}
    case Evict(id) => stock - {RecordOf(s.threads[id].op.name)}
    case Drop(_) => stock - {AllNames}
    case Remove(n) => stock - {RecordOf(n)}
    case Purge => map[]
    case PushOut(names) => stock - set n | n in names :: RecordOf(n)
    case _ => stock
  }

  predicate Able(s: System, steps: seq<Step>)
    decreases |steps|
  {
    steps == [] || (Enabled(s, steps[0]) && Able(Next(s, steps[0]), steps[1..]))
  }

  function After(s: System, steps: seq<Step>): System
    requires Able(s, steps)
    decreases |steps|
  {
    if steps == [] then s else After(Next(s, steps[0]), steps[1..])
  }

  function StockAfter(s: System, stock: Stock, steps: seq<Step>): Stock
    requires Able(s, steps)
    decreases |steps|
  {
    if steps == [] then stock else StockAfter(Next(s, steps[0]), Restock(s, stock, steps[0]), steps[1..])
  }

  // --- what is resident is what was stored ---

  // The entry's end lies within the jitter of a lifetime from when it was stored; a not-found's is exact and brief.
  predicate EndsRight(ttl: int, k: Kept, expires: Option<int>) {
    if ttl <= 0 then expires == None && !k.answer.Missing?
    else if k.answer.Missing? then expires == Some(k.at + Min(ttl / 10, NEG_TTL_CAP))
    else expires.Some? && k.at + ttl - ttl / JITTER_FRAC <= expires.value <= k.at + ttl + ttl / JITTER_FRAC
  }

  predicate StockedAt(c: CacheState, stock: Stock, t: Target) {
    var e := Resident(c, t);
    && (t in stock <==> e.Some?)
    && (e.Some? ==> e.value.val == stock[t].answer && EndsRight(c.ttl, stock[t], e.value.expires))
  }

  ghost predicate Stocked(c: CacheState, stock: Stock) {
    forall t :: StockedAt(c, stock, t)
  }

  lemma ApplyKeepsStock(s: System, stock: Stock, step: Step, t: Target)
    requires Enabled(s, step) && step.Apply? && Stocked(s.cache, stock)
    ensures StockedAt(Next(s, step).cache, Restock(s, stock, step), t)
  {
    assert StockedAt(s.cache, stock, t);
  }

  lemma SaveKeepsStock(s: System, stock: Stock, step: Step, t: Target)
    requires Enabled(s, step) && step.Refresh? && Stocked(s.cache, stock)
    ensures StockedAt(Next(s, step).cache, Restock(s, stock, step), t)
  {
    assert StockedAt(s.cache, stock, t);
  }

  lemma PushOutKeepsStock(s: System, stock: Stock, names: set<string>, t: Target)
    requires Stocked(s.cache, stock)
    ensures StockedAt(Evicted(s.cache, names), stock - set n | n in names :: RecordOf(n), t)
  {
    assert StockedAt(s.cache, stock, t);
  }

  lemma OthersKeepStock(s: System, stock: Stock, step: Step, t: Target)
    requires Enabled(s, step) && !step.Apply? && !step.Refresh? && !step.PushOut? && Stocked(s.cache, stock)
    ensures StockedAt(Next(s, step).cache, Restock(s, stock, step), t)
  {
    assert StockedAt(s.cache, stock, t);
  }

  lemma StepKeepsStock(s: System, stock: Stock, step: Step)
    requires Enabled(s, step) && Stocked(s.cache, stock)
    ensures Stocked(Next(s, step).cache, Restock(s, stock, step))
    ensures Next(s, step).cache.ttl == s.cache.ttl
  {
    forall t
      ensures StockedAt(Next(s, step).cache, Restock(s, stock, step), t)
    {
      if step.Apply? {
        ApplyKeepsStock(s, stock, step, t);
      } else if step.Refresh? {
        SaveKeepsStock(s, stock, step, t);
      } else if step.PushOut? {
        PushOutKeepsStock(s, stock, step.names, t);
      } else {
        OthersKeepStock(s, stock, step, t);
      }
    }
  }

  lemma {:induction false} RunKeepsStock(s: System, stock: Stock, steps: seq<Step>)
    requires Able(s, steps) && Stocked(s.cache, stock)
    ensures Stocked(After(s, steps).cache, StockAfter(s, stock, steps)) && After(s, steps).cache.ttl == s.cache.ttl
    decreases |steps|
  {
    if steps != [] {
      StepKeepsStock(s, stock, steps[0]);
      RunKeepsStock(Next(s, steps[0]), Restock(s, stock, steps[0]), steps[1..]);
    }
  }

  // --- what readers get ---

  // The state of a run from a cold cache, and what it has stored.
  function Reached(m: Secrets, ttl: int, now: int, steps: seq<Step>): System
    requires Able(Start(m, ttl, now), steps)
  {
    After(Start(m, ttl, now), steps)
  }

  function Stored(m: Secrets, ttl: int, now: int, steps: seq<Step>): Stock
    requires Able(Start(m, ttl, now), steps)
  {
    StockAfter(Start(m, ttl, now), map[], steps)
  }

  lemma ReachedIsStocked(m: Secrets, ttl: int, now: int, steps: seq<Step>)
    requires Able(Start(m, ttl, now), steps)
    ensures Stocked(Reached(m, ttl, now, steps).cache, Stored(m, ttl, now, steps))
    ensures Reached(m, ttl, now, steps).cache.ttl == ttl
  {
    RunKeepsStock(Start(m, ttl, now), map[], steps);
  }

  // A read that looks in the cache is answered from it only with what was stored and not removed since; and, as
  // long as that is younger than the shortest lifetime, always; once it has the longest, never. A not-found has
  // exactly a tenth of the lifetime, or 30 seconds. Without expiry whatever is stored is served.
  lemma ServedWhileLive(m: Secrets, ttl: int, now: int, steps: seq<Step>, id: nat)
    requires Able(Start(m, ttl, now), steps) && Enabled(Reached(m, ttl, now, steps), LookUp(id))
    ensures var s, stock := Reached(m, ttl, now, steps), Stored(m, ttl, now, steps);
            var t := TheAsk(s, id).target;
            var u := Next(s, LookUp(id));
            var pc := TheAsk(u, id).pc;
            && Asking(u, id) && (pc == Snap || pc.Ended?) && u == SetPc(s, id, pc)
            && (pc.Ended? ==> t in stock && pc.reply == Got(stock[t].answer))
            && (t in stock ==>
                  var age := s.now - stock[t].at;
                  if ttl <= 0 then pc.Ended?
                  else if stock[t].answer.Missing? then pc.Ended? <==> age < Min(ttl / 10, 30_000_000_000)
                  else (age < ttl - ttl / 5 ==> pc.Ended?) && (pc.Ended? ==> age < ttl + ttl / 5))
  {
    ReachedIsStocked(m, ttl, now, steps);
    var s := Reached(m, ttl, now, steps);
    assert StockedAt(s.cache, Stored(m, ttl, now, steps), TheAsk(s, id).target);
  }

  // A read that waited for a fetch ends with the fetch's own reply, except that an ordinary read whose fetch met an
  // outage gets the record or name list that is stored, if one is, however old.
  lemma StaleOnlyInOutage(m: Secrets, ttl: int, now: int, steps: seq<Step>, id: nat)
    requires Able(Start(m, ttl, now), steps) && Enabled(Reached(m, ttl, now, steps), Wake(id))
    ensures var s, stock := Reached(m, ttl, now, steps), Stored(m, ttl, now, steps);
            var ask := TheAsk(s, id);
            var fetched := s.flights[ask.pc.flight].phase.reply;
            var u := Next(s, Wake(id));
            var stale := && fetched == Failed(Unavailable) && !ask.force
                         && ask.target in stock && !stock[ask.target].answer.Missing?;
            && Asking(u, id)
            && TheAsk(u, id).pc == Ended(if stale then Got(stock[ask.target].answer) else fetched)
  {
    ReachedIsStocked(m, ttl, now, steps);
    var s := Reached(m, ttl, now, steps);
    assert StockedAt(s.cache, Stored(m, ttl, now, steps), TheAsk(s, id).target);
  }

  // --- failures are real ---

  // The step is an inner call that meets this failure.
  predicate Meets(step: Step, f: Failure) {
    (step.Fetch? || step.Commit? || step.Erase?) && step.outage == Some(f)
  }

  // Nobody has been told of it.
  predicate Untold(s: System, f: Failure) {
    && (forall i | 0 <= i < |s.flights| :: !s.flights[i].phase.Opened? ==> s.flights[i].phase.reply != Failed(f))
    && (forall id | id in s.threads :: UntoldTo(s.threads[id], f))
  }

  predicate UntoldTo(th: Thread, f: Failure) {
    match th
    case Reader(_, _, pc) => pc != Ended(Failed(f))
    case Writer(_, w) => w != Reading(Ended(Failed(f))) && w != Leaving(BackendFailed(f)) && w != Closed(BackendFailed(f))
  }

  lemma FlightsStayUntold(s: System, step: Step, f: Failure, i: nat)
    requires Enabled(s, step) && Untold(s, f) && !Meets(step, f) && i < |Next(s, step).flights|
    ensures var g := Next(s, step).flights[i]; !g.phase.Opened? ==> g.phase.reply != Failed(f)
  {}

  lemma ReadStaysUntold(s: System, step: Step, f: Failure, id: nat)
    requires Enabled(s, step) && Untold(s, f) && OfRead(step) && id in Next(s, step).threads
    ensures UntoldTo(Next(s, step).threads[id], f)
  {
    assert id in s.threads && UntoldTo(s.threads[id], f);
  }

  lemma WriteStaysUntold(s: System, step: Step, f: Failure, id: nat)
    requires Enabled(s, step) && Untold(s, f) && !Meets(step, f) && OfWrite(step) && id in Next(s, step).threads
    ensures UntoldTo(Next(s, step).threads[id], f)
  {
    assert id in s.threads && UntoldTo(s.threads[id], f);
  }

  lemma OthersStayUntold(s: System, step: Step, f: Failure, id: nat)
    requires Enabled(s, step) && Untold(s, f) && !OfRead(step) && !OfWrite(step) && id in Next(s, step).threads
    ensures UntoldTo(Next(s, step).threads[id], f)
  {}

  lemma StepKeepsUntold(s: System, step: Step, f: Failure)
    requires Enabled(s, step) && Untold(s, f) && !Meets(step, f)
    ensures Untold(Next(s, step), f)
  {
    forall i | 0 <= i < |Next(s, step).flights|
      ensures var g := Next(s, step).flights[i]; !g.phase.Opened? ==> g.phase.reply != Failed(f)
    {
      FlightsStayUntold(s, step, f, i);
    }
    forall id | id in Next(s, step).threads
      ensures UntoldTo(Next(s, step).threads[id], f)
    {
      if OfRead(step) {
        ReadStaysUntold(s, step, f, id);
      } else if OfWrite(step) {
        WriteStaysUntold(s, step, f, id);
      } else {
        OthersStayUntold(s, step, f, id);
      }
    }
  }

  lemma {:induction false} RunKeepsUntold(s: System, steps: seq<Step>, f: Failure)
    requires Able(s, steps) && Untold(s, f) && forall x | x in steps :: !Meets(x, f)
    ensures Untold(After(s, steps), f)
    decreases |steps|
  {
    if steps != [] {
      assert steps[0] in steps && forall x | x in steps[1..] :: x in steps;
      StepKeepsUntold(s, steps[0], f);
      RunKeepsUntold(Next(s, steps[0]), steps[1..], f);
    }
  }

  // A failure is reported to a reader or a writer only if some inner call met that failure.
  lemma FailuresAreReal(m: Secrets, ttl: int, now: int, steps: seq<Step>, id: nat, f: Failure)
    requires Able(Start(m, ttl, now), steps) && id in Reached(m, ttl, now, steps).threads
    ensures !UntoldTo(Reached(m, ttl, now, steps).threads[id], f) ==> exists x :: x in steps && Meets(x, f)
  {
    if forall x | x in steps :: !Meets(x, f) {
      RunKeepsUntold(Start(m, ttl, now), steps, f);
    }
  }
}
