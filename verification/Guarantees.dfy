/** What clients may rely on, for every run of the service from a cold cache. */
module Guarantees {
  import opened Wrappers
  import opened Records
  import opened ReadCache
  import opened Versions
  import opened Protocol
  import opened Coherence

  // A run writes the inner backend only through the cache.
  ghost predicate Possible(s: State, steps: seq<Step>)
    decreases |steps|
  {
    steps == [] || (Enabled(s.sys, steps[0]) && !steps[0].OutOfBand? && s.h.hist != []
                    && Possible(Take(s, steps[0]), steps[1..]))
  }

  ghost function Run(s: State, steps: seq<Step>): State
    requires Possible(s, steps)
    decreases |steps|
  {
    if steps == [] then s else Run(Take(s, steps[0]), steps[1..])
  }

  lemma InitFits(m: Secrets, ttl: int, now: int)
    ensures Inv(Init(m, ttl, now))
  {}

  lemma {:induction false} RunKeeps(s: State, steps: seq<Step>)
    requires Inv(s) && Possible(s, steps)
    ensures Inv(Run(s, steps))
    decreases |steps|
  {
    if steps != [] {
      StepKeeps(s, steps[0]);
      RunKeeps(Take(s, steps[0]), steps[1..]);
    }
  }

  // The state after a run from a cold cache over any inner contents.
  ghost function Reached(m: Secrets, ttl: int, now: int, steps: seq<Step>): State
    requires Possible(Init(m, ttl, now), steps)
  {
    Run(Init(m, ttl, now), steps)
  }

  lemma ReachedFits(m: Secrets, ttl: int, now: int, steps: seq<Step>)
    requires Possible(Init(m, ttl, now), steps)
    ensures Inv(Reached(m, ttl, now, steps))
  {
    InitFits(m, ttl, now);
    RunKeeps(Init(m, ttl, now), steps);
  }

  // --- coherence ---

  // A write on n stands between its inner commit and its last step on the record cache.
  predicate RecordPending(s: System, n: string) {
    exists id | id in s.threads :: s.threads[id].Writer? && s.threads[id].op.name == n
                                   && (s.threads[id].w.Refreshing? || s.threads[id].w.Evicting?)
  }

  // Some write stands between its inner commit and its last step on the cache.
  predicate AnyPending(s: System) {
    exists id | id in s.threads :: s.threads[id].Writer?
                                   && (s.threads[id].w.Refreshing? || s.threads[id].w.Evicting? || s.threads[id].w.Dropping?)
  }

  // No write affecting the target stands between its inner commit and its last cache step.
  predicate Quiet(s: System, t: Target) {
    match t
    case RecordOf(n) => !RecordPending(s, n)
    case AllNames => !AnyPending(s)
  }

  // In every reachable state whatever is resident, expired or not, is the truth, except while a write
  // affecting it is pending.
  lemma ResidentIsTruth(m: Secrets, ttl: int, now: int, steps: seq<Step>, t: Target)
    requires Possible(Init(m, ttl, now), steps)
    requires var s := Reached(m, ttl, now, steps).sys; Resident(s.cache, t).Some? && Quiet(s, t)
    ensures var s := Reached(m, ttl, now, steps).sys; Resident(s.cache, t).value.val == View(s.inner, t)
  {
    ReachedFits(m, ttl, now, steps);
    ResidentFits(Reached(m, ttl, now, steps), t);
  }

  // At most one fetch per sequence number and target is in flight, in every reachable state.
  lemma OneFetchPerKey(m: Secrets, ttl: int, now: int, steps: seq<Step>, i: nat, j: nat)
    requires Possible(Init(m, ttl, now), steps)
    requires var fs := Reached(m, ttl, now, steps).sys.flights;
             && i < |fs| && j < |fs| && !fs[i].phase.Landed? && !fs[j].phase.Landed?
             && fs[i].seqno == fs[j].seqno && fs[i].target == fs[j].target
    ensures i == j
  {
    ReachedFits(m, ttl, now, steps);
  }

  lemma ResidentFits(s: State, t: Target)
    requires Inv(s) && Resident(s.sys.cache, t).Some?
    requires Quiet(s.sys, t)
    ensures Resident(s.sys.cache, t).value.val == View(s.sys.inner, t)
  {
    if s.sys.lock.Some? {
      var id := s.sys.lock.value;
      assert HolderFits(s, id, s.sys.threads[id]);
      var n := |s.h.hist| - 1;
      var th := s.sys.threads[id];
      if t.RecordOf? && (th.w.Refreshing? || th.w.Evicting?) {
        assert th.op.name != t.name;
        assert View(s.h.hist[n - 1], t) == View(s.sys.inner, t);
      }
    }
  }

  // --- the forced load inside a read-modify-write ---

  // In every reachable state a successful forced load is the inner backend's current state, not-found
  // included, and stays so until its writer commits: nobody else holds the mutex.
  lemma ForcedLoadIsCurrent(m: Secrets, ttl: int, now: int, steps: seq<Step>, id: nat)
    requires Possible(Init(m, ttl, now), steps)
    requires var s := Reached(m, ttl, now, steps).sys;
             Writing(s, id) && s.threads[id].w.Reading? && s.threads[id].w.pc.Ended? && s.threads[id].w.pc.reply.Got?
    ensures var s := Reached(m, ttl, now, steps).sys;
            && s.threads[id].w.pc.reply.answer == View(s.inner, RecordOf(s.threads[id].op.name))
            && s.lock == Some(id) && forall j | Writing(s, j) && j != id :: !Holding(s.threads[j])
  {
    ReachedFits(m, ttl, now, steps);
    var s := Reached(m, ttl, now, steps);
    assert Asking(s.sys, id) && AskFits(s, id) && Holding(s.sys.threads[id]);
    assert HolderFits(s, id, s.sys.threads[id]);
  }

  // In every reachable state the record about to be committed is what the version rules make of the
  // record it will replace.
  lemma NoLostUpdate(m: Secrets, ttl: int, now: int, steps: seq<Step>, id: nat)
    requires Possible(Init(m, ttl, now), steps)
    requires var s := Reached(m, ttl, now, steps).sys; Writing(s, id) && s.threads[id].w.Committing?
    ensures var s := Reached(m, ttl, now, steps).sys;
            var th := s.threads[id];
            && !th.op.Delete?
            && Decide(th.op, Lookup(s.inner, th.op.name)) == Write(th.w.record, th.w.outcome)
            && forall j | Writing(s, j) && j != id :: !Holding(s.threads[j])
  {
    ReachedFits(m, ttl, now, steps);
    var s := Reached(m, ttl, now, steps);
    assert Holding(s.sys.threads[id]);
    assert HolderFits(s, id, s.sys.threads[id]);
  }

  // --- read after write ---

  // How many of the writes so far have returned or could have.
  function Settled(s: State): nat
    requires s.h.hist != []
  {
    if AnyPending(s.sys) && |s.h.hist| > 1 then |s.h.hist| - 2 else |s.h.hist| - 1
  }

  ghost predicate Floored(s: State, id: nat, low: nat) {
    id in s.sys.threads && s.sys.threads[id].Reader? ==> id in s.h.floor && low <= s.h.floor[id]
  }

  lemma LaterTransitive(s: State, t: State, u: State)
    requires Later(s, t) && Later(t, u)
    ensures Later(s, u)
  {
    forall i | 0 <= i < |s.sys.flights|
      ensures SameFlight(s.sys.flights[i], u.sys.flights[i])
    {
      assert SameFlight(s.sys.flights[i], t.sys.flights[i]);
    }
  }

  lemma FloorHolds(s: State, step: Step, id: nat, low: nat)
    requires Counters(s) && Enabled(s.sys, step) && low <= s.h.listed && Floored(s, id, low)
    ensures Floored(Take(s, step), id, low)
  {
    ReaderStays(s.sys, step, id);
    FloorStays(s, step, id);
  }

  lemma ReaderStays(s: System, step: Step, id: nat)
    requires Enabled(s, step)
    ensures var t := Next(s, step);
            id in t.threads && t.threads[id].Reader? && !(step.SpawnReader? && step.id == id) ==>
              id in s.threads && s.threads[id].Reader?
  {}

  // A floor is set when a read begins, and only then.
  lemma FloorStays(s: State, step: Step, id: nat)
    requires Counters(s) && Enabled(s.sys, step)
    ensures step.SpawnReader? && step.id == id ==>
              id in Note(s, step).floor && Note(s, step).floor[id] == Low(s.h, step.target)
    ensures id in s.h.floor && !(step.SpawnReader? && step.id == id) && !(step.Acquire? && step.id == id) ==>
              id in Note(s, step).floor && Note(s, step).floor[id] == s.h.floor[id]
    ensures step.Acquire? && step.id == id ==> !(id in s.sys.threads && s.sys.threads[id].Reader?)
  {}

  lemma {:induction false} RunRises(s: State, steps: seq<Step>, id: nat, low: nat)
    requires Inv(s) && Possible(s, steps) && low <= s.h.listed && Floored(s, id, low)
    ensures Later(s, Run(s, steps)) && Floored(Run(s, steps), id, low)
    decreases |steps|
  {
    if steps != [] {
      var s' := Take(s, steps[0]);
      StepKeeps(s, steps[0]);
      StepIsLater(s, steps[0]);
      FloorHolds(s, steps[0], id, low);
      RunRises(s', steps[1..], id, low);
      LaterTransitive(s, s', Run(s, steps));
    }
  }

  lemma SettledIsListed(s: State)
    requires Inv(s)
    ensures Settled(s) <= s.h.listed
  {
    if s.sys.lock.Some? {
      assert HolderFits(s, s.sys.lock.value, s.sys.threads[s.sys.lock.value]);
    }
  }

  // A read that starts once a write has returned never answers from before that write: its answer is
  // the bare map's at some moment no earlier than the last completed write when it started. This holds
  // for hits, coalesced flights, negatives and the outage fallback alike.
  lemma ReadAfterWrite(m: Secrets, ttl: int, now: int, before: seq<Step>, steps: seq<Step>, id: nat)
    requires Possible(Init(m, ttl, now), before)
    requires var s := Reached(m, ttl, now, before); Possible(s, steps) && id !in s.sys.threads
    requires var t := Run(Reached(m, ttl, now, before), steps).sys;
             id in t.threads && t.threads[id].Reader? && t.threads[id].pc.Ended? && t.threads[id].pc.reply.Got?
    ensures var s := Reached(m, ttl, now, before);
            var t := Run(s, steps);
            var th := t.sys.threads[id];
            && s.h.hist <= t.h.hist && Last(s.h.hist) == s.sys.inner
            && exists k | Settled(s) <= k < |t.h.hist| :: th.pc.reply.answer == View(t.h.hist[k], th.target)
  {
    ReachedFits(m, ttl, now, before);
    ReadIsRecent(Reached(m, ttl, now, before), steps, id);
  }

  lemma ReadIsRecent(s: State, steps: seq<Step>, id: nat)
    requires Inv(s) && Possible(s, steps) && id !in s.sys.threads
    requires var t := Run(s, steps).sys;
             id in t.threads && t.threads[id].Reader? && t.threads[id].pc.Ended? && t.threads[id].pc.reply.Got?
    ensures var t := Run(s, steps);
            var th := t.sys.threads[id];
            && s.h.hist <= t.h.hist
            && exists k | Settled(s) <= k < |t.h.hist| :: th.pc.reply.answer == View(t.h.hist[k], th.target)
  {
    var t := Run(s, steps);
    SettledIsListed(s);
    RunRises(s, steps, id, s.h.listed);
    RunKeeps(s, steps);
    assert Asking(t.sys, id) && AskFits(t, id);
    assert t.sys.threads[id].pc.reply.answer == View(t.h.hist[t.h.got[id]], t.sys.threads[id].target);
  }

  // --- writes are linearizable ---

  // The place k of the log belongs to a thread whose operation took effect with just that outcome.
  ghost predicate Owned(t: State, k: nat)
    requires k < |t.h.log|
  {
    && |t.h.owners| == |t.h.log| && t.h.owners[k] in t.h.entry && t.h.entry[t.h.owners[k]] == k
    && Writing(t.sys, t.h.owners[k]) && t.sys.threads[t.h.owners[k]].op == t.h.log[k].op
    && TookEffect(t.sys.threads[t.h.owners[k]].w) == Some(t.h.log[k].outcome)
  }

  // The inner contents are those of running the logged operations one by one; the log holds exactly the
  // operations of threads that took effect, each once and with the outcome its caller is given; every
  // acknowledged one is there, and none that failed in the backend.
  lemma WritesAreSerial(m: Secrets, ttl: int, now: int, steps: seq<Step>)
    requires Possible(Init(m, ttl, now), steps)
    ensures var t := Run(Init(m, ttl, now), steps);
            && [m] <= t.h.hist && t.sys.inner == After(m, t.h.log) && Explains(m, t.h.log)
            && (forall id, out | Writing(t.sys, id) && t.sys.threads[id].w == Closed(Answered(out)) ::
                  id in t.h.entry && t.h.entry[id] < |t.h.log|
                  && t.h.log[t.h.entry[id]] == Event(t.sys.threads[id].op, out))
            && (forall k | 0 <= k < |t.h.log| :: Owned(t, k))
            && (forall a, b | a in t.h.entry && b in t.h.entry && a != b :: t.h.entry[a] != t.h.entry[b])
            && (forall id, f | Writing(t.sys, id) && t.sys.threads[id].w == Closed(BackendFailed(f)) :: id !in t.h.entry)
  {
    var s := Init(m, ttl, now);
    InitFits(m, ttl, now);
    RunKeeps(s, steps);
    RunRises(s, steps, 0, 0);
    var t := Run(s, steps);
    assert t.h.hist[0] == m;
    LogIsExact(t);
  }

  lemma LogIsExact(t: State)
    requires LogFits(t)
    ensures forall id, out | Writing(t.sys, id) && t.sys.threads[id].w == Closed(Answered(out)) ::
              id in t.h.entry && t.h.entry[id] < |t.h.log|
              && t.h.log[t.h.entry[id]] == Event(t.sys.threads[id].op, out)
    ensures forall k | 0 <= k < |t.h.log| :: Owned(t, k)
    ensures forall a, b | a in t.h.entry && b in t.h.entry && a != b :: t.h.entry[a] != t.h.entry[b]
    ensures forall id, f | Writing(t.sys, id) && t.sys.threads[id].w == Closed(BackendFailed(f)) :: id !in t.h.entry
  {
    forall id | Writing(t.sys, id) && TookEffect(t.sys.threads[id].w).Some?
      ensures id in t.h.entry
    {}
    forall k | 0 <= k < |t.h.log|
      ensures Owned(t, k)
    {
      var id := t.h.owners[k];
      assert id in t.h.entry && t.h.entry[id] == k;
    }
  }

  ghost predicate BornAfter(s: State, id: nat, low: nat) {
    Writing(s.sys, id) ==> id in s.h.born && low <= s.h.born[id]
  }

  // The log before the step, a's place in it and the earliest b can come.
  ghost predicate Extends(s: State, t: State, a: nat, b: nat, low: nat) {
    s.h.log <= t.h.log && a in s.h.entry && a in t.h.entry && t.h.entry[a] == s.h.entry[a] && BornAfter(t, b, low)
  }

  lemma EffectExtendsLog(s: State, step: Step, a: nat, b: nat, low: nat)
    requires Inv(s) && Enabled(s.sys, step) && TakesEffect(s.sys, step)
    requires a in s.h.entry && low <= |s.h.log| && BornAfter(s, b, low)
    ensures Extends(s, Take(s, step), a, b, low)
  {
    EffectStep(s, step);
    assert Writing(s.sys, a);
  }

  lemma QuietExtendsLog(s: State, step: Step, a: nat, b: nat, low: nat)
    requires Counters(s) && LogFits(s) && Enabled(s.sys, step) && !TakesEffect(s.sys, step)
    requires a in s.h.entry && low <= |s.h.log| && BornAfter(s, b, low)
    ensures Extends(s, Take(s, step), a, b, low)
  {
    QuietStep(s, step);
    QuietBirths(s, step);
    if b in s.sys.threads {
      QuietStanding(s.sys, step, b);
    }
  }

  lemma StepExtendsLog(s: State, step: Step, a: nat, b: nat, low: nat)
    requires Inv(s) && Enabled(s.sys, step) && a in s.h.entry && low <= |s.h.log| && BornAfter(s, b, low)
    ensures Extends(s, Take(s, step), a, b, low)
  {
    if TakesEffect(s.sys, step) {
      EffectExtendsLog(s, step, a, b, low);
    } else {
      QuietExtendsLog(s, step, a, b, low);
    }
  }

  lemma {:induction false} RunExtendsLog(s: State, steps: seq<Step>, a: nat, b: nat, low: nat)
    requires Inv(s) && Possible(s, steps) && a in s.h.entry
    requires low <= |s.h.log| && BornAfter(s, b, low)
    ensures Extends(s, Run(s, steps), a, b, low)
    decreases |steps|
  {
    if steps != [] {
      var s' := Take(s, steps[0]);
      StepKeeps(s, steps[0]);
      StepExtendsLog(s, steps[0], a, b, low);
      RunExtendsLog(s', steps[1..], a, b, low);
    }
  }

  // The log respects real time: a write that took effect before another one began stands before it.
  lemma RealTimeOrder(m: Secrets, ttl: int, now: int, before: seq<Step>, steps: seq<Step>, a: nat, b: nat)
    requires Possible(Init(m, ttl, now), before) && Possible(Reached(m, ttl, now, before), steps)
    requires var s := Reached(m, ttl, now, before);
             a in s.h.entry && b !in s.sys.threads && b in Run(s, steps).h.entry
    ensures var t := Run(Reached(m, ttl, now, before), steps); a in t.h.entry && t.h.entry[a] < t.h.entry[b]
  {
    var s := Reached(m, ttl, now, before);
    ReachedFits(m, ttl, now, before);
    RunKeeps(s, steps);
    RunExtendsLog(s, steps, a, b, |s.h.log|);
  }

  // --- the version rules, under concurrency ---

  // Every record of every reachable inner state is well formed, unless a Put went past the last version.
  lemma StoreStaysSound(m: Secrets, ttl: int, now: int, steps: seq<Step>)
    requires Sound(m) && Possible(Init(m, ttl, now), steps)
    requires NeverWraps(m, Run(Init(m, ttl, now), steps).h.log)
    ensures Sound(Run(Init(m, ttl, now), steps).sys.inner)
  {
    WritesAreSerial(m, ttl, now, steps);
    RunsKeepSound(m, Run(Init(m, ttl, now), steps).h.log);
  }

  // Every writer on n is a Put, and no two of them put the same value.
  ghost predicate OnlyDistinctPuts(s: System, n: string) {
    && (forall id | Writing(s, id) && s.threads[id].op.name == n :: s.threads[id].op.Put?)
    && (forall a, b | Writing(s, a) && Writing(s, b) && a != b && s.threads[a].op.name == n && s.threads[b].op.name == n ::
          s.threads[a].op.value != s.threads[b].op.value)
  }

  // How many Puts to n come before place i.
  function PutRank(log: seq<Event>, n: string, i: nat): nat
    requires i < |log|
  {
    |PutValues(log[..i], n)|
  }

  // The place in the log of the k-th Put to n, counting from 0.
  lemma {:induction false} PutHasPlace(log: seq<Event>, n: string, k: nat) returns (i: nat)
    requires k < |PutValues(log, n)|
    ensures i < |log| && log[i].op == Put(n, PutValues(log, n)[k]) && PutRank(log, n, i) == k
  {
    var front := Front(log);
    if k < |PutValues(front, n)| {
      i := PutHasPlace(front, n, k);
      assert log[..i] == front[..i];
    } else {
      i := |log| - 1;
    }
  }

  lemma {:induction false} LogPrefix(m: Secrets, log: seq<Event>, n: string, j: nat)
    requires j <= |log|
    ensures PutValues(log[..j], n) <= PutValues(log, n)
    ensures Explains(m, log) ==> Explains(m, log[..j])
    decreases |log|
  {
    if j < |log| {
      LogPrefix(m, Front(log), n, j);
      assert Front(log)[..j] == log[..j];
    } else {
      assert log[..j] == log;
    }
  }

  // In a log of distinct Puts each one is answered with its own number.
  lemma PutsAreNumbered(m: Secrets, log: seq<Event>, n: string, i: nat)
    requires n !in m && n != "" && !Reserved(n) && Explains(m, log)
    requires forall e | e in log && e.op.name == n :: e.op.Put?
    requires Distinct(PutValues(log, n)) && |PutValues(log, n)| <= MAX_VERSION
    requires i < |log| && log[i].op.name == n
    ensures var k := PutRank(log, n, i);
            k < |PutValues(log, n)| && log[i].op == Put(n, PutValues(log, n)[k]) && log[i].outcome == Assigned(k + 1)
  {
    var upTo := log[..i + 1];
    LogPrefix(m, log, n, i + 1);
    assert Front(upTo) == log[..i];
    assert log[i] in log && Last(upTo) == log[i];
    assert forall e | e in upTo :: e in log;
    assert forall x | 0 <= x < |PutValues(upTo, n)| :: PutValues(upTo, n)[x] == PutValues(log, n)[x];
    DistinctPuts(m, upTo, n);
  }

  lemma PutsStayDistinct(s: State, n: string)
    requires Inv(s) && OnlyDistinctPuts(s.sys, n)
    ensures Distinct(PutValues(s.h.log, n))
    ensures forall e | e in s.h.log && e.op.name == n :: e.op.Put?
  {
    var log, vals := s.h.log, PutValues(s.h.log, n);
    forall x, y | 0 <= x < y < |vals|
      ensures vals[x] != vals[y]
    {
      var i := PutHasPlace(log, n, x);
      var j := PutHasPlace(log, n, y);
      var a, b := s.h.owners[i], s.h.owners[j];
      assert s.h.entry[a] == i && s.h.entry[b] == j;
    }
    forall e | e in log && e.op.name == n
      ensures e.op.Put?
    {
      var i :| 0 <= i < |log| && log[i] == e;
      assert s.h.owners[i] in s.h.entry;
    }
  }

  // Each acknowledged Put got the number of its own value.
  predicate OwnNumber(op: Op, out: Outcome, vals: seq<Bytes>) {
    op.Put? && out.Assigned? && 1 <= out.version <= |vals| && vals[out.version - 1] == op.value
  }

  lemma PutKnowsItsNumber(t: State, m: Secrets, n: string, id: nat)
    requires LogFits(t) && Explains(m, t.h.log) && n !in m && n != "" && !Reserved(n)
    requires Distinct(PutValues(t.h.log, n)) && |PutValues(t.h.log, n)| <= MAX_VERSION
    requires forall e | e in t.h.log && e.op.name == n :: e.op.Put?
    requires Writing(t.sys, id) && t.sys.threads[id].op.name == n && TookEffect(t.sys.threads[id].w).Some?
    ensures OwnNumber(t.sys.threads[id].op, TookEffect(t.sys.threads[id].w).value, PutValues(t.h.log, n))
  {
    PutsAreNumbered(m, t.h.log, n, t.h.entry[id]);
  }

  lemma NumberHasItsPut(t: State, m: Secrets, n: string, k: nat) returns (id: nat)
    requires LogFits(t) && Explains(m, t.h.log) && n !in m && n != "" && !Reserved(n)
    requires Distinct(PutValues(t.h.log, n)) && k < |PutValues(t.h.log, n)| <= MAX_VERSION
    requires forall e | e in t.h.log && e.op.name == n :: e.op.Put?
    ensures PutAt(t.sys, id, n, PutValues(t.h.log, n), k)
  {
    var i := PutHasPlace(t.h.log, n, k);
    PutsAreNumbered(m, t.h.log, n, i);
    id := t.h.owners[i];
    assert id in t.h.entry && t.h.entry[id] == i;
  }

  // Thread id's Put is the k-th one, counting from 0.
  predicate PutAt(s: System, id: nat, n: string, vals: seq<Bytes>, k: nat) {
    && Writing(s, id) && k < |vals| && k < MAX_VERSION
    && s.threads[id].op == Put(n, vals[k]) && TookEffect(s.threads[id].w) == Some(Assigned(k + 1))
  }

  ghost predicate HasPut(s: System, n: string, vals: seq<Bytes>, k: nat) {
    exists id :: PutAt(s, id, n, vals, k)
  }

  // The acknowledged Puts to n are numbered 1, 2, ... without gap or repetition, each holding its own
  // value, and version 1 is active.
  ghost predicate PutsLanded(t: State, n: string) {
    var vals := PutValues(t.h.log, n);
    && HoldsPuts(t.sys.inner, n, vals) && Distinct(vals)
    && (forall id | Writing(t.sys, id) && t.sys.threads[id].op.name == n && TookEffect(t.sys.threads[id].w).Some? ::
          OwnNumber(t.sys.threads[id].op, TookEffect(t.sys.threads[id].w).value, vals))
    && (forall k | 0 <= k < |vals| :: HasPut(t.sys, n, vals, k))
  }

  lemma DistinctPutsLand(t: State, m: Secrets, n: string)
    requires LogFits(t) && Explains(m, t.h.log) && t.sys.inner == After(m, t.h.log)
    requires n !in m && n != "" && !Reserved(n)
    requires Distinct(PutValues(t.h.log, n)) && |PutValues(t.h.log, n)| <= MAX_VERSION
    requires forall e | e in t.h.log && e.op.name == n :: e.op.Put?
    ensures PutsLanded(t, n)
  {
    var vals := PutValues(t.h.log, n);
    DistinctPuts(m, t.h.log, n);
    forall id | Writing(t.sys, id) && t.sys.threads[id].op.name == n && TookEffect(t.sys.threads[id].w).Some?
      ensures OwnNumber(t.sys.threads[id].op, TookEffect(t.sys.threads[id].w).value, vals)
    {
      PutKnowsItsNumber(t, m, n, id);
    }
    forall k | 0 <= k < |vals|
      ensures HasPut(t.sys, n, vals, k)
    {
      var id := NumberHasItsPut(t, m, n, k);
    }
  }

  // Concurrent Puts of pairwise distinct values to a fresh name, whatever else the service does
  // meanwhile: in every reachable state the acknowledged ones hold exactly the versions 1..k.
  lemma ConcurrentPuts(m: Secrets, ttl: int, now: int, steps: seq<Step>, n: string)
    requires Possible(Init(m, ttl, now), steps) && n !in m && n != "" && !Reserved(n)
    requires OnlyDistinctPuts(Run(Init(m, ttl, now), steps).sys, n)
    requires |PutValues(Run(Init(m, ttl, now), steps).h.log, n)| <= MAX_VERSION
    ensures PutsLanded(Run(Init(m, ttl, now), steps), n)
  {
    var s := Init(m, ttl, now);
    InitFits(m, ttl, now);
    RunKeeps(s, steps);
    WritesAreSerial(m, ttl, now, steps);
    PutsStayDistinct(Run(s, steps), n);
    DistinctPutsLand(Run(s, steps), m, n);
  }
}
