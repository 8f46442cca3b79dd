/** The expiring read cache (backend/cache/cache.go). `CacheState` and the functions on it say what
    each critical section does; the class `Cache` carries them out in place. The clock, the jitter and
    the inner backend's outages are parameters. Times are in nanoseconds. */
module ReadCache {
  import opened Wrappers
  import opened Records

  // What a reader can ask for: one record, or the list of names.
  datatype Target = RecordOf(name: string) | AllNames

  datatype Answer = Found(record: Record) | Missing | Names(names: set<string>)

  // backend.ErrUnavailable, or any other failure of the inner backend.
  datatype Failure = Unavailable | Broken

  datatype Reply = Got(answer: Answer) | Failed(failure: Failure)

  // The truth: what the bare map answers.
  function View(m: Secrets, t: Target): Answer {
    match t
    case RecordOf(n) => if n in m then Found(m[n]) else Missing
    case AllNames => Names(m.Keys)
  }

  const JITTER_FRAC := 5
  const NEG_TTL_CAP := 30_000_000_000

  // No expiry stands for the zero time. A record entry without a value is a cached negative.
  datatype Entry<+T> = Entry(val: T, expires: Option<int>)

  datatype CacheState = CacheState(ttl: int, seqno: nat, recs: map<string, Entry<Option<Record>>>,
                                   names: Option<Entry<set<string>>>)

  predicate JitterInRange(ttl: int, jitter: int) {
    ttl > 0 ==> 0 <= jitter <= 2 * (ttl / JITTER_FRAC)
  }

  function ExpiresAt(ttl: int, now: int, jitter: int): Option<int> {
    if ttl <= 0 then None else Some(now + ttl + jitter - ttl / JITTER_FRAC)
  }

  predicate Live(expires: Option<int>, now: int) {
    expires.None? || now < expires.value
  }

  function Min(a: int, b: int): int {
    if a < b then a else b
  }

  function StoreRecord(c: CacheState, name: string, r: Record, seqno: nat, now: int, jitter: int): CacheState {
    if c.seqno == seqno then c.(recs := c.recs[name := Entry(Some(r), ExpiresAt(c.ttl, now, jitter))]) else c
  }

  function StoreNegative(c: CacheState, name: string, seqno: nat, now: int): CacheState {
    if c.seqno != seqno then c
    else if c.ttl <= 0 then c.(recs := c.recs - {name})
    else c.(recs := c.recs[name := Entry(None, Some(now + Min(c.ttl / 10, NEG_TTL_CAP)))])
  }

  function StoreNames(c: CacheState, names: set<string>, seqno: nat, now: int, jitter: int): CacheState {
    if c.seqno == seqno then c.(names := Some(Entry(names, ExpiresAt(c.ttl, now, jitter)))) else c
  }

  // The critical section that ends a Save.
  function Saved(c: CacheState, name: string, r: Record, now: int, jitter: int): CacheState {
    c.(seqno := c.seqno + 1, recs := c.recs[name := Entry(Some(r), ExpiresAt(c.ttl, now, jitter))], names := None)
  }

  function Removed(c: CacheState, name: string): CacheState {
    c.(seqno := c.seqno + 1, recs := c.recs - {name})
  }

  // The second critical section of a Delete.
  function NamesDropped(c: CacheState): CacheState {
    c.(names := None)
  }

  function Purged(c: CacheState): CacheState {
    c.(seqno := c.seqno + 1, recs := map[], names := None)
  }

  // The LRU may push out any records to stay within its capacity.
  function Evicted(c: CacheState, names: set<string>): CacheState {
    c.(recs := c.recs - names)
  }

  // What is resident for a target, expired or not.
  function Resident(c: CacheState, t: Target): Option<Entry<Answer>> {
    match t
    case RecordOf(n) =>
      if n !in c.recs then None
      else if c.recs[n].val.None? then Some(Entry(Missing, c.recs[n].expires))
      else Some(Entry(Found(c.recs[n].val.value), c.recs[n].expires))
    case AllNames =>
      if c.names.None? then None else Some(Entry(Names(c.names.value.val), c.names.value.expires))
  }

  function Hit(c: CacheState, t: Target, now: int): Option<Answer> {
    var e := Resident(c, t);
    if e.Some? && Live(e.value.expires, now) then Some(e.value.val) else None
  }

  // What an ordinary read may fall back on in an outage: any resident value, never a negative.
  function Fallback(c: CacheState, t: Target): Option<Answer> {
    var e := Resident(c, t);
    if e.Some? && !e.value.val.Missing? then Some(e.value.val) else None
  }

  // What a finished fetch does to the cache, under the sequence number it was begun with.
  function Settle(c: CacheState, t: Target, seqno: nat, reply: Reply, now: int, jitter: int): CacheState
    requires reply.Got? ==> Matches(t, reply.answer)
  {
    match reply
    case Failed(_) => c
    case Got(Found(r)) => StoreRecord(c, t.name, r, seqno, now, jitter)
    case Got(Missing) => StoreNegative(c, t.name, seqno, now)
    case Got(Names(ns)) => StoreNames(c, ns, seqno, now, jitter)
  }

  predicate Matches(t: Target, a: Answer) {
    t.AllNames? <==> a.Names?
  }

  // What the caller of Load or List gets once the fetch it waited on has finished.
  function Delivered(c: CacheState, t: Target, force: bool, reply: Reply): Reply {
    if reply == Failed(Unavailable) && !force && Fallback(c, t).Some? then Got(Fallback(c, t).value) else reply
  }

  // Every resident answer is the bare map's answer.
  ghost predicate Coherent(c: CacheState, m: Secrets) {
    forall t: Target | Resident(c, t).Some? :: Resident(c, t).value.val == View(m, t)
  }

  class Cache {
    const ttl: int
    var seqno: nat
    var recs: map<string, Entry<Option<Record>>>
    var names: Option<Entry<set<string>>>
    var inner: Secrets

    constructor (ttl: int, inner: Secrets)
      ensures State() == CacheState(ttl, 0, map[], None) && this.inner == inner
    {
      this.ttl, this.inner, seqno, recs, names := ttl, inner, 0, map[], None;
    }

    function State(): CacheState
      reads this
    {
      CacheState(ttl, seqno, recs, names)
    }

    // One call to the inner backend's Load or List.
    method Fetch(t: Target, outage: Option<Failure>) returns (reply: Reply)
      ensures reply == if outage.Some? then Failed(outage.value) else Got(View(inner, t))
    {
      if outage.Some? {
        return Failed(outage.value);
      }
      match t
      case RecordOf(n) =>
        if n in inner {
          return Got(Found(inner[n]));
        }
        return Got(Missing);
      case AllNames =>
        return Got(Names(inner.Keys));
    }

    method Store(name: string, r: Record, at: nat, now: int, jitter: int)
      modifies this`recs
      ensures State() == StoreRecord(old(State()), name, r, at, now, jitter)
    {
      if seqno == at {
        recs := recs[name := Entry(Some(r), ExpiresAt(ttl, now, jitter))];
      }
    }

    method StoreNotFound(name: string, at: nat, now: int)
      modifies this`recs
      ensures State() == StoreNegative(old(State()), name, at, now)
    {
      if seqno != at {
        return;
      }
      if ttl <= 0 {
        recs := recs - {name};
        return;
      }
      recs := recs[name := Entry(None, Some(now + Min(ttl / 10, NEG_TTL_CAP)))];
    }

    // Load with no other caller in the way.
    method Load(name: string, force: bool, now: int, jitter: int, outage: Option<Failure>) returns (reply: Reply)
      modifies this`recs
      ensures old(Coherent(State(), inner)) ==> Coherent(State(), inner)
      ensures !force && old(Hit(State(), RecordOf(name), now)).Some? ==>
                reply == Got(old(Hit(State(), RecordOf(name), now)).value) && State() == old(State())
      ensures force || old(Hit(State(), RecordOf(name), now)).None? ==>
                var fetched := if outage.Some? then Failed(outage.value) else Got(View(inner, RecordOf(name)));
                && State() == Settle(old(State()), RecordOf(name), old(seqno), fetched, now, jitter)
                && reply == Delivered(old(State()), RecordOf(name), force, fetched)
      ensures old(Coherent(State(), inner)) && reply.Got? ==> reply.answer == View(inner, RecordOf(name))
      ensures var was := old(recs);
              reply ==
              if !force && name in was && (was[name].expires.None? || now < was[name].expires.value) then
                Got(if was[name].val.None? then Missing else Found(was[name].val.value))
              else if outage.None? then Got(if name in inner then Found(inner[name]) else Missing)
              else if !force && outage.value.Unavailable? && name in was && was[name].val.Some? then
                Got(Found(was[name].val.value))
              else Failed(outage.value)
    {
      if !force && name in recs && Live(recs[name].expires, now) {
        if recs[name].val.None? {
          return Got(Missing);
        }
        return Got(Found(recs[name].val.value));
      }
      var at := seqno;
      reply := Fetch(RecordOf(name), outage);
      match reply
      case Got(Missing) => StoreNotFound(name, at, now);
      case Got(Found(r)) => Store(name, r, at, now, jitter);
      case Got(_) =>
      case Failed(f) =>
        if !force && f == Unavailable && name in recs && recs[name].val.Some? {
          reply := Got(Found(recs[name].val.value));
        }
    }

    // List with no other caller in the way.
    method List(force: bool, now: int, jitter: int, outage: Option<Failure>) returns (reply: Reply)
      modifies this`names
      ensures old(Coherent(State(), inner)) ==> Coherent(State(), inner)
      ensures !force && old(Hit(State(), AllNames, now)).Some? ==>
                reply == Got(old(Hit(State(), AllNames, now)).value) && State() == old(State())
      ensures force || old(Hit(State(), AllNames, now)).None? ==>
                var fetched := if outage.Some? then Failed(outage.value) else Got(View(inner, AllNames));
                && State() == Settle(old(State()), AllNames, old(seqno), fetched, now, jitter)
                && reply == Delivered(old(State()), AllNames, force, fetched)
      ensures old(Coherent(State(), inner)) && reply.Got? ==> reply.answer == View(inner, AllNames)
      ensures var was := old(names);
              reply ==
              if !force && was.Some? && (was.value.expires.None? || now < was.value.expires.value) then Got(Names(was.value.val))
              else if outage.None? then Got(Names(inner.Keys))
              else if !force && outage.value.Unavailable? && was.Some? then Got(Names(was.value.val))
              else Failed(outage.value)
    {
      if !force && names.Some? && Live(names.value.expires, now) {
        return Got(Names(names.value.val));
      }
      var at := seqno;
      reply := Fetch(AllNames, outage);
      if reply.Got? {
        if seqno == at {
          names := Some(Entry(inner.Keys, ExpiresAt(ttl, now, jitter)));
        }
      } else if !force && reply.failure == Unavailable && names.Some? {
        reply := Got(Names(names.value.val));
      }
    }

    // Save, given whether the inner backend refused it.
    method Save(name: string, r: Record, now: int, jitter: int, outage: Option<Failure>) returns (err: Option<Failure>)
      modifies this
      ensures err == outage
      ensures err.Some? ==> inner == old(inner) && State() == old(State())
      ensures err.None? ==> inner == old(inner)[name := r] && State() == Saved(old(State()), name, r, now, jitter)
      ensures old(Coherent(State(), inner)) ==> Coherent(State(), inner)
    {
      if outage.Some? {
        return outage;
      }
      inner := inner[name := r];
      seqno := seqno + 1;
      recs := recs[name := Entry(Some(r), ExpiresAt(ttl, now, jitter))];
      names := None;
      err := None;
      CoherentAfterSave(old(State()), old(inner), name, r, now, jitter);
    }

    method Delete(name: string, outage: Option<Failure>) returns (err: Option<Failure>)
      modifies this
      ensures err == outage
      ensures err.Some? ==> inner == old(inner) && State() == old(State())
      ensures err.None? ==> inner == old(inner) - {name} && State() == NamesDropped(Removed(old(State()), name))
      ensures old(Coherent(State(), inner)) ==> Coherent(State(), inner)
    {
      if outage.Some? {
        return outage;
      }
      inner := inner - {name};
      Remove(name);
      names := None;
      err := None;
      CoherentAfterDelete(old(State()), old(inner), name);
    }

    method Remove(name: string)
      modifies this`seqno, this`recs
      ensures State() == Removed(old(State()), name)
    {
      seqno := seqno + 1;
      recs := recs - {name};
    }

    method Purge()
      modifies this`seqno, this`recs, this`names
      ensures State() == Purged(old(State()))
    {
      seqno := seqno + 1;
      recs := map[];
      names := None;
    }
  }

  // With expiry on, the lifetimes an entry can get are exactly those within a fifth of the base lifetime.
  lemma LifetimeIsJittered(ttl: int, now: int, life: int)
    requires ttl > 0
    ensures (exists j | JitterInRange(ttl, j) :: ExpiresAt(ttl, now, j) == Some(now + life))
            <==> ttl - ttl / JITTER_FRAC <= life <= ttl + ttl / JITTER_FRAC
  {
    if ttl - ttl / JITTER_FRAC <= life <= ttl + ttl / JITTER_FRAC {
      var j := life - ttl + ttl / JITTER_FRAC;
      assert JitterInRange(ttl, j) && ExpiresAt(ttl, now, j) == Some(now + life);
    }
  }

  // A confirmed not-found under a current sequence number leaves nothing to fall back on, is answered
  // from the cache only while brief, and without expiry not at all.
  lemma NegativeIsBrief(c: CacheState, name: string, now: int, later: int)
    ensures var c' := StoreNegative(c, name, c.seqno, now);
            && Fallback(c', RecordOf(name)).None?
            && (Hit(c', RecordOf(name), later).Some? ==>
                  && Hit(c', RecordOf(name), later) == Some(Missing) && c.ttl > 0
                  && later - now < NEG_TTL_CAP && 10 * (later - now) < c.ttl)
            && (forall t | t != RecordOf(name) :: Resident(c', t) == Resident(c, t))
  {}

  lemma CoherentAfterSave(c: CacheState, m: Secrets, name: string, r: Record, now: int, jitter: int)
    ensures Coherent(c, m) ==> Coherent(Saved(c, name, r, now, jitter), m[name := r])
  {
    var c', m' := Saved(c, name, r, now, jitter), m[name := r];
    if Coherent(c, m) {
      forall t: Target | Resident(c', t).Some?
        ensures Resident(c', t).value.val == View(m', t)
      {
        assert t != RecordOf(name) ==> Resident(c', t) == Resident(c, t);
      }
    }
  }

  lemma CoherentAfterDelete(c: CacheState, m: Secrets, name: string)
    ensures Coherent(c, m) ==> Coherent(NamesDropped(Removed(c, name)), m - {name})
  {
    var c', m' := NamesDropped(Removed(c, name)), m - {name};
    if Coherent(c, m) {
      forall t: Target | Resident(c', t).Some?
        ensures Resident(c', t).value.val == View(m', t)
      {
        assert Resident(c', t) == Resident(c, t);
      }
    }
  }
}
