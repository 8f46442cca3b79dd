/** The cache warmer (backend/cache/warmer.go): per-key refresh deadlines and a periodic relist, raced
    against the cache's jittered lifetimes (backend/cache/cache.go). The endless loop is a timed step
    system; the helpers that change the deadline map are methods of `Warmer`. Times are nanoseconds. */
module Warmer {
  import opened Wrappers
  import opened ReadCache

  const RETRY_GAP_CAP := 5_000_000_000

  // Three quarters of the lifetime, cut to a whole number; not positive when the lifetime is not.
  function RefreshAhead(ttl: int): int {
    if ttl < 0 then -(3 * -ttl / 4) else 3 * ttl / 4
  }

  function RetryGap(ttl: int): int {
    Min(RETRY_GAP_CAP, RefreshAhead(ttl) / 3)
  }

  // The least lifetime jitter can give an entry.
  function LeastLife(ttl: int): int {
    ttl - ttl / JITTER_FRAC
  }

  // How one forced Load of the warmer can end.
  datatype Outcome = Warmed | NotFound | RateLimited | Transient | Permanent

  type Deadlines = map<string, int>

  function Reconciled(next: Deadlines, names: set<string>, now: int): Deadlines {
    map n | n in names :: if n in next then next[n] else now
  }

  function Rescheduled(next: Deadlines, name: string, outcome: Outcome, ttl: int, now: int): Deadlines {
    match outcome
    case NotFound => next - {name}
    case Transient => next[name := now + RetryGap(ttl)]
    case _ => next[name := now + RefreshAhead(ttl)]
  }

  function Primed(next: Deadlines, now: int): Deadlines {
    map n | n in next :: now
  }

  ghost predicate IsEarliest(next: Deadlines, relistAt: int, t: int) {
    && t <= relistAt && (forall n | n in next :: t <= next[n])
    && (t == relistAt || exists n :: n in next && next[n] == t)
  }

  // --- the loop as a timed step system ---

  // One forced Load of the warmer: the sequence number it was begun under, whether the key has been stored
  // since, by anyone, and what the inner backend answered, once it has.
  datatype Fetch = Fetch(name: string, since: int, at: nat, renewed: bool, answer: Option<Outcome>)

  // Top: the head of the loop, after `tried` failed relists. Pausing: the wait after one of them. Pass: some
  // keys are still to be looked at. Warming: inside the forced Load of one key. Idle: in the select, with the
  // timer set for `due`.
  datatype Phase =
    | Top(tried: nat) | Listing(since: int, tried: nat) | Pausing(since: int, tried: nat)
    | Pass(todo: set<string>) | Warming(fetch: Fetch, todo: set<string>) | Idle(entered: int, due: int)

  // A client's fetch that has been applied to the cache, under its present sequence number, but not yet ended;
  // a forced Load may still join it.
  datatype Landing = Landing(at: int, found: bool)

  // entries: the expiry of each resident record. misses: for each key in the warmer's care, that is warmed and
  // not since delisted, found missing, deleted or purged, its failed refreshes since it was last stored.
  datatype State = State(now: int, phase: Phase, next: Deadlines, relistAt: int, seqno: nat,
                         entries: map<string, int>, misses: map<string, nat>, landings: map<string, Landing>)

  datatype Step =
    | Tick(d: nat)
    | StartList | NoList | ListFailed | Resume | Listed(names: set<string>)
    | Skip(name: string) | Begin(name: string) | Join(name: string) | Answer(outcome: Outcome, jitter: int) | Finish
    | Rest(due: int) | Wake | Reprime
    | Saved(name: string, jitter: int) | Dropped(names: set<string>)
    | ReadFill(name: string, jitter: int) | ReadDenied(name: string) | ReadEnds(name: string)
    | PushOut(names: set<string>)

  // What the code, or another user of the cache, can do next; nothing when the cadence is not positive.
  // Dropped stands for Delete, Remove and Purge; ReadFill and ReadDenied for a client's own fetch, applied
  // under a current sequence number, and ReadEnds for its end; PushOut for the LRU's capacity.
  ghost predicate Enabled(ttl: int, s: State, step: Step) {
    RefreshAhead(ttl) > 0 &&
    match step
    case Tick(_) => true
    case StartList => s.phase.Top? && s.now >= s.relistAt
    case NoList => s.phase.Top? && s.now < s.relistAt
    case ListFailed => s.phase.Listing?
    case Resume => s.phase.Pausing?
    case Listed(_) => s.phase.Listing?
    case Skip(n) => s.phase.Pass? && n in s.phase.todo && n in s.next && s.now < s.next[n]
    case Begin(n) => s.phase.Pass? && n in s.phase.todo && n in s.next && s.next[n] <= s.now
    case Join(n) => s.phase.Pass? && n in s.phase.todo && n in s.next && s.next[n] <= s.now && n in s.landings
    case Answer(_, j) => s.phase.Warming? && s.phase.fetch.answer.None? && JitterInRange(ttl, j)
    case Finish => s.phase.Warming? && s.phase.fetch.answer.Some?
    case Rest(due) => s.phase == Pass({}) && IsEarliest(s.next, s.relistAt, due)
    case Wake => s.phase.Idle? && s.now >= s.phase.due
    case Reprime => s.phase.Idle?
    case Saved(_, j) => JitterInRange(ttl, j)
    case Dropped(_) => true
    case ReadFill(_, j) => JitterInRange(ttl, j)
    case ReadDenied(_) => true
    case ReadEnds(n) => n in s.landings
    case PushOut(_) => true
  }

  function Expiry(ttl: int, now: int, jitter: int): int
    requires ttl > 0
  {
    ExpiresAt(ttl, now, jitter).value
  }

  // The running fetch of n, if it is one, has seen n stored.
  function Noticed(p: Phase, n: string): Phase {
    if p.Warming? && p.fetch.name == n then p.(fetch := p.fetch.(renewed := true)) else p
  }

  // Somebody stored n: its entry starts a new life.
  function Renewed(s: State, n: string, expiry: int): State {
    s.(phase := Noticed(s.phase, n), entries := s.entries[n := expiry],
       misses := if n in s.misses then s.misses[n := 0] else s.misses, landings := s.landings - {n})
  }

  function Released(s: State, names: set<string>): State {
    s.(entries := s.entries - names, misses := s.misses - names, landings := s.landings - names)
  }

  // The sequence number moves on: nobody joins a fetch begun before.
  function Bumped(s: State, count: nat): State {
    s.(seqno := s.seqno + count, landings := if count > 0 then map[] else s.landings)
  }

  function AfterListing(ttl: int, s: State, names: set<string>): State {
    var gone := s.next.Keys - names;
    Bumped(Released(s, gone), |gone|).(phase := Pass(names), next := Reconciled(s.next, names, s.now),
                                       relistAt := s.now + RefreshAhead(ttl))
  }

  function Taken(s: State, n: string): State
    requires s.phase.Pass?
  {
    s.(phase := Warming(Fetch(n, s.now, s.seqno, false, None), s.phase.todo - {n}))
  }

  // The forced Load shares the answer of a client's fetch that the cache has already taken in.
  function Joined(s: State, n: string): State
    requires s.phase.Pass? && n in s.landings
  {
    var found := s.landings[n].found;
    var t := s.(phase := Warming(Fetch(n, s.now, s.seqno, found && n in s.entries, Some(if found then Warmed else NotFound)),
                                 s.phase.todo - {n}));
    if found && n in s.entries then t.(misses := s.misses[n := 0]) else t
  }

  // The inner backend's answer reaches the cache, which ignores it after a bump.
  function Answered(ttl: int, s: State, out: Outcome, jitter: int): State
    requires s.phase.Warming? && ttl > 0
  {
    var n := s.phase.fetch.name;
    var t := s.(phase := s.phase.(fetch := s.phase.fetch.(answer := Some(out))));
    if s.phase.fetch.at != s.seqno then t
    else if out.Warmed? then
      var u := Renewed(t, n, Expiry(ttl, s.now, jitter));
      u.(misses := u.misses[n := 0])
    else if out.NotFound? then Released(t, {n})
    else t
  }

  // The loop takes note of the outcome, whether or not the cache did.
  function Noted(misses: map<string, nat>, n: string, out: Outcome): map<string, nat> {
    if out.NotFound? then misses - {n}
    else if n in misses && !out.Warmed? then misses[n := misses[n] + 1]
    else misses
  }

  function Settled(ttl: int, s: State): State
    requires s.phase.Warming? && s.phase.fetch.answer.Some?
  {
    var f := s.phase.fetch;
    s.(phase := Pass(s.phase.todo), next := Rescheduled(s.next, f.name, f.answer.value, ttl, s.now),
       misses := Noted(s.misses, f.name, f.answer.value))
  }

  function SavedOver(ttl: int, s: State, n: string, jitter: int): State
    requires ttl > 0
  {
    Bumped(Renewed(s, n, Expiry(ttl, s.now, jitter)), 1)
  }

  function Filled(ttl: int, s: State, n: string, jitter: int): State
    requires ttl > 0
  {
    Renewed(s, n, Expiry(ttl, s.now, jitter)).(landings := s.landings[n := Landing(s.now, true)])
  }

  function Denied(s: State, n: string): State {
    Released(s, {n}).(landings := s.landings[n := Landing(s.now, false)])
  }

  function Next(ttl: int, s: State, step: Step): State
    requires Enabled(ttl, s, step)
  {
    match step
    case Tick(d) => s.(now := s.now + d)
    case StartList => s.(phase := Listing(s.now, s.phase.tried))
    case NoList => s.(phase := Pass(s.next.Keys))
    case ListFailed => s.(phase := Pausing(s.now, s.phase.tried + 1))
    case Resume => s.(phase := Top(s.phase.tried))
    case Listed(names) => AfterListing(ttl, s, names)
    case Skip(n) => s.(phase := Pass(s.phase.todo - {n}))
    case Begin(n) => Taken(s, n)
    case Join(n) => Joined(s, n)
    case Answer(out, j) => Answered(ttl, s, out, j)
    case Finish => Settled(ttl, s)
    case Rest(due) => s.(phase := Idle(s.now, due))
    case Wake => s.(phase := Top(0))
    case Reprime => s.(phase := Top(0), next := Primed(s.next, s.now), relistAt := s.now)
    case Saved(n, j) => SavedOver(ttl, s, n, j)
    case Dropped(names) => Bumped(Released(s, names), 1)
    case ReadFill(n, j) => Filled(ttl, s, n, j)
    case ReadDenied(n) => Denied(s, n)
    case ReadEnds(n) => s.(landings := s.landings - {n})
    case PushOut(names) => s.(entries := s.entries - names)
  }

  function Start(now: int): State {
    State(now, Top(0), map[], now, 0, map[], map[], map[])
  }

  // --- runs ---

  ghost predicate Able(ttl: int, s: State, steps: seq<Step>)
    decreases |steps|
  {
    steps == [] || (Enabled(ttl, s, steps[0]) && Able(ttl, Next(ttl, s, steps[0]), steps[1..]))
  }

  ghost function Run(ttl: int, s: State, steps: seq<Step>): State
    requires Able(ttl, s, steps)
    decreases |steps|
  {
    if steps == [] then s else Run(ttl, Next(ttl, s, steps[0]), steps[1..])
  }

  // --- in place ---

  function Members(names: seq<string>): set<string> {
    set n | n in names
  }

  // Of the names looked at so far, those that are not live.
  function GoneSoFar(all: set<string>, left: set<string>, live: set<string>): set<string> {
    all - left - live
  }

  lemma NoneGone(was: Deadlines, cache: CacheState, live: set<string>)
    ensures GoneSoFar(was.Keys, was.Keys, live) == {} && was - {} == was && AllRemoved(cache, {}) == cache
    ensures GoneSoFar(was.Keys, {}, live) == was.Keys - live
  {
    assert cache.recs - {} == cache.recs;
  }

  lemma OneMoreGone(all: set<string>, left: set<string>, live: set<string>, n: string)
    requires n in left && left <= all
    ensures n !in GoneSoFar(all, left, live)
    ensures GoneSoFar(all, left - {n}, live) == GoneSoFar(all, left, live) + if n in live then {} else {n}
  {}

  // One Remove for each of the names.
  function AllRemoved(c: CacheState, gone: set<string>): CacheState {
    c.(seqno := c.seqno + |gone|, recs := c.recs - gone)
  }

  lemma OneMoreRemoved(c: CacheState, c0: CacheState, gone: set<string>, n: string)
    requires c == AllRemoved(c0, gone) && n !in gone
    ensures Removed(c, n) == AllRemoved(c0, gone + {n})
  {
    assert c0.recs - gone - {n} == c0.recs - (gone + {n});
  }

  class Warmer {
    const ttl: int
    const c: Cache
    var next: Deadlines
    var relistAt: int

    constructor (c: Cache, now: int)
      ensures this.c == c && ttl == c.ttl && next == map[] && relistAt == now
    {
      this.c, ttl, next, relistAt := c, c.ttl, map[], now;
    }

    method Earliest() returns (soonest: int)
      ensures IsEarliest(next, relistAt, soonest)
    {
      soonest := relistAt;
      var left := next.Keys;
      while left != {}
        invariant left <= next.Keys
        invariant soonest <= relistAt && forall n | n in next.Keys - left :: soonest <= next[n]
        invariant soonest == relistAt || exists n :: n in next && next[n] == soonest
        decreases |left|
      {
        var n :| n in left;
        left := left - {n};
        if next[n] < soonest {
          soonest := next[n];
        }
      }
    }

    // The first loop of reconcile: new names fall due at once.
    method Admit(names: seq<string>, now: int) returns (live: set<string>)
      modifies this`next
      ensures live == Members(names) && next.Keys == old(next).Keys + live
      ensures forall n | n in next :: next[n] == if n in old(next) then old(next)[n] else now
    {
      live := {};
      var i := 0;
      while i < |names|
        invariant i <= |names| && live == Members(names[..i])
        invariant next.Keys == old(next).Keys + live
        invariant forall n | n in next :: next[n] == if n in old(next) then old(next)[n] else now
      {
        assert names[..i + 1] == names[..i] + [names[i]];
        live := live + {names[i]};
        if names[i] !in next {
          next := next[names[i] := now];
        }
        i := i + 1;
      }
      assert names[..i] == names;
    }

    // The names in gone have been dropped, and nothing else.
    ghost predicate Discharged(was: Deadlines, cache: CacheState, gone: set<string>)
      reads this, c
    {
      next == was - gone && c.State() == AllRemoved(cache, gone)
    }

    method Drop(n: string, ghost was: Deadlines, ghost cache: CacheState, ghost gone: set<string>)
      requires Discharged(was, cache, gone) && n !in gone
      modifies this`next, c`seqno, c`recs
      ensures Discharged(was, cache, gone + {n})
    {
      next := next - {n};
      OneMoreRemoved(c.State(), cache, gone, n);
      c.Remove(n);
      assert was - gone - {n} == was - (gone + {n});
    }

    // The second loop: names that are gone are dropped, from the cache too.
    method Discharge(live: set<string>)
      modifies this`next, c`seqno, c`recs
      ensures next == old(next) - (old(next).Keys - live)
      ensures c.State() == AllRemoved(old(c.State()), old(next).Keys - live)
    {
      var left := next.Keys;
      ghost var was, cache, gone := next, c.State(), {};
      NoneGone(was, cache, live);
      while left != {}
        invariant left <= was.Keys && gone == GoneSoFar(was.Keys, left, live)
        invariant Discharged(was, cache, gone)
        decreases left
      {
        var n :| n in left;
        OneMoreGone(was.Keys, left, live, n);
        left := left - {n};
        if n !in live {
          Drop(n, was, cache, gone);
          gone := gone + {n};
        }
      }
    }

    // Only names in the listing keep a deadline; the rest leave the cache, its sequence number moving on
    // once for each.
    method Reconcile(names: seq<string>, now: int)
      modifies this`next, c`seqno, c`recs
      ensures next == Reconciled(old(next), Members(names), now)
      ensures c.State() == AllRemoved(old(c.State()), old(next).Keys - Members(names))
    {
      var live := Admit(names, now);
      assert next.Keys - live == old(next).Keys - live;
      Discharge(live);
    }

    // What the loop does with the outcome of one forced Load.
    method Settle(name: string, outcome: Outcome, now: int)
      modifies this`next
      ensures next == Rescheduled(old(next), name, outcome, ttl, now)
    {
      match outcome
      case Warmed => next := next[name := now + RefreshAhead(ttl)];
      case NotFound => next := next - {name};
      case RateLimited => next := next[name := now + RefreshAhead(ttl)];
      case Transient => next := next[name := now + RetryGap(ttl)];
      case Permanent => next := next[name := now + RefreshAhead(ttl)];
    }

    // A flush makes every key and the relist due at once.
    method PrimeAll(now: int)
      modifies this`next, this`relistAt
      ensures next == Primed(old(next), now) && relistAt == now
    {
      var left := next.Keys;
      while left != {}
        invariant left <= next.Keys == old(next).Keys
        invariant forall n | n in next :: next[n] == if n in left then old(next)[n] else now
        decreases |left|
      {
        var n :| n in left;
        left := left - {n};
        next := next[n := now];
      }
      relistAt := now;
    }
  }
}
