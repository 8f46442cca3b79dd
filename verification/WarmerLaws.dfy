/** What the warmer promises (backend/cache/warmer.go): how late a refresh can be, when it is early enough,
    exactly which mishaps let a key go cold, and when a secret deleted elsewhere leaves the cache. */
module WarmerLaws {
  import opened Wrappers
  import opened ReadCache
  import opened Warmer

  // --- what the environment is assumed to keep to ---

  // At most `keys` names; one forced Load takes at most `call`, one relist at most `list`, the wait after a
  // failed relist at most `pause`; a sleeping loop runs again at most `wake` after its timer; a client's fetch
  // ends at most `land` after it was applied. At most `relists` relists and `retries` refreshes of one key fail
  // in a row. The last three say whether a refresh of a warmed key may be parked, whether its fill may be
  // discarded, and whether its entry may be pushed out.
  datatype Limits = Limits(ttl: int, keys: nat, call: nat, list: nat, pause: nat, wake: nat, land: nat, relists: nat,
                           retries: nat, parks: bool, discards: bool, evicts: bool)

  function Later(a: int, b: int): int {
    if a < b then b else a
  }

  // The phase leaves time for d more.
  predicate MayPass(lim: Limits, s: State, d: nat) {
    match s.phase
    case Listing(since, _) => s.now + d <= since + lim.list
    case Pausing(since, _) => s.now + d <= since + lim.pause
    case Warming(f, _) => s.now + d <= f.since + lim.call
    case Idle(entered, due) => s.now + d <= Later(entered, due) + lim.wake
    case _ => false
  }

  ghost predicate Kind(lim: Limits, s: State, step: Step) {
    match step
    case Tick(d) => MayPass(lim, s, d) && forall n | n in s.landings :: s.now + d <= s.landings[n].at + lim.land
    case ListFailed => s.phase.Listing? && s.phase.tried < lim.relists
    case Listed(names) => |names| <= lim.keys
    case Answer(out, _) => s.phase.Warming? && KindAnswer(lim, s, s.phase.fetch, out)
    case PushOut(names) => lim.evicts || names !! s.misses.Keys
    case _ => true
  }

  // A fill is discarded when the cache was changed under the fetch; that leaves the key unstored unless it was
  // the key itself that was stored meanwhile.
  ghost predicate KindAnswer(lim: Limits, s: State, f: Fetch, out: Outcome) {
    f.name in s.misses ==>
      match out
      case Warmed => lim.discards || f.at == s.seqno || f.renewed
      case NotFound => true
      case Transient => s.misses[f.name] < lim.retries
      case _ => lim.parks
  }

  ghost predicate AllKind(lim: Limits, s: State, steps: seq<Step>)
    requires Able(lim.ttl, s, steps)
    decreases |steps|
  {
    steps == [] || (Kind(lim, s, steps[0]) && AllKind(lim, Next(lim.ttl, s, steps[0]), steps[1..]))
  }

  // The time m forced Loads in a row may take.
  function Span(lim: Limits, m: nat): nat {
    if m == 0 then 0 else lim.call + Span(lim, m - 1)
  }

  // The time a relist may take when it may still fail n times.
  function Listings(lim: Limits, n: nat): nat {
    if n == 0 then lim.list else lim.list + lim.pause + Listings(lim, n - 1)
  }

  // From a deadline to the moment its key is taken up: the rest of the pass under way, the timer's
  // lateness, a relist, and the keys that come first in the next pass.
  function Lag(lim: Limits): nat {
    Span(lim, lim.keys) + lim.wake + Listings(lim, lim.relists) + Span(lim, lim.keys)
  }

  // What must be left of a lifetime when a refresh begins that may still fail n times.
  function Reserve(lim: Limits, n: nat): int {
    if n == 0 then lim.call + 1 else lim.call + RetryGap(lim.ttl) + Lag(lim) + Reserve(lim, n - 1)
  }

  // The latencies fit between the refresh cadence and the shortest lifetime, and nothing else goes wrong.
  predicate Fits(lim: Limits) {
    && RefreshAhead(lim.ttl) > 0 && !lim.parks && !lim.discards && !lim.evicts
    && lim.call + lim.land + RefreshAhead(lim.ttl) + Lag(lim) + Reserve(lim, lim.retries) <= LeastLife(lim.ttl)
  }

  // --- the invariant ---

  // The latest moment at which the key's next refresh may begin.
  function StartBy(lim: Limits, s: State, k: string): int
    requires k in s.entries && k in s.misses && s.misses[k] <= lim.retries
  {
    s.entries[k] - Reserve(lim, lim.retries - s.misses[k])
  }

  // From the head of the loop, or a wake-up, to the last key of the pass that follows.
  function Round(lim: Limits, tried: nat): nat {
    (if tried <= lim.relists then Listings(lim, lim.relists - tried) else 0) + Span(lim, lim.keys)
  }

  // A key already looked at in this pass can wait for the next pass.
  predicate CanWait(lim: Limits, passEnds: int, next: int, startBy: int) {
    Later(passEnds, next) + lim.wake + Round(lim, 0) <= startBy
  }

  predicate InTime(lim: Limits, s: State, k: string, startBy: int)
    requires k in s.next && k in s.entries
  {
    match s.phase
    case Top(tried) => s.now + Round(lim, tried) <= startBy
    case Listing(since, tried) => since + Round(lim, tried) <= startBy
    case Pausing(since, tried) => since + lim.pause + Round(lim, tried) <= startBy
    case Pass(todo) =>
      if k in todo then s.now + Span(lim, |todo|) <= startBy
      else CanWait(lim, s.now + Span(lim, |todo|), s.next[k], startBy)
    case Warming(f, todo) =>
      if k == f.name then (if f.renewed then f.since + LeastLife(lim.ttl) <= s.entries[k] + lim.land else f.since <= startBy)
      else if k in todo then f.since + Span(lim, |todo| + 1) <= startBy
      else CanWait(lim, f.since + Span(lim, |todo| + 1), s.next[k], startBy)
    case Idle(entered, due) => Later(entered, due) + lim.wake + Round(lim, 0) <= startBy
  }

  // What the running fetch of k has come to.
  predicate FetchFits(lim: Limits, s: State, k: string)
    requires k in s.misses
  {
    s.phase.Warming? && s.phase.fetch.name == k ==>
      var f := s.phase.fetch;
      && (f.renewed ==> s.misses[k] == 0)
      && match f.answer
         case Some(Warmed) => f.renewed
         case Some(Transient) => s.misses[k] < lim.retries
         case Some(RateLimited) => false
         case Some(Permanent) => false
         case _ => true
  }

  predicate KeyFits(lim: Limits, s: State, k: string) {
    && k in s.misses && k in s.next && k in s.entries && s.misses[k] <= lim.retries
    && FetchFits(lim, s, k)
    && s.next[k] <= s.now + RefreshAhead(lim.ttl)
    && (s.now < s.next[k] ==> s.next[k] + Lag(lim) <= StartBy(lim, s, k))
    && InTime(lim, s, k, StartBy(lim, s, k))
  }

  predicate PhaseFits(lim: Limits, s: State) {
    && |s.next| <= lim.keys
    && match s.phase
       case Top(tried) => tried <= lim.relists
       case Listing(since, tried) => tried <= lim.relists && since <= s.now <= since + lim.list
       case Pausing(since, tried) => 1 <= tried <= lim.relists && since <= s.now <= since + lim.pause
       case Pass(todo) => todo <= s.next.Keys && |todo| <= lim.keys
       case Warming(f, todo) =>
         && f.since <= s.now <= f.since + lim.call && f.name !in todo && f.name in s.next
         && s.next[f.name] <= f.since && todo <= s.next.Keys && |todo| + 1 <= lim.keys
       case Idle(entered, due) =>
         entered <= s.now <= Later(entered, due) + lim.wake && forall n | n in s.next :: due <= s.next[n]
  }

  // A fetch that may still be joined was applied not long ago.
  predicate LandingsFit(lim: Limits, s: State) {
    forall n | n in s.landings ::
      && s.landings[n].at <= s.now <= s.landings[n].at + lim.land
      && (s.landings[n].found && n in s.entries ==> s.landings[n].at + LeastLife(lim.ttl) <= s.entries[n])
      && (!s.landings[n].found ==> n !in s.entries)
  }

  ghost predicate Inv(lim: Limits, s: State) {
    PhaseFits(lim, s) && LandingsFit(lim, s) && forall k | k in s.misses :: KeyFits(lim, s, k)
  }

  lemma {:induction false} SpanGrows(lim: Limits, a: nat, b: nat)
    requires a <= b
    ensures Span(lim, a) <= Span(lim, b)
  {
    if a < b {
      SpanGrows(lim, a, b - 1);
    }
  }

  lemma {:induction false} ListingsGrow(lim: Limits, a: nat, b: nat)
    requires a <= b
    ensures Listings(lim, a) <= Listings(lim, b)
  {
    if a < b {
      ListingsGrow(lim, a, b - 1);
    }
  }

  lemma RoundShrinks(lim: Limits, tried: nat)
    requires tried <= lim.relists
    ensures lim.list + Span(lim, lim.keys) <= Round(lim, tried) <= Round(lim, 0)
    ensures tried < lim.relists ==> Round(lim, tried) == lim.list + lim.pause + Round(lim, tried + 1)
    ensures lim.wake + Round(lim, 0) + Span(lim, lim.keys) == Lag(lim)
  {
    ListingsGrow(lim, 0, lim.relists - tried);
    ListingsGrow(lim, lim.relists - tried, lim.relists);
  }

  lemma {:induction false} ReserveGrows(lim: Limits, a: nat, b: nat)
    requires RefreshAhead(lim.ttl) > 0 && a <= b
    ensures lim.call < Reserve(lim, a) <= Reserve(lim, b)
  {
    if a < b {
      ReserveGrows(lim, a, b - 1);
    } else if a > 0 {
      ReserveGrows(lim, a - 1, b - 1);
    }
  }

  // What storing a key at time `at` leaves for its next refresh.
  lemma FreshLeaves(lim: Limits, at: int, jitter: int)
    requires Fits(lim) && JitterInRange(lim.ttl, jitter)
    ensures lim.ttl > 0
    ensures at + LeastLife(lim.ttl) <= Expiry(lim.ttl, at, jitter)
    ensures at + lim.call + lim.land + RefreshAhead(lim.ttl) + Lag(lim) <= Expiry(lim.ttl, at, jitter) - Reserve(lim, lim.retries)
  {}

  predicate KeyKept(lim: Limits, t: State, k: string) {
    PhaseFits(lim, t) && (k in t.misses ==> KeyFits(lim, t, k))
  }

  predicate Before(lim: Limits, s: State, k: string) {
    Fits(lim) && PhaseFits(lim, s) && (k in s.misses ==> KeyFits(lim, s, k))
  }

  // --- one lemma a step ---

  lemma TickKeepsPhase(lim: Limits, s: State, d: nat)
    requires PhaseFits(lim, s) && MayPass(lim, s, d)
    ensures PhaseFits(lim, s.(now := s.now + d))
  {}

  // No phase in which time may pass measures a key by the clock.
  lemma TickKeepsTime(lim: Limits, s: State, d: nat, k: string)
    requires MayPass(lim, s, d) && KeyFits(lim, s, k)
    ensures KeyFits(lim, s.(now := s.now + d), k)
  {
    var t := s.(now := s.now + d);
    assert StartBy(lim, t, k) == StartBy(lim, s, k) && InTime(lim, t, k, StartBy(lim, t, k));
  }

  lemma TickKeeps(lim: Limits, s: State, d: nat, k: string)
    requires Before(lim, s, k) && MayPass(lim, s, d)
    ensures KeyKept(lim, s.(now := s.now + d), k)
  {
    TickKeepsPhase(lim, s, d);
    if k in s.misses {
      TickKeepsTime(lim, s, d, k);
    }
  }

  lemma StartListKeeps(lim: Limits, s: State, k: string)
    requires Before(lim, s, k) && s.phase.Top?
    ensures KeyKept(lim, s.(phase := Listing(s.now, s.phase.tried)), k)
  {}

  lemma NoListKeeps(lim: Limits, s: State, k: string)
    requires Before(lim, s, k) && s.phase.Top?
    ensures KeyKept(lim, s.(phase := Pass(s.next.Keys)), k)
  {
    SpanGrows(lim, |s.next.Keys|, lim.keys);
    RoundShrinks(lim, s.phase.tried);
  }

  lemma ListFailedKeeps(lim: Limits, s: State, k: string)
    requires Before(lim, s, k) && s.phase.Listing? && s.phase.tried < lim.relists
    ensures KeyKept(lim, s.(phase := Pausing(s.now, s.phase.tried + 1)), k)
  {
    RoundShrinks(lim, s.phase.tried);
  }

  lemma ResumeKeeps(lim: Limits, s: State, k: string)
    requires Before(lim, s, k) && s.phase.Pausing?
    ensures KeyKept(lim, s.(phase := Top(s.phase.tried)), k)
  {}

  // A key that is listed is due no later than the pass that follows.
  lemma ListedKeepsKey(lim: Limits, s: State, t: State, names: set<string>, k: string)
    requires PhaseFits(lim, s) && KeyFits(lim, s, k) && s.phase.Listing? && |names| <= lim.keys && k in names
    requires t.now == s.now && t.phase == Pass(names) && k in t.next && t.next[k] == s.next[k]
    requires k in t.misses && k in t.entries && t.misses[k] == s.misses[k] && t.entries[k] == s.entries[k]
    ensures KeyFits(lim, t, k)
  {
    SpanGrows(lim, |names|, lim.keys);
    RoundShrinks(lim, s.phase.tried);
    assert StartBy(lim, t, k) == StartBy(lim, s, k) && InTime(lim, s, k, StartBy(lim, s, k));
    assert InTime(lim, t, k, StartBy(lim, t, k));
  }

  lemma ListedKeeps(lim: Limits, s: State, names: set<string>, k: string)
    requires Before(lim, s, k) && s.phase.Listing? && |names| <= lim.keys
    ensures KeyKept(lim, AfterListing(lim.ttl, s, names), k)
  {
    var t := AfterListing(lim.ttl, s, names);
    assert t.next.Keys == names && |t.next| == |names|;
    if k in t.misses {
      assert k in s.next && k in names;
      ListedKeepsKey(lim, s, t, names, k);
    }
  }

  lemma OneLess(lim: Limits, todo: set<string>, n: string)
    requires n in todo
    ensures |todo| == |todo - {n}| + 1
    ensures Span(lim, |todo|) == lim.call + Span(lim, |todo - {n}|)
  {
    var left := todo - {n};
    assert todo == left + {n};
  }

  lemma SkipKeeps(lim: Limits, s: State, n: string, k: string)
    requires Before(lim, s, k) && s.phase.Pass? && n in s.phase.todo && n in s.next && s.now < s.next[n]
    ensures KeyKept(lim, s.(phase := Pass(s.phase.todo - {n})), k)
  {
    var todo := s.phase.todo;
    OneLess(lim, todo, n);
    SpanGrows(lim, |todo - {n}|, lim.keys);
    RoundShrinks(lim, 0);
    if k in s.misses {
      var t := s.(phase := Pass(todo - {n}));
      assert InTime(lim, s, k, StartBy(lim, s, k)) && StartBy(lim, t, k) == StartBy(lim, s, k);
      assert InTime(lim, t, k, StartBy(lim, t, k));
    }
  }

  // A key that is due may be taken up.
  predicate CanTake(s: State, n: string) {
    s.phase.Pass? && n in s.phase.todo && n in s.next && s.next[n] <= s.now
  }

  lemma BeginKeeps(lim: Limits, s: State, n: string, k: string)
    requires Before(lim, s, k) && CanTake(s, n)
    ensures KeyKept(lim, Taken(s, n), k)
  {
    var todo, t := s.phase.todo, Taken(s, n);
    OneLess(lim, todo, n);
    SpanGrows(lim, |todo - {n}|, lim.keys);
    if k in s.misses {
      assert InTime(lim, s, k, StartBy(lim, s, k)) && StartBy(lim, t, k) == StartBy(lim, s, k);
      assert InTime(lim, t, k, StartBy(lim, t, k));
    }
  }

  // What a joined fetch stored has lost no more of its life than the fetch took to end.
  lemma JoinKeepsOwn(lim: Limits, s: State, k: string)
    requires Before(lim, s, k) && LandingsFit(lim, s) && CanTake(s, k) && k in s.landings
    ensures KeyKept(lim, Joined(s, k), k)
  {
    BeginKeeps(lim, s, k, k);
  }

  lemma JoinKeepsOther(lim: Limits, s: State, n: string, k: string)
    requires Before(lim, s, k) && CanTake(s, n) && n in s.landings && n != k
    ensures KeyKept(lim, Joined(s, n), k)
  {
    BeginKeeps(lim, s, n, k);
    if k in s.misses {
      KeyUntouched(lim, Taken(s, n), Joined(s, n), k);
    }
  }

  // The same place in the loop, but for what another key's fetch has come to.
  predicate SamePlace(p: Phase, q: Phase, k: string) {
    p == q || (p.Warming? && q.Warming? && p.todo == q.todo && p.fetch.name == q.fetch.name != k
               && p.fetch.since == q.fetch.since)
  }

  // A key's standing depends on the clock, the phase, the deadlines and its own entry.
  lemma KeyUntouched(lim: Limits, s: State, t: State, k: string)
    requires t.now == s.now && SamePlace(s.phase, t.phase, k) && t.next == s.next && KeyFits(lim, s, k)
    requires k in t.misses && k in t.entries && t.misses[k] == s.misses[k] && t.entries[k] == s.entries[k]
    ensures KeyFits(lim, t, k)
  {}

  // The fetch under way can be answered with this jitter.
  predicate CanAnswer(lim: Limits, s: State, j: int) {
    s.phase.Warming? && s.phase.fetch.answer.None? && JitterInRange(lim.ttl, j) && lim.ttl > 0
  }

  lemma AnswerKeepsOther(lim: Limits, s: State, out: Outcome, j: int, k: string)
    requires Before(lim, s, k) && CanAnswer(lim, s, j) && k != s.phase.fetch.name
    ensures KeyKept(lim, Answered(lim.ttl, s, out, j), k)
  {
    PhaseUntouched(lim, s, Answered(lim.ttl, s, out, j));
    if k in s.misses {
      KeyUntouched(lim, s, Answered(lim.ttl, s, out, j), k);
    }
  }

  lemma FoundKeepsOwn(lim: Limits, s: State, j: int, k: string)
    requires Before(lim, s, k) && CanAnswer(lim, s, j) && KindAnswer(lim, s, s.phase.fetch, Warmed)
    requires k == s.phase.fetch.name
    ensures KeyKept(lim, Answered(lim.ttl, s, Warmed, j), k)
  {
    FreshLeaves(lim, s.now, j);
  }

  lemma NotFoundKeepsOwn(lim: Limits, s: State, out: Outcome, j: int, k: string)
    requires Before(lim, s, k) && CanAnswer(lim, s, j) && KindAnswer(lim, s, s.phase.fetch, out)
    requires k == s.phase.fetch.name && !out.Warmed?
    ensures KeyKept(lim, Answered(lim.ttl, s, out, j), k)
  {}

  lemma AnswerKeeps(lim: Limits, s: State, out: Outcome, j: int, k: string)
    requires Before(lim, s, k) && CanAnswer(lim, s, j) && KindAnswer(lim, s, s.phase.fetch, out)
    ensures KeyKept(lim, Answered(lim.ttl, s, out, j), k)
  {
    if k != s.phase.fetch.name {
      AnswerKeepsOther(lim, s, out, j, k);
    } else if out.Warmed? {
      FoundKeepsOwn(lim, s, j, k);
    } else {
      NotFoundKeepsOwn(lim, s, out, j, k);
    }
  }

  // The fetch under way has its answer.
  predicate IsAnswered(s: State) {
    s.phase.Warming? && s.phase.fetch.answer.Some?
  }

  // A key stored while its own fetch ran has the better part of a lifetime left.
  lemma FreshSlack(lim: Limits, s: State, k: string)
    requires Before(lim, s, k) && k in s.misses && s.phase.Warming? && s.phase.fetch.name == k && s.phase.fetch.renewed
    ensures s.now + RefreshAhead(lim.ttl) + Lag(lim) + Reserve(lim, lim.retries) <= s.entries[k]
  {}

  lemma FinishKeepsOther(lim: Limits, s: State, k: string)
    requires Before(lim, s, k) && IsAnswered(s) && k != s.phase.fetch.name
    ensures KeyKept(lim, Settled(lim.ttl, s), k)
  {
    SpanGrows(lim, |s.phase.todo|, lim.keys);
  }

  // After a finished refresh, with the deadline `gap` away and the reserve still untouched.
  lemma FinishLeaves(lim: Limits, t: State, k: string)
    requires Fits(lim) && PhaseFits(lim, t) && t.phase.Pass? && k !in t.phase.todo
    requires k in t.misses && k in t.next && k in t.entries && t.misses[k] <= lim.retries
    requires t.now <= t.next[k] <= t.now + RefreshAhead(lim.ttl) && t.next[k] + Lag(lim) <= StartBy(lim, t, k)
    ensures KeyFits(lim, t, k)
  {
    SpanGrows(lim, |t.phase.todo|, lim.keys);
    RoundShrinks(lim, 0);
  }

  lemma WarmedKeepsOwn(lim: Limits, s: State, k: string)
    requires Before(lim, s, k) && s.phase.Warming? && k == s.phase.fetch.name
    requires s.phase.fetch.answer == Some(Warmed) && k in s.misses
    ensures KeyFits(lim, Settled(lim.ttl, s), k)
  {
    FreshSlack(lim, s, k);
    FinishLeaves(lim, Settled(lim.ttl, s), k);
  }

  lemma TransientKeepsOwn(lim: Limits, s: State, k: string)
    requires Before(lim, s, k) && s.phase.Warming? && k == s.phase.fetch.name
    requires s.phase.fetch.answer == Some(Transient) && k in s.misses
    ensures KeyFits(lim, Settled(lim.ttl, s), k)
  {
    var n := lim.retries - s.misses[k];
    assert Reserve(lim, n) == lim.call + RetryGap(lim.ttl) + Lag(lim) + Reserve(lim, n - 1);
    ReserveGrows(lim, n - 1, lim.retries);
    if s.phase.fetch.renewed {
      FreshSlack(lim, s, k);
    }
    FinishLeaves(lim, Settled(lim.ttl, s), k);
  }

  lemma FinishKeepsOwn(lim: Limits, s: State, k: string)
    requires Before(lim, s, k) && IsAnswered(s) && k == s.phase.fetch.name
    ensures KeyKept(lim, Settled(lim.ttl, s), k)
  {
    if k in s.misses {
      match s.phase.fetch.answer.value
      case Warmed => WarmedKeepsOwn(lim, s, k);
      case Transient => TransientKeepsOwn(lim, s, k);
      case _ =>
    }
  }

  lemma FinishKeeps(lim: Limits, s: State, k: string)
    requires Before(lim, s, k) && IsAnswered(s)
    ensures KeyKept(lim, Settled(lim.ttl, s), k)
  {
    if k == s.phase.fetch.name {
      FinishKeepsOwn(lim, s, k);
    } else {
      FinishKeepsOther(lim, s, k);
    }
  }

  lemma RestKeeps(lim: Limits, s: State, due: int, k: string)
    requires Before(lim, s, k) && s.phase == Pass({}) && IsEarliest(s.next, s.relistAt, due)
    ensures KeyKept(lim, s.(phase := Idle(s.now, due)), k)
  {}

  lemma WakeKeeps(lim: Limits, s: State, k: string)
    requires Before(lim, s, k) && s.phase.Idle?
    ensures KeyKept(lim, s.(phase := Top(0)), k)
  {}

  lemma ReprimeKeeps(lim: Limits, s: State, k: string)
    requires Before(lim, s, k) && s.phase.Idle?
    ensures KeyKept(lim, s.(phase := Top(0), next := Primed(s.next, s.now), relistAt := s.now), k)
  {
    assert Primed(s.next, s.now).Keys == s.next.Keys;
  }

  // A key just stored, whose deadline is no further off than the cadence, is in time in every phase.
  lemma FreshIsInTime(lim: Limits, s: State, k: string, startBy: int)
    requires PhaseFits(lim, s) && k in s.next && k in s.entries && RefreshAhead(lim.ttl) > 0
    requires s.next[k] <= s.now + RefreshAhead(lim.ttl)
    requires s.now + lim.call + RefreshAhead(lim.ttl) + Lag(lim) <= startBy
    requires !(s.phase.Warming? && s.phase.fetch.name == k)
    ensures InTime(lim, s, k, startBy)
  {
    RoundShrinks(lim, 0);
    match s.phase
    case Top(tried) => RoundShrinks(lim, tried);
    case Listing(_, tried) => RoundShrinks(lim, tried);
    case Pausing(_, tried) =>
      RoundShrinks(lim, tried - 1);
    case Pass(todo) => SpanGrows(lim, |todo|, lim.keys);
    case Warming(_, todo) => SpanGrows(lim, |todo|, lim.keys);
    case Idle(_, _) =>
  }

  // The place in the loop, but for what the fetch under way has come to.
  lemma PhaseUntouched(lim: Limits, s: State, t: State)
    requires PhaseFits(lim, s) && t.now == s.now && t.next == s.next
    requires t.phase == s.phase || (s.phase.Warming? && t.phase.Warming? && t.phase.todo == s.phase.todo
                                    && t.phase.fetch.name == s.phase.fetch.name && t.phase.fetch.since == s.phase.fetch.since)
    ensures PhaseFits(lim, t)
  {}

  // Somebody stores k while its refresh is under way.
  lemma RenewedUnderway(lim: Limits, s: State, j: int, k: string)
    requires Before(lim, s, k) && JitterInRange(lim.ttl, j) && lim.ttl > 0 && k in s.misses
    requires s.phase.Warming? && s.phase.fetch.name == k
    ensures KeyFits(lim, Renewed(s, k, Expiry(lim.ttl, s.now, j)), k)
  {
    FreshLeaves(lim, s.now, j);
  }

  lemma RenewedElsewhere(lim: Limits, s: State, j: int, k: string)
    requires Before(lim, s, k) && JitterInRange(lim.ttl, j) && lim.ttl > 0 && k in s.misses
    requires !(s.phase.Warming? && s.phase.fetch.name == k)
    ensures KeyFits(lim, Renewed(s, k, Expiry(lim.ttl, s.now, j)), k)
  {
    var t := Renewed(s, k, Expiry(lim.ttl, s.now, j));
    FreshLeaves(lim, s.now, j);
    assert t.phase == s.phase && PhaseFits(lim, t);
    FreshIsInTime(lim, t, k, StartBy(lim, t, k));
  }

  lemma RenewedKeeps(lim: Limits, s: State, n: string, j: int, k: string)
    requires Before(lim, s, k) && JitterInRange(lim.ttl, j) && lim.ttl > 0
    ensures KeyKept(lim, Renewed(s, n, Expiry(lim.ttl, s.now, j)), k)
  {
    var t := Renewed(s, n, Expiry(lim.ttl, s.now, j));
    PhaseUntouched(lim, s, t);
    if k !in s.misses {
    } else if n != k {
      KeyUntouched(lim, s, t, k);
    } else if s.phase.Warming? && s.phase.fetch.name == k {
      RenewedUnderway(lim, s, j, k);
    } else {
      RenewedElsewhere(lim, s, j, k);
    }
  }

  // Names leave the warmer's care; the others stand as before.
  lemma ReleasedKeeps(lim: Limits, s: State, names: set<string>, k: string)
    requires Before(lim, s, k)
    ensures KeyKept(lim, Released(s, names), k)
  {
    if k in s.misses && k !in names {
      KeyUntouched(lim, s, Released(s, names), k);
    }
  }

  // Neither the sequence number nor the fetches still to end matter to a key's standing.
  lemma FreeFields(lim: Limits, s: State, t: State, k: string)
    requires KeyKept(lim, s, k) && t == s.(seqno := t.seqno, landings := t.landings)
    ensures KeyKept(lim, t, k)
  {
    if k in s.misses {
      KeyUntouched(lim, s, t, k);
    }
  }

  lemma SavedKeeps(lim: Limits, s: State, n: string, j: int, k: string)
    requires Before(lim, s, k) && JitterInRange(lim.ttl, j) && lim.ttl > 0
    ensures KeyKept(lim, SavedOver(lim.ttl, s, n, j), k)
  {
    var t := Renewed(s, n, Expiry(lim.ttl, s.now, j));
    RenewedKeeps(lim, s, n, j, k);
    FreeFields(lim, t, Bumped(t, 1), k);
  }

  lemma ReadFillKeeps(lim: Limits, s: State, n: string, j: int, k: string)
    requires Before(lim, s, k) && JitterInRange(lim.ttl, j) && lim.ttl > 0
    ensures KeyKept(lim, Filled(lim.ttl, s, n, j), k)
  {
    RenewedKeeps(lim, s, n, j, k);
    FreeFields(lim, Renewed(s, n, Expiry(lim.ttl, s.now, j)), Filled(lim.ttl, s, n, j), k);
  }

  lemma DroppedKeeps(lim: Limits, s: State, names: set<string>, k: string)
    requires Before(lim, s, k)
    ensures KeyKept(lim, Bumped(Released(s, names), 1), k)
  {
    ReleasedKeeps(lim, s, names, k);
    FreeFields(lim, Released(s, names), Bumped(Released(s, names), 1), k);
  }

  lemma ReadDeniedKeeps(lim: Limits, s: State, n: string, k: string)
    requires Before(lim, s, k)
    ensures KeyKept(lim, Denied(s, n), k)
  {
    ReleasedKeeps(lim, s, {n}, k);
    FreeFields(lim, Released(s, {n}), Denied(s, n), k);
  }

  lemma PushOutKeeps(lim: Limits, s: State, names: set<string>, k: string)
    requires Before(lim, s, k) && names !! s.misses.Keys
    ensures KeyKept(lim, s.(entries := s.entries - names), k)
  {
    if k in s.misses {
      KeyUntouched(lim, s, s.(entries := s.entries - names), k);
    }
  }

  lemma OthersKeepKey(lim: Limits, s: State, step: Step, k: string)
    requires Before(lim, s, k) && Enabled(lim.ttl, s, step) && Kind(lim, s, step)
    requires !OfList(step) && !OfPass(step) && !OfSleep(step)
    ensures KeyKept(lim, Next(lim.ttl, s, step), k)
  {
    match step
    case Saved(n, j) => SavedKeeps(lim, s, n, j, k);
    case ReadFill(n, j) => ReadFillKeeps(lim, s, n, j, k);
    case Dropped(names) => DroppedKeeps(lim, s, names, k);
    case ReadDenied(n) => ReadDeniedKeeps(lim, s, n, k);
    case ReadEnds(n) => FreeFields(lim, s, s.(landings := s.landings - {n}), k);
    case PushOut(names) => PushOutKeeps(lim, s, names, k);
  }

  // Steps of a relist, of a pass over the keys, and of waiting; the rest are others' steps.
  predicate OfList(step: Step) {
    step.StartList? || step.NoList? || step.ListFailed? || step.Resume? || step.Listed?
  }

  predicate OfPass(step: Step) {
    step.Skip? || step.Begin? || step.Join? || step.Answer? || step.Finish?
  }

  predicate OfSleep(step: Step) {
    step.Tick? || step.Rest? || step.Wake? || step.Reprime?
  }

  lemma ListKeepsKey(lim: Limits, s: State, step: Step, k: string)
    requires Before(lim, s, k) && Enabled(lim.ttl, s, step) && Kind(lim, s, step) && OfList(step)
    ensures KeyKept(lim, Next(lim.ttl, s, step), k)
  {
    match step
    case StartList => StartListKeeps(lim, s, k);
    case NoList => NoListKeeps(lim, s, k);
    case ListFailed => ListFailedKeeps(lim, s, k);
    case Resume => ResumeKeeps(lim, s, k);
    case Listed(names) => ListedKeeps(lim, s, names, k);
  }

  lemma JoinKeeps(lim: Limits, s: State, n: string, k: string)
    requires Before(lim, s, k) && LandingsFit(lim, s) && CanTake(s, n) && n in s.landings
    ensures KeyKept(lim, Joined(s, n), k)
  {
    if k == n {
      JoinKeepsOwn(lim, s, k);
    } else {
      JoinKeepsOther(lim, s, n, k);
    }
  }

  lemma PassKeepsKey(lim: Limits, s: State, step: Step, k: string)
    requires Before(lim, s, k) && LandingsFit(lim, s) && Enabled(lim.ttl, s, step) && Kind(lim, s, step)
    requires OfPass(step)
    ensures KeyKept(lim, Next(lim.ttl, s, step), k)
  {
    match step
    case Skip(n) => SkipKeeps(lim, s, n, k);
    case Begin(n) => BeginKeeps(lim, s, n, k);
    case Join(n) => JoinKeeps(lim, s, n, k);
    case Answer(out, j) => AnswerKeeps(lim, s, out, j, k);
    case Finish => FinishKeeps(lim, s, k);
  }

  lemma SleepKeepsKey(lim: Limits, s: State, step: Step, k: string)
    requires Before(lim, s, k) && Enabled(lim.ttl, s, step) && Kind(lim, s, step) && OfSleep(step)
    ensures KeyKept(lim, Next(lim.ttl, s, step), k)
  {
    match step
    case Tick(d) => TickKeeps(lim, s, d, k);
    case Rest(due) => RestKeeps(lim, s, due, k);
    case Wake => WakeKeeps(lim, s, k);
    case Reprime => ReprimeKeeps(lim, s, k);
  }

  lemma StepKeepsKey(lim: Limits, s: State, step: Step, k: string)
    requires Before(lim, s, k) && LandingsFit(lim, s) && Enabled(lim.ttl, s, step) && Kind(lim, s, step)
    ensures KeyKept(lim, Next(lim.ttl, s, step), k)
  {
    if OfList(step) {
      ListKeepsKey(lim, s, step, k);
    } else if OfPass(step) {
      PassKeepsKey(lim, s, step, k);
    } else if OfSleep(step) {
      SleepKeepsKey(lim, s, step, k);
    } else {
      OthersKeepKey(lim, s, step, k);
    }
  }

  lemma RenewedKeepsLandings(lim: Limits, s: State, n: string, j: int)
    requires LandingsFit(lim, s) && JitterInRange(lim.ttl, j) && lim.ttl > 0
    ensures LandingsFit(lim, Renewed(s, n, Expiry(lim.ttl, s.now, j)))
    ensures LandingsFit(lim, Filled(lim.ttl, s, n, j))
  {}

  lemma AnswerKeepsLandings(lim: Limits, s: State, out: Outcome, j: int)
    requires LandingsFit(lim, s) && JitterInRange(lim.ttl, j) && lim.ttl > 0 && s.phase.Warming?
    ensures LandingsFit(lim, Answered(lim.ttl, s, out, j))
  {
    var t := s.(phase := s.phase.(fetch := s.phase.fetch.(answer := Some(out))));
    RenewedKeepsLandings(lim, t, s.phase.fetch.name, j);
  }

  lemma StepKeepsLandings(lim: Limits, s: State, step: Step)
    requires LandingsFit(lim, s) && Enabled(lim.ttl, s, step) && Kind(lim, s, step)
    ensures LandingsFit(lim, Next(lim.ttl, s, step))
  {
    match step
    case Answer(out, j) => AnswerKeepsLandings(lim, s, out, j);
    case Saved(n, j) => RenewedKeepsLandings(lim, s, n, j);
    case ReadFill(n, j) => RenewedKeepsLandings(lim, s, n, j);
    case _ =>
  }

  lemma StepKeeps(lim: Limits, s: State, step: Step)
    requires Fits(lim) && Inv(lim, s) && Enabled(lim.ttl, s, step) && Kind(lim, s, step)
    ensures Inv(lim, Next(lim.ttl, s, step))
  {
    StepKeepsLandings(lim, s, step);
    StepKeepsKey(lim, s, step, "");
    forall k | k in Next(lim.ttl, s, step).misses
      ensures KeyFits(lim, Next(lim.ttl, s, step), k)
    {
      StepKeepsKey(lim, s, step, k);
    }
  }

  lemma {:induction false} RunKeeps(lim: Limits, s: State, steps: seq<Step>)
    requires Fits(lim) && Inv(lim, s) && Able(lim.ttl, s, steps) && AllKind(lim, s, steps)
    ensures Inv(lim, Run(lim.ttl, s, steps))
    decreases |steps|
  {
    if steps != [] {
      StepKeeps(lim, s, steps[0]);
      RunKeeps(lim, Next(lim.ttl, s, steps[0]), steps[1..]);
    }
  }

  // --- keys stay warm ---

  // Some run from an empty cache within the limits leads to t.
  ghost predicate Reaches(lim: Limits, t: State) {
    exists now, steps :: RunsTo(lim, now, steps, t)
  }

  ghost predicate RunsTo(lim: Limits, now: int, steps: seq<Step>, t: State) {
    Able(lim.ttl, Start(now), steps) && AllKind(lim, Start(now), steps) && Run(lim.ttl, Start(now), steps) == t
  }

  // An ordinary Load of k at this moment is a hit.
  predicate IsLive(t: State, k: string) {
    k in t.entries && Live(Some(t.entries[k]), t.now)
  }

  // On every run every key is live at every moment from its first warm until it is delisted, found missing,
  // deleted or purged.
  ghost predicate KeepsWarm(lim: Limits) {
    forall t, k | Reaches(lim, t) && k in t.misses :: IsLive(t, k)
  }

  lemma WarmedIsLive(lim: Limits, s: State, k: string)
    requires Fits(lim) && Inv(lim, s) && k in s.misses
    ensures IsLive(s, k)
  {
    assert KeyFits(lim, s, k);
    ReserveGrows(lim, 0, lim.retries - s.misses[k]);
    ReserveGrows(lim, 0, lim.retries);
  }

  // Whatever order keys come up in, and whatever Saves, deletes, flushes, client reads, failing relists and
  // failing refreshes come in between: latencies that fit keep every key warm.
  lemma KeysStayWarm(lim: Limits)
    requires Fits(lim)
    ensures KeepsWarm(lim)
  {
    forall t, k | Reaches(lim, t) && k in t.misses
      ensures IsLive(t, k)
    {
      var now, steps :| RunsTo(lim, now, steps, t);
      RunKeeps(lim, Start(now), steps);
      WarmedIsLive(lim, t, k);
    }
  }

  // A step that takes k out of the warmer's care.
  predicate Lets(s: State, step: Step, k: string) {
    match step
    case Listed(names) => k !in names
    case Answer(out, _) => out.NotFound? && s.phase.Warming? && s.phase.fetch.name == k
    case Finish => s.phase.Warming? && s.phase.fetch.name == k && s.phase.fetch.answer == Some(NotFound)
    case Dropped(names) => k in names
    case ReadDenied(n) => n == k
    case _ => false
  }

  ghost predicate LetGo(ttl: int, s: State, steps: seq<Step>, k: string)
    requires Able(ttl, s, steps)
    decreases |steps|
  {
    steps != [] && (Lets(s, steps[0], k) || LetGo(ttl, Next(ttl, s, steps[0]), steps[1..], k))
  }

  lemma PassCares(ttl: int, s: State, step: Step, k: string)
    requires Enabled(ttl, s, step) && k in s.misses && !Lets(s, step, k) && OfPass(step)
    ensures k in Next(ttl, s, step).misses
  {}

  lemma StepCares(ttl: int, s: State, step: Step, k: string)
    requires Enabled(ttl, s, step) && k in s.misses && !Lets(s, step, k)
    ensures k in Next(ttl, s, step).misses
  {
    if OfPass(step) {
      PassCares(ttl, s, step, k);
    }
  }

  // Nothing else does: a warmed key stays in the warmer's care until one of those steps.
  lemma {:induction false} CareLasts(ttl: int, s: State, steps: seq<Step>, k: string)
    requires Able(ttl, s, steps) && k in s.misses && !LetGo(ttl, s, steps, k)
    ensures k in Run(ttl, s, steps).misses
    decreases |steps|
  {
    if steps != [] {
      StepCares(ttl, s, steps[0], k);
      CareLasts(ttl, Next(ttl, s, steps[0]), steps[1..], k);
    }
  }

  // --- every deadline is kept ---

  // The key has a deadline in a phase from which it will be taken up by startBy, unless it is being refreshed.
  predicate Punctual(lim: Limits, s: State, k: string, startBy: int)
    requires k in s.next
  {
    match s.phase
    case Top(tried) => s.now + Round(lim, tried) <= startBy
    case Listing(since, tried) => since + Round(lim, tried) <= startBy
    case Pausing(since, tried) => since + lim.pause + Round(lim, tried) <= startBy
    case Pass(todo) =>
      if k in todo then s.now + Span(lim, |todo|) <= startBy
      else CanWait(lim, s.now + Span(lim, |todo|), s.next[k], startBy)
    case Warming(f, todo) =>
      if k == f.name then true
      else if k in todo then f.since + Span(lim, |todo| + 1) <= startBy
      else CanWait(lim, f.since + Span(lim, |todo| + 1), s.next[k], startBy)
    case Idle(entered, due) => Later(entered, due) + lim.wake + Round(lim, 0) <= startBy
  }

  predicate OnTime(lim: Limits, s: State, k: string) {
    k in s.next ==> Punctual(lim, s, k, s.next[k] + Lag(lim))
  }

  predicate Sensible(lim: Limits) {
    RefreshAhead(lim.ttl) > 0
  }

  // The phase and the clock stand well, and so does this key.
  predicate Placed(lim: Limits, s: State, k: string) {
    Sensible(lim) && PhaseFits(lim, s) && OnTime(lim, s, k)
  }

  // What the fetch under way has come to, and what others do to the cache, moves no deadline.
  lemma OthersKeepTime(lim: Limits, s: State, t: State, k: string)
    requires Placed(lim, s, k) && t.now == s.now && t.next == s.next
    requires t.phase == s.phase || (s.phase.Warming? && t.phase.Warming? && t.phase.todo == s.phase.todo
                                    && t.phase.fetch.name == s.phase.fetch.name && t.phase.fetch.since == s.phase.fetch.since)
    ensures Placed(lim, t, k)
  {
    PhaseUntouched(lim, s, t);
  }

  lemma ListKeepsTime(lim: Limits, s: State, step: Step, k: string)
    requires Placed(lim, s, k) && Enabled(lim.ttl, s, step) && Kind(lim, s, step) && OfList(step)
    ensures OnTime(lim, Next(lim.ttl, s, step), k)
  {
    match step
    case StartList =>
    case NoList =>
      SpanGrows(lim, |s.next.Keys|, lim.keys);
      RoundShrinks(lim, s.phase.tried);
    case ListFailed => RoundShrinks(lim, s.phase.tried);
    case Resume =>
    case Listed(names) =>
      SpanGrows(lim, |names|, lim.keys);
      RoundShrinks(lim, s.phase.tried);
      RoundShrinks(lim, 0);
  }

  lemma SkipKeepsTime(lim: Limits, s: State, n: string, k: string)
    requires Placed(lim, s, k) && s.phase.Pass? && n in s.phase.todo && n in s.next && s.now < s.next[n]
    ensures OnTime(lim, s.(phase := Pass(s.phase.todo - {n})), k)
  {
    OneLess(lim, s.phase.todo, n);
    SpanGrows(lim, |s.phase.todo - {n}|, lim.keys);
    RoundShrinks(lim, 0);
  }

  lemma BeginKeepsTime(lim: Limits, s: State, n: string, k: string)
    requires Placed(lim, s, k) && CanTake(s, n)
    ensures OnTime(lim, Taken(s, n), k)
  {
    OneLess(lim, s.phase.todo, n);
  }

  lemma JoinKeepsTime(lim: Limits, s: State, n: string, k: string)
    requires Placed(lim, s, k) && CanTake(s, n) && n in s.landings
    ensures OnTime(lim, Joined(s, n), k)
  {
    OneLess(lim, s.phase.todo, n);
  }

  // A refresh that ends sets its key's next deadline no earlier than now.
  lemma FinishKeepsTime(lim: Limits, s: State, k: string)
    requires Placed(lim, s, k) && IsAnswered(s)
    ensures OnTime(lim, Settled(lim.ttl, s), k)
  {
    SpanGrows(lim, |s.phase.todo|, lim.keys);
    RoundShrinks(lim, 0);
  }

  lemma PassKeepsTime(lim: Limits, s: State, step: Step, k: string)
    requires Placed(lim, s, k) && Enabled(lim.ttl, s, step) && OfPass(step)
    ensures OnTime(lim, Next(lim.ttl, s, step), k)
  {
    match step
    case Skip(n) => SkipKeepsTime(lim, s, n, k);
    case Begin(n) => BeginKeepsTime(lim, s, n, k);
    case Join(n) => JoinKeepsTime(lim, s, n, k);
    case Answer(out, j) => OthersKeepTime(lim, s, Answered(lim.ttl, s, out, j), k);
    case Finish => FinishKeepsTime(lim, s, k);
  }

  lemma SleepKeepsTime(lim: Limits, s: State, step: Step, k: string)
    requires Placed(lim, s, k) && Enabled(lim.ttl, s, step) && Kind(lim, s, step) && OfSleep(step)
    ensures OnTime(lim, Next(lim.ttl, s, step), k)
  {
    RoundShrinks(lim, 0);
    assert Primed(s.next, s.now).Keys == s.next.Keys;
  }

  lemma ListKeepsPhase(lim: Limits, s: State, step: Step)
    requires Sensible(lim) && PhaseFits(lim, s) && Enabled(lim.ttl, s, step) && Kind(lim, s, step) && OfList(step)
    ensures PhaseFits(lim, Next(lim.ttl, s, step))
  {
    assert step.Listed? ==> Reconciled(s.next, step.names, s.now).Keys == step.names;
  }

  lemma SkipKeepsPhase(lim: Limits, s: State, n: string)
    requires PhaseFits(lim, s) && s.phase.Pass? && n in s.phase.todo
    ensures PhaseFits(lim, s.(phase := Pass(s.phase.todo - {n})))
  {
    OneLess(lim, s.phase.todo, n);
  }

  lemma BeginKeepsPhase(lim: Limits, s: State, n: string)
    requires PhaseFits(lim, s) && CanTake(s, n)
    ensures PhaseFits(lim, Taken(s, n))
    ensures n in s.landings ==> PhaseFits(lim, Joined(s, n))
  {
    OneLess(lim, s.phase.todo, n);
    if n in s.landings {
      PhaseUntouched(lim, Taken(s, n), Joined(s, n));
    }
  }

  lemma PassKeepsPhase(lim: Limits, s: State, step: Step)
    requires Sensible(lim) && PhaseFits(lim, s) && Enabled(lim.ttl, s, step) && OfPass(step)
    ensures PhaseFits(lim, Next(lim.ttl, s, step))
  {
    match step
    case Skip(n) => SkipKeepsPhase(lim, s, n);
    case Begin(n) => BeginKeepsPhase(lim, s, n);
    case Join(n) => BeginKeepsPhase(lim, s, n);
    case Answer(out, j) => PhaseUntouched(lim, s, Answered(lim.ttl, s, out, j));
    case Finish => FinishKeepsPhase(lim, s);
  }

  lemma FinishKeepsPhase(lim: Limits, s: State)
    requires PhaseFits(lim, s) && IsAnswered(s)
    ensures PhaseFits(lim, Settled(lim.ttl, s))
  {
    var f := s.phase.fetch;
    var next := Rescheduled(s.next, f.name, f.answer.value, lim.ttl, s.now);
    assert next.Keys == s.next.Keys || next.Keys == s.next.Keys - {f.name};
    assert |next.Keys| <= |s.next.Keys|;
  }

  lemma SleepKeepsPhase(lim: Limits, s: State, step: Step)
    requires Sensible(lim) && PhaseFits(lim, s) && Enabled(lim.ttl, s, step) && Kind(lim, s, step) && OfSleep(step)
    ensures PhaseFits(lim, Next(lim.ttl, s, step))
  {
    match step
    case Tick(d) => TickKeepsPhase(lim, s, d);
    case Reprime => assert Primed(s.next, s.now).Keys == s.next.Keys;
    case _ =>
  }

  lemma PhaseIsKept(lim: Limits, s: State, step: Step)
    requires Sensible(lim) && PhaseFits(lim, s) && Enabled(lim.ttl, s, step) && Kind(lim, s, step)
    ensures PhaseFits(lim, Next(lim.ttl, s, step))
  {
    if OfList(step) {
      ListKeepsPhase(lim, s, step);
    } else if OfPass(step) {
      PassKeepsPhase(lim, s, step);
    } else if OfSleep(step) {
      SleepKeepsPhase(lim, s, step);
    } else {
      PhaseUntouched(lim, s, Next(lim.ttl, s, step));
    }
  }

  lemma StepKeepsTime(lim: Limits, s: State, step: Step, k: string)
    requires Placed(lim, s, k) && Enabled(lim.ttl, s, step) && Kind(lim, s, step)
    ensures OnTime(lim, Next(lim.ttl, s, step), k)
  {
    if OfList(step) {
      ListKeepsTime(lim, s, step, k);
    } else if OfPass(step) {
      PassKeepsTime(lim, s, step, k);
    } else if OfSleep(step) {
      SleepKeepsTime(lim, s, step, k);
    } else {
      OthersKeepTime(lim, s, Next(lim.ttl, s, step), k);
    }
  }

  lemma {:induction false} RunKeepsTime(lim: Limits, s: State, steps: seq<Step>, k: string)
    requires Placed(lim, s, k) && Able(lim.ttl, s, steps) && AllKind(lim, s, steps)
    ensures Placed(lim, Run(lim.ttl, s, steps), k)
    decreases |steps|
  {
    if steps != [] {
      PhaseIsKept(lim, s, steps[0]);
      StepKeepsTime(lim, s, steps[0], k);
      RunKeepsTime(lim, Next(lim.ttl, s, steps[0]), steps[1..], k);
    }
  }

  // On every run within the limits, whatever fails, is parked, discarded or pushed out, a key with a deadline that
  // is not being refreshed has it ahead, or no further behind than the loop's lag.
  lemma NeverLate(lim: Limits, t: State, k: string)
    requires RefreshAhead(lim.ttl) > 0 && Reaches(lim, t) && k in t.next
    requires !(t.phase.Warming? && t.phase.fetch.name == k)
    ensures t.now <= t.next[k] + Lag(lim)
  {
    var now, steps :| RunsTo(lim, now, steps, t);
    RunKeepsTime(lim, Start(now), steps, k);
    match t.phase
    case Top(tried) => RoundShrinks(lim, tried);
    case Listing(_, tried) => RoundShrinks(lim, tried);
    case Pausing(_, tried) => RoundShrinks(lim, tried);
    case Idle(_, _) => RoundShrinks(lim, 0);
    case _ => RoundShrinks(lim, 0);
  }

  // A relist leaves the deadlines of names it knows, makes new ones due at once and drops those it lacks; and is next
  // due after three quarters of a lifetime.
  lemma RelistLeaves(ttl: int, s: State, names: set<string>)
    requires Enabled(ttl, s, Listed(names))
    ensures var t := Next(ttl, s, Listed(names));
            && t.next.Keys == names && t.relistAt == s.now + 3 * ttl / 4
            && forall n | n in names :: t.next[n] == if n in s.next then s.next[n] else s.now
  {}

  // When a refresh is over its key is next due after three quarters of a lifetime; after a third of that, or five
  // seconds, if it met a passing failure; and not at all if it was not found. Other deadlines stay.
  lemma FinishLeavesDeadline(ttl: int, s: State)
    requires Enabled(ttl, s, Finish)
    ensures var t, Fetch(n, _, _, _, Some(out)) := Next(ttl, s, Finish), s.phase.fetch;
            && (n in t.next <==> !out.NotFound?)
            && (n in t.next ==> t.next[n] == s.now + if out.Transient? then Min(5_000_000_000, 3 * ttl / 4 / 3) else 3 * ttl / 4)
            && (forall k | k != n :: (k in t.next <==> k in s.next) && (k in s.next ==> t.next[k] == s.next[k]))
  {}

  // The step takes the key up, or drops it from the deadlines.
  predicate TakesUp(step: Step, k: string) {
    step == Begin(k) || step == Join(k) || (step.Listed? && k !in step.names)
  }

  // The key is due since `since` and still to be looked at before the loop next sleeps.
  predicate Waiting(lim: Limits, s: State, k: string, since: int, startBy: int) {
    && k in s.next && s.next[k] == since <= s.now
    && match s.phase
       case Top(tried) => s.now + Round(lim, tried) <= startBy
       case Listing(from, tried) => from + Round(lim, tried) <= startBy
       case Pausing(from, tried) => from + lim.pause + Round(lim, tried) <= startBy
       case Pass(todo) => k in todo && s.now + Span(lim, |todo|) <= startBy
       case Warming(f, todo) => k in todo && f.since + Span(lim, |todo| + 1) <= startBy
       case Idle(_, _) => false
  }

  lemma StepKeepsWaiting(lim: Limits, s: State, step: Step, k: string, since: int, startBy: int)
    requires Sensible(lim) && PhaseFits(lim, s) && Waiting(lim, s, k, since, startBy)
    requires Enabled(lim.ttl, s, step) && Kind(lim, s, step) && !TakesUp(step, k)
    ensures Waiting(lim, Next(lim.ttl, s, step), k, since, startBy)
  {
    if OfList(step) {
      ListKeepsWaiting(lim, s, step, k, since, startBy);
    } else if OfPass(step) {
      PassKeepsWaiting(lim, s, step, k, since, startBy);
    }
  }

  lemma ListKeepsWaiting(lim: Limits, s: State, step: Step, k: string, since: int, startBy: int)
    requires Sensible(lim) && PhaseFits(lim, s) && Waiting(lim, s, k, since, startBy)
    requires Enabled(lim.ttl, s, step) && Kind(lim, s, step) && !TakesUp(step, k) && OfList(step)
    ensures Waiting(lim, Next(lim.ttl, s, step), k, since, startBy)
  {
    match step
    case StartList =>
    case NoList =>
      SpanGrows(lim, |s.next.Keys|, lim.keys);
      RoundShrinks(lim, s.phase.tried);
    case ListFailed => RoundShrinks(lim, s.phase.tried);
    case Resume =>
    case Listed(names) =>
      SpanGrows(lim, |names|, lim.keys);
      RoundShrinks(lim, s.phase.tried);
  }

  lemma AnswerKeepsWaiting(lim: Limits, s: State, out: Outcome, j: int, k: string, since: int, startBy: int)
    requires Waiting(lim, s, k, since, startBy) && CanAnswer(lim, s, j)
    ensures Waiting(lim, Answered(lim.ttl, s, out, j), k, since, startBy)
  {}

  // Another key is passed over, or taken up.
  lemma OtherGoesFirst(lim: Limits, s: State, n: string, k: string, since: int, startBy: int)
    requires PhaseFits(lim, s) && Waiting(lim, s, k, since, startBy) && s.phase.Pass? && n in s.phase.todo && n != k
    ensures Waiting(lim, s.(phase := Pass(s.phase.todo - {n})), k, since, startBy)
    ensures Waiting(lim, Taken(s, n), k, since, startBy)
    ensures n in s.landings ==> Waiting(lim, Joined(s, n), k, since, startBy)
  {
    OneLess(lim, s.phase.todo, n);
  }

  lemma PassKeepsWaiting(lim: Limits, s: State, step: Step, k: string, since: int, startBy: int)
    requires PhaseFits(lim, s) && Waiting(lim, s, k, since, startBy)
    requires Enabled(lim.ttl, s, step) && !TakesUp(step, k) && OfPass(step)
    ensures Waiting(lim, Next(lim.ttl, s, step), k, since, startBy)
  {
    match step
    case Skip(n) => OtherGoesFirst(lim, s, n, k, since, startBy);
    case Begin(n) => OtherGoesFirst(lim, s, n, k, since, startBy);
    case Join(n) => OtherGoesFirst(lim, s, n, k, since, startBy);
    case Answer(out, j) => AnswerKeepsWaiting(lim, s, out, j, k, since, startBy);
    case Finish =>
  }

  lemma {:induction false} RunKeepsWaiting(lim: Limits, s: State, steps: seq<Step>, k: string, since: int, startBy: int)
    requires Sensible(lim) && PhaseFits(lim, s) && Waiting(lim, s, k, since, startBy)
    requires Able(lim.ttl, s, steps) && AllKind(lim, s, steps) && forall x | x in steps :: !TakesUp(x, k)
    ensures Run(lim.ttl, s, steps).now <= startBy
    decreases |steps|
  {
    if steps == [] {
      WaitingIsInTime(lim, s, k, since, startBy);
    } else {
      assert steps[0] in steps && forall x | x in steps[1..] :: x in steps;
      PhaseIsKept(lim, s, steps[0]);
      StepKeepsWaiting(lim, s, steps[0], k, since, startBy);
      RunKeepsWaiting(lim, Next(lim.ttl, s, steps[0]), steps[1..], k, since, startBy);
    }
  }

  lemma WaitingIsInTime(lim: Limits, s: State, k: string, since: int, startBy: int)
    requires PhaseFits(lim, s) && Waiting(lim, s, k, since, startBy)
    ensures s.now <= startBy
  {
    match s.phase
    case Top(tried) => RoundShrinks(lim, tried);
    case Listing(_, tried) => RoundShrinks(lim, tried);
    case Pausing(_, tried) => RoundShrinks(lim, tried);
    case _ =>
  }

  lemma ReachedPhaseFits(lim: Limits, s: State)
    requires Sensible(lim) && Reaches(lim, s)
    ensures PhaseFits(lim, s)
  {
    var now, steps :| RunsTo(lim, now, steps, s);
    RunKeepsTime(lim, Start(now), steps, "");
  }

  // After a flush, for as long as a key that had a deadline is neither taken up for a refresh nor delisted, no more
  // time passes than a relist, with its failures, and one pass over all keys may take.
  lemma FlushRefreshesAll(lim: Limits, s: State, steps: seq<Step>, k: string)
    requires RefreshAhead(lim.ttl) > 0 && Reaches(lim, s) && Enabled(lim.ttl, s, Reprime) && k in s.next
    requires var t := Next(lim.ttl, s, Reprime); Able(lim.ttl, t, steps) && AllKind(lim, t, steps)
    requires forall x | x in steps :: !TakesUp(x, k)
    ensures Run(lim.ttl, Next(lim.ttl, s, Reprime), steps).now <= s.now + Listings(lim, lim.relists) + Span(lim, lim.keys)
  {
    var t := Next(lim.ttl, s, Reprime);
    ReachedPhaseFits(lim, s);
    PhaseIsKept(lim, s, Reprime);
    RunKeepsWaiting(lim, t, steps, k, s.now, s.now + Round(lim, 0));
  }

  // A name a relist shows for the first time is taken up within one pass over all keys.
  lemma NewNamesAreWarmed(lim: Limits, s: State, names: set<string>, steps: seq<Step>, k: string)
    requires RefreshAhead(lim.ttl) > 0 && Reaches(lim, s)
    requires Enabled(lim.ttl, s, Listed(names)) && Kind(lim, s, Listed(names))
    requires k in names && k !in s.next
    requires var t := Next(lim.ttl, s, Listed(names)); Able(lim.ttl, t, steps) && AllKind(lim, t, steps)
    requires forall x | x in steps :: !TakesUp(x, k)
    ensures Run(lim.ttl, Next(lim.ttl, s, Listed(names)), steps).now <= s.now + Span(lim, lim.keys)
  {
    var t := Next(lim.ttl, s, Listed(names));
    ReachedPhaseFits(lim, s);
    PhaseIsKept(lim, s, Listed(names));
    SpanGrows(lim, |names|, lim.keys);
    RunKeepsWaiting(lim, t, steps, k, s.now, s.now + Span(lim, lim.keys));
  }

  // --- how much time there is ---

  // The cadence leaves at least a twentieth of the lifetime for latencies.
  lemma SlackIsATwentieth(ttl: int)
    requires ttl > 0
    ensures LeastLife(ttl) - RefreshAhead(ttl) >= ttl / 20
  {}

  predicate NoMishaps(lim: Limits) {
    !lim.parks && !lim.discards && !lim.evicts
  }

  // Latencies summing to less than a twentieth of the lifetime fit when no refresh fails.
  lemma FitsWithoutFailures(lim: Limits)
    requires RefreshAhead(lim.ttl) > 0 && NoMishaps(lim) && lim.retries == 0
    requires 2 * lim.call + lim.land + Lag(lim) < lim.ttl / 20
    ensures Fits(lim)
  {
    SlackIsATwentieth(lim.ttl);
  }

  // For lifetimes over 100 seconds one failure and its retry fit as well, with five seconds less.
  lemma FitsWithOneFailure(lim: Limits)
    requires lim.ttl > 20 * RETRY_GAP_CAP && NoMishaps(lim) && lim.retries == 1
    requires 3 * lim.call + lim.land + 2 * Lag(lim) + RETRY_GAP_CAP < lim.ttl / 20
    ensures Fits(lim)
  {
    SlackIsATwentieth(lim.ttl);
    assert Reserve(lim, 1) == lim.call + RetryGap(lim.ttl) + Lag(lim) + Reserve(lim, 0);
  }

  // --- exactly when keys go cold ---

  lemma StartReaches(lim: Limits, now: int)
    ensures Reaches(lim, Start(now))
  {
    assert RunsTo(lim, now, [], Start(now));
  }

  lemma {:induction false} RunAppend(lim: Limits, s: State, steps: seq<Step>, step: Step)
    requires Able(lim.ttl, s, steps) && AllKind(lim, s, steps)
    requires Enabled(lim.ttl, Run(lim.ttl, s, steps), step) && Kind(lim, Run(lim.ttl, s, steps), step)
    ensures Able(lim.ttl, s, steps + [step]) && AllKind(lim, s, steps + [step])
    ensures Run(lim.ttl, s, steps + [step]) == Next(lim.ttl, Run(lim.ttl, s, steps), step)
    decreases |steps|
  {
    var all := steps + [step];
    if steps == [] {
      assert all[0] == step && all[1..] == [];
    } else {
      assert all[0] == steps[0] && all[1..] == steps[1..] + [step];
      RunAppend(lim, Next(lim.ttl, s, steps[0]), steps[1..], step);
    }
  }

  lemma Onward(lim: Limits, s: State, step: Step) returns (t: State)
    requires Reaches(lim, s) && Enabled(lim.ttl, s, step) && Kind(lim, s, step)
    ensures t == Next(lim.ttl, s, step) && Reaches(lim, t)
  {
    t := Next(lim.ttl, s, step);
    var now, steps :| RunsTo(lim, now, steps, s);
    RunAppend(lim, Start(now), steps, step);
    assert RunsTo(lim, now, steps + [step], t);
  }

  const KEY := "k"

  // One key, warmed once at time 0 with some jitter and then left alone.
  function Once(lim: Limits, jitter: int): State
    requires lim.ttl > 0
  {
    var ahead := RefreshAhead(lim.ttl);
    State(0, Pass({}), map[KEY := ahead], ahead, 0, map[KEY := Expiry(lim.ttl, 0, jitter)], map[KEY := 0], map[])
  }

  // Listed for the first time, and taken up.
  function Fetching(lim: Limits): State
    requires lim.ttl > 0
  {
    State(0, Warming(Fetch(KEY, 0, 0, false, None), {}), map[KEY := 0], RefreshAhead(lim.ttl), 0, map[], map[], map[])
  }

  lemma FetchingReaches(lim: Limits)
    requires RefreshAhead(lim.ttl) > 0 && lim.keys >= 1
    ensures Reaches(lim, Fetching(lim))
  {
    StartReaches(lim, 0);
    var s := Onward(lim, Start(0), StartList);
    s := Onward(lim, s, Listed({KEY}));
    assert s == Fetching(lim).(phase := Pass({KEY}));
    BeginReaches(lim, s, KEY);
  }

  lemma OnceReaches(lim: Limits, jitter: int)
    requires RefreshAhead(lim.ttl) > 0 && lim.keys >= 1 && JitterInRange(lim.ttl, jitter)
    ensures Reaches(lim, Once(lim, jitter))
  {
    FetchingReaches(lim);
    var s := Onward(lim, Fetching(lim), Answer(Warmed, jitter));
    Finished(lim, s);
    assert Rescheduled(s.next, KEY, Warmed, lim.ttl, 0) == map[KEY := RefreshAhead(lim.ttl)];
  }

  // Its second refresh just begun, at its deadline.
  function Twice(lim: Limits, jitter: int): State
    requires lim.ttl > 0
  {
    var ahead := RefreshAhead(lim.ttl);
    State(ahead, Warming(Fetch(KEY, ahead, 0, false, None), {}), map[KEY := ahead], 2 * ahead, 0,
          map[KEY := Expiry(lim.ttl, 0, jitter)], map[KEY := 0], map[])
  }

  // Awake again at the deadline, with a relist just finished.
  function Relisted(lim: Limits, jitter: int): State
    requires lim.ttl > 0
  {
    var ahead := RefreshAhead(lim.ttl);
    State(ahead, Pass({KEY}), map[KEY := ahead], 2 * ahead, 0, map[KEY := Expiry(lim.ttl, 0, jitter)], map[KEY := 0],
          map[])
  }

  // The loop sleeps until its timer, and nothing happens meanwhile.
  lemma SleepReaches(lim: Limits, s: State, due: int)
    requires RefreshAhead(lim.ttl) > 0 && Reaches(lim, s) && s.phase == Pass({}) && s.now <= due && s.landings == map[]
    requires IsEarliest(s.next, s.relistAt, due)
    ensures Reaches(lim, s.(phase := Idle(s.now, due))) && Reaches(lim, s.(now := due, phase := Top(0)))
  {
    var t := Onward(lim, s, Rest(due));
    t := Onward(lim, t, Tick(due - s.now));
    t := Onward(lim, t, Wake);
  }

  lemma ListReaches(lim: Limits, s: State)
    requires RefreshAhead(lim.ttl) > 0 && Reaches(lim, s) && s.phase.Listing? && |s.next.Keys| <= lim.keys
    ensures Reaches(lim, s.(phase := Pass(s.next.Keys), relistAt := s.now + RefreshAhead(lim.ttl)))
  {
    var names := s.next.Keys;
    NothingNew(lim.ttl, s);
    assert Enabled(lim.ttl, s, Listed(names)) && Kind(lim, s, Listed(names));
    var u := Onward(lim, s, Listed(names));
  }

  // A relist that finds nothing new.
  lemma RelistReaches(lim: Limits, s: State)
    requires RefreshAhead(lim.ttl) > 0 && Reaches(lim, s) && s.phase == Top(0)
    requires s.relistAt <= s.now && |s.next.Keys| <= lim.keys
    ensures Reaches(lim, s.(phase := Pass(s.next.Keys), relistAt := s.now + RefreshAhead(lim.ttl)))
  {
    var t := Onward(lim, s, StartList);
    ListReaches(lim, s.(phase := Listing(s.now, 0)));
  }

  // A pass taken up without a relist, by the one key that is due.
  lemma PassReaches(lim: Limits, s: State)
    requires RefreshAhead(lim.ttl) > 0 && Reaches(lim, s) && s.phase == Top(0) && s.now < s.relistAt
    ensures Reaches(lim, s.(phase := Pass(s.next.Keys)))
  {
    var t := Onward(lim, s, NoList);
  }

  lemma BeginReaches(lim: Limits, s: State, n: string)
    requires RefreshAhead(lim.ttl) > 0 && Reaches(lim, s) && s.phase == Pass({n}) && n in s.next && s.next[n] <= s.now
    ensures Reaches(lim, s.(phase := Warming(Fetch(n, s.now, s.seqno, false, None), {})))
  {
    assert {n} - {n} == {};
    var t := Onward(lim, s, Begin(n));
  }

  lemma ReleasesNothing(s: State)
    ensures Bumped(Released(s, {}), 0) == s
  {
    assert s.entries - {} == s.entries;
    assert s.misses - {} == s.misses;
    assert s.landings - {} == s.landings;
  }

  lemma NothingNew(ttl: int, s: State)
    ensures AfterListing(ttl, s, s.next.Keys) == s.(phase := Pass(s.next.Keys), relistAt := s.now + RefreshAhead(ttl))
  {
    assert s.next.Keys - s.next.Keys == {};
    ReleasesNothing(s);
    assert Reconciled(s.next, s.next.Keys, s.now) == s.next;
  }

  lemma AwakeReaches(lim: Limits, jitter: int)
    requires RefreshAhead(lim.ttl) > 0 && lim.keys >= 1 && JitterInRange(lim.ttl, jitter)
    ensures Reaches(lim, Once(lim, jitter).(now := RefreshAhead(lim.ttl), phase := Top(0)))
  {
    var once := Once(lim, jitter);
    OnceReaches(lim, jitter);
    assert KEY in once.next && once.next[KEY] == RefreshAhead(lim.ttl);
    SleepReaches(lim, once, RefreshAhead(lim.ttl));
  }

  lemma RelistedReaches(lim: Limits, jitter: int)
    requires RefreshAhead(lim.ttl) > 0 && lim.keys >= 1 && JitterInRange(lim.ttl, jitter)
    ensures Reaches(lim, Relisted(lim, jitter))
  {
    var s := Once(lim, jitter).(now := RefreshAhead(lim.ttl), phase := Top(0));
    AwakeReaches(lim, jitter);
    assert s.next.Keys == {KEY};
    RelistReaches(lim, s);
  }

  lemma TwiceReaches(lim: Limits, jitter: int)
    requires RefreshAhead(lim.ttl) > 0 && lim.keys >= 1 && JitterInRange(lim.ttl, jitter)
    ensures Reaches(lim, Twice(lim, jitter))
  {
    RelistedReaches(lim, jitter);
    BeginReaches(lim, Relisted(lim, jitter), KEY);
  }

  // An answer that stores nothing and drops nothing.
  lemma Unmoved(lim: Limits, s: State, out: Outcome)
    requires RefreshAhead(lim.ttl) > 0 && Reaches(lim, s) && s.phase.Warming? && s.phase.fetch.answer.None?
    requires !out.Warmed? && !out.NotFound? && KindAnswer(lim, s, s.phase.fetch, out)
    ensures Reaches(lim, s.(phase := s.phase.(fetch := s.phase.fetch.(answer := Some(out)))))
  {
    UnmovedStep(lim, s, out);
    var t := Onward(lim, s, Answer(out, 0));
  }

  lemma UnmovedStep(lim: Limits, s: State, out: Outcome)
    requires RefreshAhead(lim.ttl) > 0 && s.phase.Warming? && s.phase.fetch.answer.None?
    requires !out.Warmed? && !out.NotFound? && KindAnswer(lim, s, s.phase.fetch, out)
    ensures Enabled(lim.ttl, s, Answer(out, 0)) && Kind(lim, s, Answer(out, 0))
    ensures Next(lim.ttl, s, Answer(out, 0)) == s.(phase := s.phase.(fetch := s.phase.fetch.(answer := Some(out))))
  {}

  lemma Finished(lim: Limits, s: State)
    requires RefreshAhead(lim.ttl) > 0 && Reaches(lim, s) && s.phase.Warming? && s.phase.fetch.answer.Some?
    ensures var f := s.phase.fetch;
            Reaches(lim, s.(phase := Pass(s.phase.todo), next := Rescheduled(s.next, f.name, f.answer.value, lim.ttl, s.now),
                            misses := Noted(s.misses, f.name, f.answer.value)))
  {
    var t := Onward(lim, s, Finish);
  }

  // Another secret is saved while the refresh waits.
  lemma SaveReaches(lim: Limits, s: State, n: string, jitter: int)
    requires RefreshAhead(lim.ttl) > 0 && Reaches(lim, s) && JitterInRange(lim.ttl, jitter)
    requires s.phase.Warming? && s.phase.fetch.name != n && n !in s.misses && s.landings == map[]
    ensures Reaches(lim, s.(entries := s.entries[n := Expiry(lim.ttl, s.now, jitter)], seqno := s.seqno + 1))
  {
    var t := Onward(lim, s, Saved(n, jitter));
  }

  // Its answer then comes too late for the cache.
  lemma IgnoredReaches(lim: Limits, s: State)
    requires RefreshAhead(lim.ttl) > 0 && Reaches(lim, s) && s.phase.Warming? && s.phase.fetch.answer.None?
    requires s.phase.fetch.at != s.seqno && lim.discards
    ensures Reaches(lim, s.(phase := s.phase.(fetch := s.phase.fetch.(answer := Some(Warmed)))))
  {
    IgnoredStep(lim, s);
    var t := Onward(lim, s, Answer(Warmed, 0));
  }

  lemma IgnoredStep(lim: Limits, s: State)
    requires RefreshAhead(lim.ttl) > 0 && s.phase.Warming? && s.phase.fetch.answer.None?
    requires s.phase.fetch.at != s.seqno && lim.discards
    ensures Enabled(lim.ttl, s, Answer(Warmed, 0)) && Kind(lim, s, Answer(Warmed, 0))
    ensures Next(lim.ttl, s, Answer(Warmed, 0)) == s.(phase := s.phase.(fetch := s.phase.fetch.(answer := Some(Warmed))))
  {}

  // A refresh that leaves the entry as it was and the next one a whole cadence away.
  predicate Stranded(lim: Limits, t: State, jitter: int) {
    && lim.ttl > 0 && t.landings == map[] && t.phase == Pass({}) && t.now == RefreshAhead(lim.ttl) && KEY in t.misses
    && t.next == map[KEY := 2 * RefreshAhead(lim.ttl)] && t.relistAt == 2 * RefreshAhead(lim.ttl)
    && KEY in t.entries && t.entries[KEY] == Expiry(lim.ttl, 0, jitter)
  }

  // The refresh at its deadline ends with the entry as it was and the next one a whole cadence away.
  lemma EndStrands(lim: Limits, s: State, jitter: int, out: Outcome) returns (t: State)
    requires RefreshAhead(lim.ttl) > 0 && Reaches(lim, s) && !out.NotFound? && !out.Transient?
    requires var ahead := RefreshAhead(lim.ttl);
             && s.phase.Warming? && s.phase.fetch.name == KEY && s.phase.todo == {} && s.phase.fetch.answer == Some(out)
             && s.now == ahead && s.next == map[KEY := ahead] && s.relistAt == 2 * ahead && KEY in s.misses
             && s.landings == map[] && KEY in s.entries && s.entries[KEY] == Expiry(lim.ttl, 0, jitter)
    ensures Reaches(lim, t) && Stranded(lim, t, jitter)
  {
    Finished(lim, s);
    t := s.(phase := Pass({}), next := Rescheduled(s.next, KEY, out, lim.ttl, s.now), misses := Noted(s.misses, KEY, out));
    assert t.next == map[KEY := 2 * RefreshAhead(lim.ttl)];
  }

  lemma LivesShorter(lim: Limits, t: State, jitter: int)
    requires lim.ttl >= 20 && JitterInRange(lim.ttl, jitter) && Stranded(lim, t, jitter)
    ensures t.entries[KEY] < t.next[KEY]
  {}

  // Parking a key after a rate limit or a permanent error strands it: whatever its jitter, its entry expires
  // before it is due again.
  lemma ParkingStrands(lim: Limits, jitter: int, out: Outcome) returns (t: State)
    requires RefreshAhead(lim.ttl) > 0 && lim.keys >= 1 && JitterInRange(lim.ttl, jitter)
    requires lim.parks && (out.RateLimited? || out.Permanent?)
    ensures Reaches(lim, t) && Stranded(lim, t, jitter)
    ensures lim.ttl >= 20 ==> t.entries[KEY] < t.next[KEY]
  {
    var s := Twice(lim, jitter);
    TwiceReaches(lim, jitter);
    Unmoved(lim, s, out);
    t := EndStrands(lim, s.(phase := s.phase.(fetch := s.phase.fetch.(answer := Some(out)))), jitter, out);
    if lim.ttl >= 20 {
      LivesShorter(lim, t, jitter);
    }
  }

  // So does a successful refresh whose fill is discarded because another secret was saved meanwhile: the loop
  // takes it for a success.
  lemma DiscardedFillStrands(lim: Limits, jitter: int) returns (t: State)
    requires RefreshAhead(lim.ttl) > 0 && lim.keys >= 1 && JitterInRange(lim.ttl, jitter) && lim.discards
    ensures Reaches(lim, t) && Stranded(lim, t, jitter)
    ensures lim.ttl >= 20 ==> t.entries[KEY] < t.next[KEY]
  {
    var s := Twice(lim, jitter);
    TwiceReaches(lim, jitter);
    SaveReaches(lim, s, "other", jitter);
    var u := s.(entries := s.entries["other" := Expiry(lim.ttl, s.now, jitter)], seqno := 1);
    IgnoredReaches(lim, u);
    t := EndStrands(lim, u.(phase := u.phase.(fetch := u.phase.fetch.(answer := Some(Warmed)))), jitter, Warmed);
    if lim.ttl >= 20 {
      LivesShorter(lim, t, jitter);
    }
  }

  lemma StrandedGoesCold(lim: Limits, t: State)
    requires RefreshAhead(lim.ttl) > 0 && Reaches(lim, t) && Stranded(lim, t, 0)
    ensures !KeepsWarm(lim)
  {
    var ahead := RefreshAhead(lim.ttl);
    var u := Onward(lim, t, Rest(2 * ahead));
    u := Onward(lim, u, Tick(LeastLife(lim.ttl) - ahead));
    assert !IsLive(u, KEY);
  }

  lemma PushedOutGoesCold(lim: Limits)
    requires RefreshAhead(lim.ttl) > 0 && lim.keys >= 1 && lim.evicts
    ensures !KeepsWarm(lim)
  {
    OnceReaches(lim, 0);
    var t := Onward(lim, Once(lim, 0), PushOut({KEY}));
    assert !IsLive(t, KEY);
  }

  // n times a span of time.
  function Total(n: nat, each: int): int {
    if n == 0 then 0 else each + Total(n - 1, each)
  }

  lemma {:induction false} TotalMultiplies(n: nat, each: int)
    ensures Total(n, each) == n * each
  {
    if n > 0 {
      TotalMultiplies(n - 1, each);
      assert n * each == (n - 1) * each + each;
    }
  }

  lemma {:induction false} TotalIsNat(n: nat, each: nat)
    ensures Total(n, each) >= 0
  {
    if n > 0 {
      TotalIsNat(n - 1, each);
    }
  }

  // One relist fails, and the loop waits as long as it may.
  lemma ListingFails(lim: Limits, s: State, tried: nat)
    requires RefreshAhead(lim.ttl) > 0 && Reaches(lim, s) && s.phase == Top(tried) && s.relistAt <= s.now
    requires tried < lim.relists && s.landings == map[]
    ensures Reaches(lim, s.(now := s.now + lim.pause, phase := Top(tried + 1)))
  {
    var t := Onward(lim, s, StartList);
    t := Onward(lim, t, ListFailed);
    t := Onward(lim, t, Tick(lim.pause));
    t := Onward(lim, t, Resume);
  }

  lemma {:induction false} ListingsFail(lim: Limits, s: State, tried: nat, left: nat)
    requires RefreshAhead(lim.ttl) > 0 && Reaches(lim, s) && s.phase == Top(tried) && s.relistAt <= s.now
    requires tried + left == lim.relists && s.landings == map[]
    ensures Reaches(lim, s.(now := s.now + Total(left, lim.pause), phase := Top(lim.relists)))
    decreases left
  {
    if left > 0 {
      ListingFails(lim, s, tried);
      ListingsFail(lim, s.(now := s.now + lim.pause, phase := Top(tried + 1)), tried + 1, left - 1);
    }
  }

  // The longest a relist may take.
  function Waits(lim: Limits): int {
    Total(lim.relists, lim.pause)
  }

  // The refresh has failed n times and is being tried again, its deadline and a relist having come due together
  // and the relist having failed as often as it may.
  function Failing(lim: Limits, n: nat, at: int): State
    requires lim.ttl > 0
  {
    State(at, Warming(Fetch(KEY, at, 0, false, None), {}), map[KEY := at - Waits(lim)], at + RefreshAhead(lim.ttl), 0,
          map[KEY := LeastLife(lim.ttl)], map[KEY := n], map[])
  }

  // The deadline and the relist have just come due.
  function Due(lim: Limits, n: nat, at: int): State
    requires lim.ttl > 0
  {
    State(at, Top(0), map[KEY := at], at, 0, map[KEY := LeastLife(lim.ttl)], map[KEY := n], map[])
  }

  lemma RelistsAtLast(lim: Limits, n: nat, at: int)
    requires RefreshAhead(lim.ttl) > 0 && Reaches(lim, Due(lim, n, at)) && lim.keys >= 1
    ensures var late := at + Waits(lim);
            Reaches(lim, Due(lim, n, at).(now := late, phase := Pass({KEY}), relistAt := late + RefreshAhead(lim.ttl)))
  {
    var s, late := Due(lim, n, at), at + Waits(lim);
    ListingsFail(lim, s, 0, lim.relists);
    TotalIsNat(lim.relists, lim.pause);
    var t := Onward(lim, s.(now := late, phase := Top(lim.relists)), StartList);
    assert t.next.Keys == {KEY};
    ListReaches(lim, s.(now := late, phase := Listing(late, lim.relists)));
  }

  lemma TriesAgain(lim: Limits, n: nat, at: int)
    requires RefreshAhead(lim.ttl) > 0 && Reaches(lim, Due(lim, n, at)) && lim.keys >= 1
    ensures Reaches(lim, Failing(lim, n, at + Waits(lim)))
  {
    var late := at + Waits(lim);
    RelistsAtLast(lim, n, at);
    TotalIsNat(lim.relists, lim.pause);
    BeginReaches(lim, Due(lim, n, at).(now := late, phase := Pass({KEY}), relistAt := late + RefreshAhead(lim.ttl)), KEY);
  }

  // It has failed once more, with the retry `gap` away.
  function Failed(lim: Limits, n: nat, at: int, gap: int): State
    requires lim.ttl > 0
  {
    Failing(lim, n, at).(phase := Pass({}), next := map[KEY := at + gap])
  }

  lemma FailsOnce(lim: Limits, n: nat, at: int)
    requires RefreshAhead(lim.ttl) > 0 && n < lim.retries && Reaches(lim, Failing(lim, n, at))
    ensures Reaches(lim, Failed(lim, n + 1, at, RetryGap(lim.ttl)))
  {
    var s := Failing(lim, n, at);
    Unmoved(lim, s, Transient);
    Finished(lim, s.(phase := Warming(s.phase.fetch.(answer := Some(Transient)), {})));
    FailedOnce(lim, n, at);
  }

  lemma FailedOnce(lim: Limits, n: nat, at: int)
    requires lim.ttl > 0
    ensures Rescheduled(Failing(lim, n, at).next, KEY, Transient, lim.ttl, at) == map[KEY := at + RetryGap(lim.ttl)]
    ensures Noted(Failing(lim, n, at).misses, KEY, Transient) == map[KEY := n + 1]
  {}

  lemma RetryWaits(lim: Limits, n: nat, at: int, gap: int)
    requires 0 <= gap <= RefreshAhead(lim.ttl) && RefreshAhead(lim.ttl) > 0 && Reaches(lim, Failed(lim, n, at, gap))
    ensures Reaches(lim, Failed(lim, n, at, gap).(now := at + gap, phase := Idle(at, at + gap)))
  {
    var s := Failed(lim, n, at, gap);
    assert s.next == map[KEY := at + gap] && s.next[KEY] == at + gap;
    var t := Onward(lim, s, Rest(at + gap));
    t := Onward(lim, t, Tick(gap));
  }

  // A flush is asked for at the very moment the retry falls due.
  lemma RetryDue(lim: Limits, n: nat, at: int, gap: int)
    requires 0 <= gap <= RefreshAhead(lim.ttl) && RefreshAhead(lim.ttl) > 0 && Reaches(lim, Failed(lim, n, at, gap))
    ensures Reaches(lim, Due(lim, n, at + gap))
  {
    RetryWaits(lim, n, at, gap);
    var s := Failed(lim, n, at, gap).(now := at + gap, phase := Idle(at, at + gap));
    assert Primed(s.next, s.now) == map[KEY := at + gap];
    var t := Onward(lim, s, Reprime);
  }

  // When refreshes of one key fail n times in a row, each after all the relists before it that may fail.
  function FailingAt(lim: Limits, n: nat): int {
    RefreshAhead(lim.ttl) + Waits(lim) + Total(n, RetryGap(lim.ttl) + Waits(lim))
  }

  lemma {:induction false} FailuresPileUp(lim: Limits, n: nat)
    requires RefreshAhead(lim.ttl) > 0 && RetryGap(lim.ttl) >= 0 && lim.keys >= 1 && n <= lim.retries
    ensures Reaches(lim, Failing(lim, n, FailingAt(lim, n)))
  {
    if n == 0 {
      AwakeReaches(lim, 0);
      TriesAgain(lim, 0, RefreshAhead(lim.ttl));
    } else {
      var at := FailingAt(lim, n - 1);
      FailuresPileUp(lim, n - 1);
      FailsOnce(lim, n - 1, at);
      RetryDue(lim, n, at, RetryGap(lim.ttl));
      TriesAgain(lim, n, at + RetryGap(lim.ttl));
    }
  }

  // Failing relists and failing refreshes, when nothing else takes time, can outlast an entry.
  lemma FailuresGoCold(lim: Limits)
    requires RefreshAhead(lim.ttl) > 0 && RetryGap(lim.ttl) >= 0 && lim.keys >= 1
    requires FailingAt(lim, lim.retries) >= LeastLife(lim.ttl)
    ensures !KeepsWarm(lim)
  {
    FailuresPileUp(lim, lim.retries);
    var t := Failing(lim, lim.retries, FailingAt(lim, lim.retries));
    assert KEY in t.misses && !IsLive(t, KEY);
  }

  // A lifetime of whole seconds, and calls that take no time; the waits after failing relists do.
  predicate Instant(lim: Limits, seconds: nat) {
    && lim.ttl == seconds * 1_000_000_000 && seconds >= 1
    && lim.call == lim.list == lim.wake == lim.land == 0
  }

  lemma {:induction false} InstantSpan(lim: Limits, seconds: nat, m: nat)
    requires Instant(lim, seconds)
    ensures Span(lim, m) == 0
  {
    if m > 0 {
      InstantSpan(lim, seconds, m - 1);
    }
  }

  lemma {:induction false} InstantListings(lim: Limits, seconds: nat, m: nat)
    requires Instant(lim, seconds)
    ensures Listings(lim, m) == Total(m, lim.pause)
  {
    if m > 0 {
      InstantListings(lim, seconds, m - 1);
    }
  }

  lemma {:induction false} InstantReserve(lim: Limits, seconds: nat, m: nat)
    requires Instant(lim, seconds)
    ensures Reserve(lim, m) == Total(m, RetryGap(lim.ttl) + Waits(lim)) + 1
  {
    InstantSpan(lim, seconds, lim.keys);
    InstantListings(lim, seconds, lim.relists);
    if m > 0 {
      InstantReserve(lim, seconds, m - 1);
    }
  }

  lemma InstantTimes(lim: Limits, seconds: nat)
    requires Instant(lim, seconds)
    ensures RefreshAhead(lim.ttl) == seconds * 750_000_000 && LeastLife(lim.ttl) == seconds * 800_000_000
    ensures RetryGap(lim.ttl) == Min(RETRY_GAP_CAP, seconds * 250_000_000)
  {}

  // The latest a refresh can begin is before the earliest an entry can expire.
  lemma InstantFitsIff(lim: Limits, seconds: nat)
    requires Instant(lim, seconds) && NoMishaps(lim)
    ensures Fits(lim) <==> FailingAt(lim, lim.retries) < LeastLife(lim.ttl)
  {
    InstantTimes(lim, seconds);
    InstantSpan(lim, seconds, lim.keys);
    InstantListings(lim, seconds, lim.relists);
    InstantReserve(lim, seconds, lim.retries);
  }

  // What failing relists and failing refreshes cost, five seconds a failure.
  function Losses(lim: Limits): int {
    lim.retries * 5_000_000_000 + (lim.retries + 1) * (lim.relists * lim.pause)
  }

  lemma LatestIs(lim: Limits, n: nat, gap: int, wait: int)
    requires gap == RetryGap(lim.ttl) && wait == lim.relists * lim.pause
    ensures FailingAt(lim, n) == RefreshAhead(lim.ttl) + n * gap + (n + 1) * wait
  {
    TotalMultiplies(lim.relists, lim.pause);
    TotalMultiplies(n, gap + wait);
    assert n * (gap + wait) + wait == n * gap + (n + 1) * wait;
  }

  lemma Several(n: nat, x: nat)
    requires n > 0
    ensures n * x >= x
  {
    assert n * x == x + (n - 1) * x;
  }

  // Under 20 seconds the gap is shorter than five, but one of it is already too long.
  lemma GapsFitIff(retries: nat, gap: int, seconds: nat, waits: int)
    requires seconds >= 1 && gap == Min(RETRY_GAP_CAP, seconds * 250_000_000) && waits >= 0
    ensures retries * gap + waits < seconds * 50_000_000 <==> retries * RETRY_GAP_CAP + waits < seconds * 50_000_000
  {
    if seconds >= 20 {
      assert gap == RETRY_GAP_CAP;
    } else if retries > 0 {
      assert gap == seconds * 250_000_000;
      Several(retries, gap);
      Several(retries, RETRY_GAP_CAP);
    }
  }

  lemma MarginIff(lim: Limits, seconds: nat)
    requires Instant(lim, seconds)
    ensures FailingAt(lim, lim.retries) < LeastLife(lim.ttl) <==> Losses(lim) < seconds * 50_000_000
  {
    var gap, wait := RetryGap(lim.ttl), lim.relists * lim.pause;
    InstantTimes(lim, seconds);
    LatestIs(lim, lim.retries, gap, wait);
    assert wait >= 0 && (lim.retries + 1) * wait >= 0;
    GapsFitIff(lim.retries, gap, seconds, (lim.retries + 1) * wait);
  }

  // With calls that take no time, for every number of keys, of failing relists and of failing refreshes in a
  // row, and every wait after a failing relist: all runs keep all keys warm if and only if no refresh of a warmed
  // key is parked, no fill of one is discarded, no entry is pushed out, and a twentieth of the lifetime exceeds
  // five seconds for each failing refresh and, for each refresh, failing or not, the waits for relists.
  lemma KeepsWarmIff(lim: Limits, seconds: nat)
    requires Instant(lim, seconds) && lim.keys >= 1
    ensures KeepsWarm(lim) <==> NoMishaps(lim) && Losses(lim) < seconds * 50_000_000
  {
    InstantTimes(lim, seconds);
    MarginIff(lim, seconds);
    if lim.parks {
      var t := ParkingStrands(lim, 0, RateLimited);
      StrandedGoesCold(lim, t);
    } else if lim.discards {
      var t := DiscardedFillStrands(lim, 0);
      StrandedGoesCold(lim, t);
    } else if lim.evicts {
      PushedOutGoesCold(lim);
    } else {
      InstantFitsIff(lim, seconds);
      if Losses(lim) < seconds * 50_000_000 {
        KeysStayWarm(lim);
      } else {
        FailuresGoCold(lim);
      }
    }
  }

  // When failing relists cost no time: over 100 seconds of lifetime for each failing refresh in a row.
  lemma KeepsWarmPerFailure(lim: Limits, seconds: nat)
    requires Instant(lim, seconds) && lim.keys >= 1 && (lim.relists == 0 || lim.pause == 0)
    ensures KeepsWarm(lim) <==> NoMishaps(lim) && seconds > 100 * lim.retries
  {
    KeepsWarmIff(lim, seconds);
    assert lim.relists * lim.pause == 0;
  }

  // --- secrets deleted elsewhere ---

  // What every run keeps, whatever the latencies.
  predicate WellPlaced(s: State) {
    DenialsHold(s) && PhasePlaced(s)
  }

  // A denial that may still be joined stands.
  predicate DenialsHold(s: State) {
    forall n | n in s.landings :: !s.landings[n].found ==> n !in s.entries
  }

  predicate PhasePlaced(s: State) {
    match s.phase
    case Pass(todo) => todo <= s.next.Keys
    case Warming(f, todo) => f.name in s.next && f.name !in todo && todo <= s.next.Keys
    case _ => true
  }

  lemma PassKeepsDenials(ttl: int, s: State, step: Step)
    requires DenialsHold(s) && Enabled(ttl, s, step) && OfPass(step)
    ensures DenialsHold(Next(ttl, s, step))
  {}

  lemma StepKeepsDenials(ttl: int, s: State, step: Step)
    requires DenialsHold(s) && Enabled(ttl, s, step)
    ensures DenialsHold(Next(ttl, s, step))
  {
    if OfPass(step) {
      PassKeepsDenials(ttl, s, step);
    }
  }

  lemma PassKeepsPlaced(ttl: int, s: State, step: Step)
    requires PhasePlaced(s) && Enabled(ttl, s, step) && OfPass(step)
    ensures PhasePlaced(Next(ttl, s, step))
  {}

  lemma RestKeepsPlaced(ttl: int, s: State, step: Step)
    requires PhasePlaced(s) && Enabled(ttl, s, step) && !OfPass(step)
    ensures PhasePlaced(Next(ttl, s, step))
  {}

  lemma StepKeepsPhase(ttl: int, s: State, step: Step)
    requires PhasePlaced(s) && Enabled(ttl, s, step)
    ensures PhasePlaced(Next(ttl, s, step))
  {
    if OfPass(step) {
      PassKeepsPlaced(ttl, s, step);
    } else {
      RestKeepsPlaced(ttl, s, step);
    }
  }

  lemma StepKeepsPlaced(ttl: int, s: State, step: Step)
    requires WellPlaced(s) && Enabled(ttl, s, step)
    ensures WellPlaced(Next(ttl, s, step))
  {
    StepKeepsDenials(ttl, s, step);
    StepKeepsPhase(ttl, s, step);
  }

  // The name is neither listed, saved nor found by a client's fetch.
  predicate Returns(step: Step, k: string) {
    match step
    case Listed(names) => k in names
    case Saved(n, _) => n == k
    case ReadFill(n, _) => n == k
    case _ => false
  }

  // Nobody else drops its entry either.
  predicate Touches(step: Step, k: string) {
    match step
    case Dropped(names) => k in names
    case ReadDenied(n) => n == k
    case PushOut(names) => k in names
    case _ => Returns(step, k)
  }

  // The warmer has given k up, or is about to.
  predicate GivenUp(s: State, k: string) {
    if s.phase.Warming? && s.phase.fetch.name == k then s.phase.fetch.answer == Some(NotFound) else k !in s.next
  }

  lemma PassKeepsGivenUp(ttl: int, s: State, step: Step, k: string)
    requires PhasePlaced(s) && Enabled(ttl, s, step) && GivenUp(s, k) && OfPass(step)
    ensures GivenUp(Next(ttl, s, step), k)
  {}

  lemma RestKeepsGivenUp(ttl: int, s: State, step: Step, k: string)
    requires Enabled(ttl, s, step) && GivenUp(s, k) && !Returns(step, k) && !OfPass(step)
    ensures GivenUp(Next(ttl, s, step), k)
  {}

  lemma StepKeepsGivenUp(ttl: int, s: State, step: Step, k: string)
    requires PhasePlaced(s) && Enabled(ttl, s, step) && GivenUp(s, k) && !Returns(step, k)
    ensures GivenUp(Next(ttl, s, step), k)
  {
    if OfPass(step) {
      PassKeepsGivenUp(ttl, s, step, k);
    } else {
      RestKeepsGivenUp(ttl, s, step, k);
    }
  }

  // Nothing the loop does then reaches its entry.
  lemma PassSparesEntry(ttl: int, s: State, step: Step, k: string)
    requires PhasePlaced(s) && Enabled(ttl, s, step) && GivenUp(s, k) && OfPass(step)
    ensures k in Next(ttl, s, step).entries <==> k in s.entries
    ensures k in s.entries ==> Next(ttl, s, step).entries[k] == s.entries[k]
  {}

  lemma RestSparesEntry(ttl: int, s: State, step: Step, k: string)
    requires Enabled(ttl, s, step) && GivenUp(s, k) && !Returns(step, k) && !OfPass(step)
    ensures k !in s.entries ==> k !in Next(ttl, s, step).entries
    ensures k in s.entries && !Touches(step, k) ==>
              k in Next(ttl, s, step).entries && Next(ttl, s, step).entries[k] == s.entries[k]
  {}

  lemma StepSparesEntry(ttl: int, s: State, step: Step, k: string)
    requires PhasePlaced(s) && Enabled(ttl, s, step) && GivenUp(s, k) && !Returns(step, k)
    ensures k !in s.entries ==> k !in Next(ttl, s, step).entries
    ensures k in s.entries && !Touches(step, k) ==>
              k in Next(ttl, s, step).entries && Next(ttl, s, step).entries[k] == s.entries[k]
  {
    if OfPass(step) {
      PassSparesEntry(ttl, s, step, k);
    } else {
      RestSparesEntry(ttl, s, step, k);
    }
  }

  // A name given up stays so, and its entry stays away, or stays on, until someone else acts on it: a relist
  // only drops names that still have a deadline.
  lemma {:induction false} GivenUpLasts(ttl: int, s: State, steps: seq<Step>, k: string)
    requires WellPlaced(s) && Able(ttl, s, steps) && GivenUp(s, k) && forall x | x in steps :: !Returns(x, k)
    ensures GivenUp(Run(ttl, s, steps), k)
    ensures k !in s.entries ==> k !in Run(ttl, s, steps).entries
    ensures k in s.entries && (forall x | x in steps :: !Touches(x, k)) ==>
              k in Run(ttl, s, steps).entries && Run(ttl, s, steps).entries[k] == s.entries[k]
    decreases |steps|
  {
    if steps != [] {
      var t, rest := Next(ttl, s, steps[0]), steps[1..];
      assert forall x | x in rest :: x in steps;
      assert steps[0] in steps;
      StepKeepsPlaced(ttl, s, steps[0]);
      StepKeepsGivenUp(ttl, s, steps[0], k);
      StepSparesEntry(ttl, s, steps[0], k);
      GivenUpLasts(ttl, t, rest, k);
    }
  }

  lemma {:induction false} RunKeepsPlaced(ttl: int, s: State, steps: seq<Step>)
    requires WellPlaced(s) && Able(ttl, s, steps)
    ensures WellPlaced(Run(ttl, s, steps))
    decreases |steps|
  {
    if steps != [] {
      StepKeepsPlaced(ttl, s, steps[0]);
      RunKeepsPlaced(ttl, Next(ttl, s, steps[0]), steps[1..]);
    }
  }

  // On every run, a name with a deadline that a relist lacks is neither refreshed nor served from the cache
  // until it is listed, saved or found by a client's fetch.
  lemma DelistedIsEvicted(ttl: int, now: int, before: seq<Step>, names: set<string>, after: seq<Step>, k: string)
    requires Able(ttl, Start(now), before)
    requires var s := Run(ttl, Start(now), before);
             k in s.next && k !in names && Enabled(ttl, s, Listed(names)) && Able(ttl, Next(ttl, s, Listed(names)), after)
    requires forall x | x in after :: !Returns(x, k)
    ensures var t := Run(ttl, Next(ttl, Run(ttl, Start(now), before), Listed(names)), after);
            k !in t.next && k !in t.entries
  {
    var s := Run(ttl, Start(now), before);
    RunKeepsPlaced(ttl, Start(now), before);
    StepKeepsPlaced(ttl, s, Listed(names));
    var u := Next(ttl, s, Listed(names));
    RunKeepsPlaced(ttl, u, after);
    GivenUpLasts(ttl, u, after, k);
    NeverTakenUp(ttl, u, after, k);
  }

  lemma StaysUndue(ttl: int, s: State, step: Step, k: string)
    requires PhasePlaced(s) && Enabled(ttl, s, step) && k !in s.next && !Returns(step, k)
    ensures k !in Next(ttl, s, step).next
  {}

  // A name without a deadline is not taken up again.
  lemma {:induction false} NeverTakenUp(ttl: int, s: State, steps: seq<Step>, k: string)
    requires WellPlaced(s) && Able(ttl, s, steps) && k !in s.next && forall x | x in steps :: !Returns(x, k)
    ensures k !in Run(ttl, s, steps).next
    decreases |steps|
  {
    if steps != [] {
      assert steps[0] in steps && forall x | x in steps[1..] :: x in steps;
      StepKeepsPlaced(ttl, s, steps[0]);
      StaysUndue(ttl, s, steps[0], k);
      NeverTakenUp(ttl, Next(ttl, s, steps[0]), steps[1..], k);
    }
  }

  // While the warmer waits for the inner backend only others act.
  predicate Others(steps: seq<Step>) {
    forall x | x in steps :: x.Tick? || x.Saved? || x.Dropped? || x.ReadFill? || x.ReadDenied? || x.ReadEnds? || x.PushOut?
  }

  // A change to the cache that moves its sequence number on.
  predicate Bumps(step: Step) {
    step.Saved? || step.Dropped?
  }

  function BumpCount(steps: seq<Step>): nat {
    if steps == [] then 0 else (if Bumps(steps[0]) then 1 else 0) + BumpCount(steps[1..])
  }

  lemma FetchStays(ttl: int, s: State, step: Step)
    requires Enabled(ttl, s, step) && Others([step]) && s.phase.Warming?
    ensures var t := Next(ttl, s, step);
            && t.phase.Warming? && t.phase.fetch.name == s.phase.fetch.name && t.phase.fetch.at == s.phase.fetch.at
            && t.phase.fetch.answer == s.phase.fetch.answer && t.seqno == s.seqno + BumpCount([step])
  {
    assert step in [step];
    assert BumpCount([step]) == if Bumps(step) then 1 else 0;
  }

  lemma {:induction false} FetchWaits(ttl: int, s: State, steps: seq<Step>)
    requires Able(ttl, s, steps) && Others(steps) && s.phase.Warming?
    ensures var t := Run(ttl, s, steps);
            && t.phase.Warming? && t.phase.fetch.name == s.phase.fetch.name && t.phase.fetch.at == s.phase.fetch.at
            && t.phase.fetch.answer == s.phase.fetch.answer && t.seqno == s.seqno + BumpCount(steps)
    decreases |steps|
  {
    if steps != [] {
      assert steps[0] in steps && forall x | x in steps[1..] :: x in steps;
      FetchStays(ttl, s, steps[0]);
      assert BumpCount([steps[0]]) == if Bumps(steps[0]) then 1 else 0;
      FetchWaits(ttl, Next(ttl, s, steps[0]), steps[1..]);
    }
  }

  // On every run, a secret whose refresh finds it missing leaves the cache, until it is listed, saved or found
  // by a client's fetch, if and only if no change to the cache landed between the beginning of that refresh
  // and its answer. Otherwise its entry stays, with the expiry it had, and no later relist removes it.
  lemma FoundMissingIsEvictedIff(ttl: int, now: int, before: seq<Step>, k: string, between: seq<Step>, jitter: int,
                                 after: seq<Step>)
    requires Able(ttl, Start(now), before) && Enabled(ttl, Run(ttl, Start(now), before), Begin(k))
    requires var s := Next(ttl, Run(ttl, Start(now), before), Begin(k));
             Able(ttl, s, between) && Others(between) && Enabled(ttl, Run(ttl, s, between), Answer(NotFound, jitter))
    requires var s := Next(ttl, Run(ttl, Start(now), before), Begin(k));
             var u := Next(ttl, Run(ttl, s, between), Answer(NotFound, jitter));
             Able(ttl, u, after) && forall x | x in after :: !Touches(x, k)
    ensures var s := Next(ttl, Run(ttl, Start(now), before), Begin(k));
            var m := Run(ttl, s, between);
            var t := Run(ttl, Next(ttl, m, Answer(NotFound, jitter)), after);
            && (k in t.entries <==> k in m.entries && BumpCount(between) > 0)
            && (k in t.entries ==> t.entries[k] == m.entries[k])
            && GivenUp(t, k)
  {
    var r := Run(ttl, Start(now), before);
    RunKeepsPlaced(ttl, Start(now), before);
    var s := Next(ttl, r, Begin(k));
    StepKeepsPlaced(ttl, r, Begin(k));
    var m := Run(ttl, s, between);
    FetchWaits(ttl, s, between);
    RunKeepsPlaced(ttl, s, between);
    var u := Next(ttl, m, Answer(NotFound, jitter));
    StepKeepsPlaced(ttl, m, Answer(NotFound, jitter));
    assert forall x | x in after :: Returns(x, k) ==> Touches(x, k);
    GivenUpLasts(ttl, u, after, k);
  }

  // A refresh that joins a client's fetch which found the secret missing: it is out of the cache already, and
  // stays out until it is listed, saved or found by a client's fetch.
  lemma JoinedDenialIsEvicted(ttl: int, now: int, before: seq<Step>, k: string, after: seq<Step>)
    requires Able(ttl, Start(now), before)
    requires var s := Run(ttl, Start(now), before);
             && Enabled(ttl, s, Join(k)) && !s.landings[k].found && Able(ttl, Next(ttl, s, Join(k)), after)
    requires forall x | x in after :: !Returns(x, k)
    ensures var t := Run(ttl, Next(ttl, Run(ttl, Start(now), before), Join(k)), after);
            k !in t.entries && GivenUp(t, k)
  {
    var s := Run(ttl, Start(now), before);
    RunKeepsPlaced(ttl, Start(now), before);
    StepKeepsPlaced(ttl, s, Join(k));
    GivenUpLasts(ttl, Next(ttl, s, Join(k)), after, k);
  }
}
