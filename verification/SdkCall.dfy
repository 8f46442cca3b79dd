/** One guarded call into the 1Password SDK: bounded retry, fault detection and the exits that restart the
    process (backend/onepassword/onepassword.go). What each execution of the SDK does, and when the caller
    leaves, are parameters. */
module SdkCall {
  // A failure carries the tags the code tests it for. cut: the call's own deadline passed before the next
  // try could start.
  datatype Attempt = Worked | Failed(fault: bool, rate: bool, deadline: bool, auth: bool, cut: bool)

  // attempt(n) is the n-th execution of the SDK operation, gone(n) whether the caller has left once n
  // executions are over, stale whether the process is past its maximum age.
  datatype Env = Env(attempt: nat -> Attempt, gone: nat -> bool, stale: bool)

  datatype Outcome = Value | Canceled | Unavailable(rate: bool)

  const MAX_TRIES := 4
  const FAULT_RETRIES := 1
  const MAX_CONSEC_TIMEOUTS := 3

  const TIMED_OUT := Failed(false, false, true, false, true)

  predicate IsFault(a: Attempt) {
    a.Failed? && a.fault
  }

  // Tries from execution n on, left of them allowed: the result, and how many executions there have been.
  function RunOp(env: Env, n: nat, left: nat): (Attempt, nat)
    requires left > 0
    decreases left
  {
    var a := env.attempt(n);
    if a.Worked? || left == 1 || a.fault || a.rate then (a, n + 1)
    else if a.cut then (TIMED_OUT, n + 1)
    else RunOp(env, n + 1, left - 1)
  }

  function Tries(retryable: bool): nat {
    if retryable then MAX_TRIES else 1
  }

  function Retries(retryable: bool): nat {
    if retryable then FAULT_RETRIES else 0
  }

  // How the loop over faults ends: with a result, with the caller gone at a fault, or wedged.
  datatype End = Finished(result: Attempt) | Abandoned | Wedged(fault: Attempt)

  function Loop(env: Env, retryable: bool, n: nat, left: nat): (End, nat)
    decreases left
  {
    var (a, m) := RunOp(env, n, Tries(retryable));
    if !IsFault(a) then (Finished(a), m)
    else if env.gone(m) then (Abandoned, m)
    else if left == 0 then (Wedged(a), m)
    else Loop(env, retryable, m, left - 1)
  }

  // What one call did. exits are the codes the process was told to exit with.
  datatype Report = Report(outcome: Outcome, executions: nat, exits: seq<nat>, consec: nat, timedOut: bool)

  function Call(env: Env, retryable: bool, consec: nat): Report {
    var recycled := if env.stale then [0] else [];
    if env.gone(0) then Report(Canceled, 0, recycled, consec, false)
    else
      var (end, n) := Loop(env, retryable, 0, Retries(retryable));
      match end
      case Abandoned => Report(Canceled, n, recycled, consec, false)
      case Wedged(a) => Report(Unavailable(a.Failed? && a.rate), n, recycled + [1], consec, false)
      case Finished(a) =>
        if env.gone(n) then Report(Canceled, n, recycled, consec, false)
        else if a.Worked? then Report(Value, n, recycled, 0, false)
        else if a.deadline then
          Report(Unavailable(a.rate), n, recycled + if consec + 1 >= MAX_CONSEC_TIMEOUTS then [1] else [], consec + 1, true)
        else Report(Unavailable(a.rate), n, recycled, consec, false)
  }

  // --- laws ---

  // Faults among executions lo to hi.
  function Faults(env: Env, lo: nat, hi: nat): nat
    requires lo <= hi
    decreases hi - lo
  {
    if lo == hi then 0 else (if IsFault(env.attempt(lo)) then 1 else 0) + Faults(env, lo + 1, hi)
  }

  lemma {:induction false} FaultsSplit(env: Env, a: nat, b: nat, c: nat)
    requires a <= b <= c
    ensures Faults(env, a, c) == Faults(env, a, b) + Faults(env, b, c)
    decreases b - a
  {
    if a < b {
      FaultsSplit(env, a + 1, b, c);
    }
  }

  // One round executes between one and `left` times; only its last execution can work, be a fault or be
  // rate limited; and its result is that execution's, or a timeout.
  lemma {:induction false} RoundShape(env: Env, n: nat, left: nat)
    requires left > 0
    ensures var (a, m) := RunOp(env, n, left);
            && n < m <= n + left
            && Faults(env, n, m) == (if IsFault(a) then 1 else 0)
            && (IsFault(a) <==> IsFault(env.attempt(m - 1)))
            && (a.Worked? <==> env.attempt(m - 1).Worked?)
            && (forall k | n <= k < m - 1 :: env.attempt(k).Failed? && !env.attempt(k).fault && !env.attempt(k).rate)
    decreases left
  {
    var a := env.attempt(n);
    assert Faults(env, n + 1, n + 1) == 0;
    if !(a.Worked? || left == 1 || a.fault || a.rate || a.cut) {
      RoundShape(env, n + 1, left - 1);
    }
  }

  lemma {:induction false} LoopShape(env: Env, retryable: bool, n: nat, left: nat)
    ensures var (end, m) := Loop(env, retryable, n, left);
            && n < m <= n + (left + 1) * Tries(retryable)
            && (end.Wedged? <==> Faults(env, n, m) == left + 1 && !env.gone(m))
            && Faults(env, n, m) <= left + 1
            && (end.Finished? <==> !IsFault(env.attempt(m - 1)))
            && (end.Finished? && end.result.Worked? <==> env.attempt(m - 1).Worked?)
            && (end.Abandoned? ==> env.gone(m))
            && (forall k | n <= k < m - 1 :: env.attempt(k).Failed? && (IsFault(env.attempt(k)) ==> !env.gone(k + 1))
                                             && (env.attempt(k).rate ==> IsFault(env.attempt(k))))
    decreases left
  {
    RoundShape(env, n, Tries(retryable));
    var (a, m) := RunOp(env, n, Tries(retryable));
    if IsFault(a) && !env.gone(m) && left > 0 {
      LoopShape(env, retryable, m, left - 1);
      var (end, k) := Loop(env, retryable, m, left - 1);
      FaultsSplit(env, n, m, k);
    }
  }

  // An execution after which the round tries again if it may.
  predicate Passing(a: Attempt) {
    a.Failed? && !a.fault && !a.rate && !a.cut
  }

  // A round that makes `tries` tries from execution n on ends after execution m - 1: all before it failed in
  // passing, and that one did not, or was the last allowed.
  predicate RoundEnds(env: Env, n: nat, tries: nat, m: nat) {
    && n < m <= n + tries && (forall k | n <= k < m - 1 :: Passing(env.attempt(k)))
    && (m == n + tries || !Passing(env.attempt(m - 1)))
  }

  // The call's own deadline cut the round short.
  predicate CutShort(env: Env, n: nat, tries: nat, m: nat)
    requires m > 0
  {
    var a := env.attempt(m - 1);
    m < n + tries && a.Failed? && a.cut && !a.fault && !a.rate
  }

  // Exactly how long a round goes on, and that it answers with its last execution, or a timeout when cut short.
  lemma {:induction false} RoundIff(env: Env, n: nat, left: nat, m: nat)
    requires left > 0
    ensures var (a, end) := RunOp(env, n, left);
            && (end == m <==> RoundEnds(env, n, left, m))
            && (end == m ==> a == if CutShort(env, n, left, m) then TIMED_OUT else env.attempt(m - 1))
    decreases left
  {
    if left > 1 && Passing(env.attempt(n)) {
      RoundIff(env, n + 1, left - 1, m);
    }
  }

  // A read that fails in passing is tried again: if its first success comes within the first four executions,
  // all before it failing so, and the caller stays, the call has a value after exactly that many.
  lemma RetriesUntilSuccess(env: Env, consec: nat, k: nat)
    requires k < 4 && env.attempt(k).Worked? && !env.gone(0) && !env.gone(k + 1)
    requires forall j | 0 <= j < k :: Passing(env.attempt(j))
    ensures var r := Call(env, true, consec);
            r.outcome == Value && r.executions == k + 1 && r.consec == 0 && 1 !in r.exits
  {
    RoundIff(env, 0, MAX_TRIES, k + 1);
  }

  // So is one whose first round ended in a fault, once, in a second round.
  lemma RetriesAfterFault(env: Env, consec: nat, f: nat, k: nat)
    requires f < 4 && IsFault(env.attempt(f)) && forall j | 0 <= j < f :: Passing(env.attempt(j))
    requires f < k <= f + 4 && env.attempt(k).Worked? && forall j | f < j < k :: Passing(env.attempt(j))
    requires !env.gone(0) && !env.gone(f + 1) && !env.gone(k + 1)
    ensures var r := Call(env, true, consec);
            r.outcome == Value && r.executions == k + 1 && r.consec == 0 && 1 !in r.exits
  {
    RoundIff(env, 0, MAX_TRIES, f + 1);
    RoundIff(env, f + 1, MAX_TRIES, k + 1);
  }

  // The last round of a call began at execution n and made all its tries without a success or a fault.
  predicate Exhausted(env: Env, n: nat, m: nat) {
    n + 4 == m && forall k | n <= k < m :: Passing(env.attempt(k))
  }

  // A read that ends without a value though its caller stayed used all the tries of its last round, from the start
  // or after a fault, or its last execution was a rate limit, was cut by the deadline, or was a second fault.
  lemma UnavailableReadIs(env: Env, consec: nat)
    requires Call(env, true, consec).outcome.Unavailable?
    ensures var n := Call(env, true, consec).executions;
            && n > 0 && env.attempt(n - 1).Failed?
            && var a := env.attempt(n - 1);
               || a.rate || a.cut || (a.fault && Faults(env, 0, n) == 2)
               || Exhausted(env, 0, n)
               || exists f: nat :: f < 4 && IsFault(env.attempt(f)) && Exhausted(env, f + 1, n)
  {
    var (a, m) := RunOp(env, 0, MAX_TRIES);
    RoundIff(env, 0, MAX_TRIES, m);
    LoopShape(env, true, 0, FAULT_RETRIES);
    if IsFault(a) && !env.gone(m) {
      var (b, n) := RunOp(env, m, MAX_TRIES);
      RoundIff(env, m, MAX_TRIES, n);
      assert IsFault(env.attempt(m - 1)) && m - 1 < MAX_TRIES;
    }
  }

  // A call is abandoned exactly when its caller has left by the time its last execution is over, or before the first.
  lemma CanceledIff(env: Env, retryable: bool, consec: nat)
    ensures Call(env, retryable, consec).outcome == Canceled <==> env.gone(Call(env, retryable, consec).executions)
  {
    LoopShape(env, retryable, 0, Retries(retryable));
  }

  // The failure carries the rate flag exactly when the last execution was rate limited.
  lemma RateFlagIff(env: Env, retryable: bool, consec: nat)
    ensures var r := Call(env, retryable, consec);
            r.outcome.Unavailable? ==>
              r.executions > 0 && env.attempt(r.executions - 1).Failed?
              && (r.outcome.rate <==> env.attempt(r.executions - 1).rate)
  {
    var from := LastRound(env, retryable, 0, Retries(retryable));
  }

  // The call's last round: where it began, and that its end is the loop's.
  lemma {:induction false} LastRound(env: Env, retryable: bool, n: nat, left: nat) returns (from: nat)
    ensures var (end, m) := Loop(env, retryable, n, left);
            && n <= from && RoundEnds(env, from, Tries(retryable), m)
            && var a := if CutShort(env, from, Tries(retryable), m) then TIMED_OUT else env.attempt(m - 1);
               match end
               case Finished(b) => b == a && !IsFault(a)
               case Abandoned => IsFault(a) && env.gone(m)
               case Wedged(b) => b == a && IsFault(a) && !env.gone(m)
    decreases left
  {
    var (a, m) := RunOp(env, n, Tries(retryable));
    RoundIff(env, n, Tries(retryable), m);
    if IsFault(a) && !env.gone(m) && left > 0 {
      from := LastRound(env, retryable, m, left - 1);
    } else {
      from := n;
    }
  }

  // A call counts as timed out exactly when its caller came and stayed and its last execution failed, not as a
  // fault, by a deadline: the SDK's own, or the call's, which cut its last round short.
  lemma TimedOutIff(env: Env, retryable: bool, consec: nat) returns (from: nat)
    ensures var r := Call(env, retryable, consec);
            && (r.executions > 0 ==> RoundEnds(env, from, Tries(retryable), r.executions))
            && (r.timedOut <==>
                  && r.executions > 0 && !env.gone(r.executions)
                  && var a := env.attempt(r.executions - 1);
                     a.Failed? && !a.fault && (a.deadline || CutShort(env, from, Tries(retryable), r.executions)))
  {
    from := LastRound(env, retryable, 0, Retries(retryable));
    LoopShape(env, retryable, 0, Retries(retryable));
  }

  // A process past its age is told to exit 0 at the next call, whatever becomes of it; and nothing else exits 0.
  lemma StaleExitsIff(env: Env, retryable: bool, consec: nat)
    ensures var r := Call(env, retryable, consec);
            && (0 in r.exits <==> env.stale) && (env.stale ==> r.exits[0] == 0)
            && |r.exits| <= (if env.stale then 2 else 1) && forall e | e in r.exits :: e == 0 || e == 1
  {}

  // A mutation is executed at most once and a read at most eight times; a call answers with a value
  // exactly when its last execution worked and the caller is still there, and no earlier one worked. A rate
  // limit that is not a fault is never retried.
  lemma ExecutionBounds(env: Env, retryable: bool, consec: nat)
    ensures var r := Call(env, retryable, consec);
            && r.executions <= (if retryable then 8 else 1)
            && (r.executions == 0 <==> env.gone(0))
            && (r.outcome == Value <==> r.executions > 0 && env.attempt(r.executions - 1).Worked? && !env.gone(r.executions))
            && (forall k | 0 <= k < r.executions - 1 ::
                  env.attempt(k).Failed? && (env.attempt(k).rate ==> env.attempt(k).fault))
  {
    LoopShape(env, retryable, 0, Retries(retryable));
  }

  // The process is told to exit for a fault exactly when the faults outlast the allowed retry, one for a
  // read and none for a mutation, and the caller is still there.
  lemma FaultExitIff(env: Env, retryable: bool, consec: nat)
    ensures var r := Call(env, retryable, consec);
            (1 in r.exits && !r.timedOut) <==>
              Faults(env, 0, r.executions) == (if retryable then 2 else 1) && !env.gone(r.executions)
  {
    LoopShape(env, retryable, 0, Retries(retryable));
  }

  // A departed caller never causes an exit 1.
  lemma NoExitForTheDeparted(env: Env, retryable: bool, consec: nat)
    requires Call(env, retryable, consec).outcome == Canceled
    ensures 1 !in Call(env, retryable, consec).exits && Call(env, retryable, consec).consec == consec
  {}

  // --- consecutive timeouts over sequential calls ---

  datatype Request = Request(env: Env, retryable: bool)

  function Reports(calls: seq<Request>, consec: nat): seq<Report> {
    if calls == [] then []
    else
      var r := Call(calls[0].env, calls[0].retryable, consec);
      [r] + Reports(calls[1..], r.consec)
  }

  // Timeouts since the last call that answered with a value, counted back from the end.
  function TimeoutsSinceSuccess(rs: seq<Report>): nat {
    if rs == [] || rs[|rs| - 1].outcome == Value then 0
    else (if rs[|rs| - 1].timedOut then 1 else 0) + TimeoutsSinceSuccess(rs[..|rs| - 1])
  }

  lemma {:induction false} ReportsSplit(calls: seq<Request>, consec: nat, k: nat)
    requires k < |calls|
    ensures |Reports(calls, consec)| == |calls|
    ensures var before := if k == 0 then consec else Reports(calls, consec)[k - 1].consec;
            Reports(calls, consec)[k] == Call(calls[k].env, calls[k].retryable, before)
  {
    var r := Call(calls[0].env, calls[0].retryable, consec);
    if k > 0 {
      ReportsSplit(calls[1..], r.consec, k - 1);
    } else if |calls| > 1 {
      ReportsSplit(calls[1..], r.consec, 0);
    }
  }

  // How one call moves the counter: a value clears it, a timeout with the caller present adds one and
  // exits from three on, anything else leaves it.
  lemma CounterMove(env: Env, retryable: bool, consec: nat)
    ensures var r := Call(env, retryable, consec);
            && (r.outcome == Value ==> r.consec == 0 && !r.timedOut)
            && (r.outcome != Value ==> r.consec == consec + if r.timedOut then 1 else 0)
            && (r.timedOut ==> (1 in r.exits <==> r.consec >= MAX_CONSEC_TIMEOUTS))
  {
    assert MAX_CONSEC_TIMEOUTS > 0;
  }

  // In any sequence of calls the counter is the number of timeouts suffered with the caller present since
  // the last success, and a timeout tells the process to exit exactly when that number reaches three.
  lemma {:induction false} ConsecutiveTimeouts(calls: seq<Request>, k: nat)
    requires k < |calls|
    ensures |Reports(calls, 0)| == |calls|
    ensures var rs := Reports(calls, 0);
            && rs[k].consec == TimeoutsSinceSuccess(rs[..k + 1])
            && (rs[k].timedOut ==> (1 in rs[k].exits <==> TimeoutsSinceSuccess(rs[..k + 1]) >= 3))
  {
    ReportsSplit(calls, 0, k);
    var rs := Reports(calls, 0);
    var before := if k == 0 then 0 else rs[k - 1].consec;
    CounterMove(calls[k].env, calls[k].retryable, before);
    if k > 0 {
      ConsecutiveTimeouts(calls, k - 1);
    }
    SinceSuccessStep(rs, k);
  }

  lemma SinceSuccessStep(rs: seq<Report>, k: nat)
    requires k < |rs|
    ensures TimeoutsSinceSuccess(rs[..k + 1])
            == if rs[k].outcome == Value then 0 else TimeoutsSinceSuccess(rs[..k]) + if rs[k].timedOut then 1 else 0
    ensures k == 0 ==> TimeoutsSinceSuccess(rs[..k]) == 0
  {
    assert rs[..k + 1][..k] == rs[..k];
  }

  // --- in place ---

  class Core {
    var consecTimeouts: nat
    var canceled: nat
    var coreTimeouts: nat
    var exits: seq<nat>

    constructor ()
      ensures consecTimeouts == canceled == coreTimeouts == 0 && exits == []
    {
      consecTimeouts, canceled, coreTimeouts, exits := 0, 0, 0, [];
    }

    // The tries of one round.
    method Round(env: Env, start: nat, tries: nat) returns (a: Attempt, n: nat)
      requires tries > 0
      ensures (a, n) == RunOp(env, start, tries)
    {
      n := start;
      var left := tries;
      while true
        invariant left > 0 && RunOp(env, n, left) == RunOp(env, start, tries)
        decreases left
      {
        a := env.attempt(n);
        n := n + 1;
        if a.Worked? || left == 1 || a.fault || a.rate {
          return;
        }
        if a.cut {
          a := TIMED_OUT;
          return;
        }
        left := left - 1;
      }
    }

    method Invoke(env: Env, retryable: bool) returns (outcome: Outcome, executions: nat)
      modifies this
      ensures var r := Call(env, retryable, old(consecTimeouts));
              && outcome == r.outcome && executions == r.executions
              && consecTimeouts == r.consec && exits == old(exits) + r.exits
              && canceled == old(canceled) + (if r.outcome == Canceled then 1 else 0)
              && coreTimeouts == old(coreTimeouts) + (if r.timedOut then 1 else 0)
    {
      executions := 0;
      if env.stale {
        exits := exits + [0];
      }
      if env.gone(0) {
        canceled := canceled + 1;
        return Canceled, 0;
      }
      var tries := if retryable then FAULT_RETRIES else 0;
      var attempt := 0;
      var a: Attempt;
      while true
        invariant 0 <= attempt <= tries
        invariant Loop(env, retryable, executions, tries - attempt) == Loop(env, retryable, 0, tries)
        invariant consecTimeouts == old(consecTimeouts) && canceled == old(canceled) && coreTimeouts == old(coreTimeouts)
        invariant exits == old(exits) + if env.stale then [0] else []
        decreases tries - attempt
      {
        a, executions := Round(env, executions, Tries(retryable));
        if !IsFault(a) {
          break;
        }
        if env.gone(executions) {
          canceled := canceled + 1;
          return Canceled, executions;
        }
        if attempt >= tries {
          exits := exits + [1];
          return Unavailable(a.rate), executions;
        }
        attempt := attempt + 1;
      }
      if env.gone(executions) {
        canceled := canceled + 1;
        return Canceled, executions;
      }
      if a.Worked? {
        consecTimeouts := 0;
        return Value, executions;
      }
      if a.deadline {
        coreTimeouts := coreTimeouts + 1;
        consecTimeouts := consecTimeouts + 1;
        if consecTimeouts >= MAX_CONSEC_TIMEOUTS {
          exits := exits + [1];
        }
      }
      return Unavailable(a.rate), executions;
    }
  }
}
