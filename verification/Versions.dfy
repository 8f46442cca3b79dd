/** setec's version rules as one state machine (store/store.go): a bare map from names to
    records, one operation at a time. The step system in Protocol.dfy shows that the cached,
    concurrent service behaves exactly like a run of this machine. */
module Versions {
  import opened Wrappers
  import opened Records

  const CONFIG_PREFIX := "_internal/"

  datatype Op =
    | Put(name: string, value: Bytes)
    | CreateVersion(name: string, version: Version, value: Bytes)
    | Activate(name: string, version: Version)
    | DeleteVersion(name: string, version: Version)
    | Delete(name: string)

  datatype OpError =
    | EmptyName | UnknownConfig(shown: string) | InvalidVersion | InvalidVersionPlain
    | NotFound | VersionClaimed | DeleteActive

  datatype Outcome = Assigned(version: Version) | Done | Refused(error: OpError)

  function Lookup(m: Secrets, name: string): Option<Record> {
    if name in m then Some(m[name]) else None
  }

  predicate Reserved(name: string) {
    CONFIG_PREFIX <= name
  }

  // The checks made before the write lock is taken.
  function Precheck(op: Op): Option<OpError> {
    match op
    case Put(n, _) =>
      if n == "" then Some(EmptyName) else if Reserved(n) then Some(UnknownConfig(n)) else None
    case CreateVersion(n, v, _) =>
      if n == "" then Some(EmptyName) else if v == 0 then Some(InvalidVersion) else None
    case Activate(n, v) =>
      if n == "" then Some(EmptyName) else if Reserved(n) then Some(UnknownConfig(n))
      else if v == 0 then Some(InvalidVersionPlain) else None
    case DeleteVersion(n, v) =>
      if Reserved(n) then Some(UnknownConfig(n[|CONFIG_PREFIX|..]))
      else if v == 0 then Some(InvalidVersionPlain) else None
    case Delete(n) =>
      if Reserved(n) then Some(UnknownConfig(n[|CONFIG_PREFIX|..])) else None
  }

  // r.Latest++ on a 32-bit unsigned integer.
  function Bump(v: Version): Version {
    if v == MAX_VERSION then 0 else v + 1
  }

  function Max(a: Version, b: Version): Version {
    if a < b then b else a
  }

  // What a read-modify-write does with the record it loaded.
  datatype Plan = Reply(outcome: Outcome) | Write(record: Record, outcome: Outcome)

  function Decide(op: Op, loaded: Option<Record>): Plan
    requires !op.Delete?
  {
    match op
    case Put(n, value) =>
      if loaded.None? then Write(Record(n, map[1 := value], 1, 1, {}), Assigned(1))
      else
        var r := loaded.value;
        if r.latest in r.versions && r.versions[r.latest] == value then Reply(Assigned(r.latest))
        else
          var v := Bump(r.latest);
          Write(r.(latest := v, versions := r.versions[v := value]), Assigned(v))
    case CreateVersion(n, v, value) =>
      if loaded.None? then Write(Record(n, map[v := value], v, v, {}), Done)
      else
        var r := loaded.value;
        if r.IsClaimed(v) then Reply(Refused(VersionClaimed))
        else Write(r.(versions := r.versions[v := value], latest := Max(r.latest, v), active := v), Done)
    case Activate(n, v) =>
      if loaded.None? || v !in loaded.value.versions then Reply(Refused(NotFound))
      else if loaded.value.active == v then Reply(Done)
      else Write(loaded.value.(active := v), Done)
    case DeleteVersion(n, v) =>
      if loaded.None? then Reply(Refused(NotFound))
      else
        var r := loaded.value;
        if v == r.active then Reply(Refused(DeleteActive))
        else if v !in r.versions then Reply(Refused(NotFound))
        else Write(r.(versions := r.versions - {v}, deleted := r.deleted + {v}), Done)
  }

  // One whole operation on a bare map.
  function Exec(m: Secrets, op: Op): (Secrets, Outcome) {
    if Precheck(op).Some? then (m, Refused(Precheck(op).value))
    else if op.Delete? then (m - {op.name}, Done)
    else
      match Decide(op, Lookup(m, op.name))
      case Reply(out) => (m, out)
      case Write(r, out) => (m[op.name := r], out)
  }

  // --- the invariant of every record, and exactly when an operation keeps it ---

  predicate WellFormed(r: Record) {
    && r.active in r.versions
    && 0 !in r.Claimed()
    && r.versions.Keys !! r.deleted
    && r.latest in r.Claimed()
    && forall v | v in r.Claimed() :: v <= r.latest
  }

  predicate Sound(m: Secrets) {
    forall n | n in m :: m[n].name == n && WellFormed(m[n])
  }

  // A Put that must allocate a version when the latest one is already the largest: the guard of
  // the increment, readable from the record before the call.
  predicate Wraps(m: Secrets, op: Op) {
    && op.Put? && Precheck(op).None? && op.name in m
    && var r := m[op.name];
       r.latest == MAX_VERSION && !(r.latest in r.versions && r.versions[r.latest] == op.value)
  }

  lemma DecideKeepsWellFormed(op: Op, loaded: Option<Record>)
    requires !op.Delete? && Precheck(op).None?
    requires loaded.Some? ==> loaded.value.name == op.name && WellFormed(loaded.value)
    requires op.Put? && loaded.Some? ==> loaded.value.latest < MAX_VERSION
    ensures Decide(op, loaded).Write? ==>
              Decide(op, loaded).record.name == op.name && WellFormed(Decide(op, loaded).record)
  {
    if loaded.Some? && Decide(op, loaded).Write? {
      var r, w := loaded.value, Decide(op, loaded).record;
      forall v | v in w.Claimed()
        ensures v <= w.latest && v != 0
      {
        assert v in r.Claimed() || v == w.latest || (op.CreateVersion? && v == op.version);
      }
      if op.DeleteVersion? {
        assert w.Claimed() == r.Claimed();
      }
    }
  }

  // Every operation keeps every record well formed, except precisely a Put past the largest version.
  lemma ExecKeepsSoundIff(m: Secrets, op: Op)
    requires Sound(m)
    ensures Sound(Exec(m, op).0) <==> !Wraps(m, op)
  {
    if Wraps(m, op) {
      assert 0 in Exec(m, op).0[op.name].Claimed();
    } else if Precheck(op).None? && !op.Delete? {
      var loaded := Lookup(m, op.name);
      if !(op.Put? && loaded.Some? && loaded.value.latest == MAX_VERSION) {
        DecideKeepsWellFormed(op, loaded);
      }
    }
  }

  // The failing family is reachable with two ordinary requests on an empty store.
  lemma WrapIsReachable(a: Bytes, b: Bytes)
    requires a != b
    ensures var m1 := Exec(map[], CreateVersion("k", MAX_VERSION, a)).0;
            var (m2, out) := Exec(m1, Put("k", b));
            Sound(m1) && out == Assigned(0) && m2["k"].latest == 0 && !Sound(m2)
  {
    assert !Reserved("k") by {
      assert |CONFIG_PREFIX| > |"k"|;
    }
    var m1 := Exec(map[], CreateVersion("k", MAX_VERSION, a)).0;
    assert m1 == map["k" := Record("k", map[MAX_VERSION := a], MAX_VERSION, MAX_VERSION, {})];
    assert Wraps(m1, Put("k", b));
    ExecKeepsSoundIff(m1, Put("k", b));
  }

  // --- whole runs ---

  datatype Event = Event(op: Op, outcome: Outcome)

  function Front<T>(s: seq<T>): seq<T>
    requires s != []
  {
    s[..|s| - 1]
  }

  function Last<T>(s: seq<T>): T
    requires s != []
  {
    s[|s| - 1]
  }

  // The map after running the events' operations one by one.
  function After(m0: Secrets, log: seq<Event>): Secrets {
    if log == [] then m0 else Exec(After(m0, Front(log)), Last(log).op).0
  }

  // Each recorded outcome is the one the bare machine gives at that point.
  predicate Explains(m0: Secrets, log: seq<Event>) {
    log == [] || (Explains(m0, Front(log)) && Last(log).outcome == Exec(After(m0, Front(log)), Last(log).op).1)
  }

  predicate NeverWraps(m0: Secrets, log: seq<Event>) {
    log == [] || (NeverWraps(m0, Front(log)) && !Wraps(After(m0, Front(log)), Last(log).op))
  }

  lemma {:induction false} RunsKeepSound(m0: Secrets, log: seq<Event>)
    requires Sound(m0) && NeverWraps(m0, log)
    ensures Sound(After(m0, log))
  {
    if log != [] {
      RunsKeepSound(m0, Front(log));
      ExecKeepsSoundIff(After(m0, Front(log)), Last(log).op);
    }
  }

  // How one secret may evolve while it exists: nothing claimed is released, nothing deleted comes
  // back, and a version's bytes are fixed from the moment it is assigned.
  predicate Grows(r: Record, s: Record) {
    && r.latest <= s.latest
    && r.Claimed() <= s.Claimed()
    && r.deleted <= s.deleted
    && (forall v | v in r.versions && v in s.versions :: s.versions[v] == r.versions[v])
    && (forall v | v in s.versions && v !in r.versions :: v !in r.Claimed())
  }

  lemma GrowsTransitive(r: Record, s: Record, t: Record)
    requires Grows(r, s) && Grows(s, t)
    ensures Grows(r, t)
  {
    forall v | v in r.versions && v in t.versions
      ensures t.versions[v] == r.versions[v]
    {
      assert v in s.versions || v in s.deleted;
    }
  }

  lemma StepGrows(m: Secrets, op: Op, n: string)
    requires Sound(m) && n in m && !Wraps(m, op) && op != Delete(n)
    ensures n in Exec(m, op).0 && Grows(m[n], Exec(m, op).0[n])
  {
    if op.name == n && op.Put? {
      assert m[n].latest == MAX_VERSION || Bump(m[n].latest) !in m[n].Claimed();
    }
  }

  // Between two full deletes: Latest and the claimed set only grow, live bytes never change.
  lemma {:induction false} HistoryGrows(m0: Secrets, log: seq<Event>, n: string)
    requires Sound(m0) && NeverWraps(m0, log) && n in m0
    requires forall e | e in log :: e.op != Delete(n)
    ensures n in After(m0, log) && Grows(m0[n], After(m0, log)[n])
  {
    if log != [] {
      var m := After(m0, Front(log));
      forall e | e in Front(log)
        ensures e.op != Delete(n)
      {
        assert e in log;
      }
      HistoryGrows(m0, Front(log), n);
      RunsKeepSound(m0, Front(log));
      assert Last(log) in log;
      StepGrows(m, Last(log).op, n);
      GrowsTransitive(m0[n], m[n], After(m0, log)[n]);
    }
  }

  // A version that was ever assigned is refused for as long as the secret exists, and a Put that
  // allocates never reuses one.
  lemma ClaimedForever(m0: Secrets, log: seq<Event>, n: string, v: Version, value: Bytes)
    requires Sound(m0) && NeverWraps(m0, log) && n in m0 && v in m0[n].Claimed()
    requires forall e | e in log :: e.op != Delete(n)
    requires Precheck(CreateVersion(n, v, value)).None?
    ensures var m := After(m0, log);
            && Exec(m, CreateVersion(n, v, value)) == (m, Refused(VersionClaimed))
            && (!Wraps(m, Put(n, value)) && Exec(m, Put(n, value)).0 != m ==>
                  Exec(m, Put(n, value)).1.Assigned? && Exec(m, Put(n, value)).1.version != v)
  {
    HistoryGrows(m0, log, n);
    RunsKeepSound(m0, log);
    var m := After(m0, log);
    assert v in m[n].Claimed() && v <= m[n].latest;
  }

  // --- exactly what each operation leaves ---

  // What version v of a secret reads as, if it is live.
  function ValueOf(m: Secrets, n: string, v: Version): Option<Bytes> {
    if n in m && v in m[n].versions then Some(m[n].versions[v]) else None
  }

  // The secret n exists with these, whatever bytes its versions hold.
  predicate Stands(m: Secrets, n: string, active: Version, latest: Version, deleted: set<Version>) {
    n in m && m[n].name == n && m[n].active == active && m[n].latest == latest && m[n].deleted == deleted
  }

  // Of all versions of all secrets only version v of n reads differently: as x.
  ghost predicate Rewrites(m: Secrets, m': Secrets, n: string, v: Version, x: Option<Bytes>) {
    && ValueOf(m', n, v) == x
    && (forall w: Version | w != v :: ValueOf(m', n, w) == ValueOf(m, n, w))
    && (forall k | k != n :: Lookup(m', k) == Lookup(m, k))
  }

  // A Put to a name that does not exist makes version 1, live and active. To an existing secret it adds the next
  // version, inactive, unless the latest version is live with the very bytes given: then it changes nothing and
  // names that version. It deletes nothing.
  lemma PutLeaves(m: Secrets, n: string, value: Bytes)
    ensures var (m', out) := Exec(m, Put(n, value));
            if n == "" then m' == m && out == Refused(EmptyName)
            else if "_internal/" <= n then m' == m && out == Refused(UnknownConfig(n))
            else if n !in m then
              Stands(m', n, 1, 1, {}) && Rewrites(m, m', n, 1, Some(value)) && out == Assigned(1)
            else if ValueOf(m, n, m[n].latest) == Some(value) then m' == m && out == Assigned(m[n].latest)
            else
              var v := if m[n].latest < 0xFFFF_FFFF then m[n].latest + 1 else 0;
              && (m[n].name == n ==> Stands(m', n, m[n].active, v, m[n].deleted))
              && Rewrites(m, m', n, v, Some(value)) && out == Assigned(v)
  {}

  // A CreateVersion makes exactly the version asked for, with the bytes given, and activates it, unless it was ever
  // assigned; every other version stays live with its bytes.
  lemma CreateVersionLeaves(m: Secrets, n: string, v: Version, value: Bytes)
    ensures var (m', out) := Exec(m, CreateVersion(n, v, value));
            if n == "" then m' == m && out == Refused(EmptyName)
            else if v == 0 then m' == m && out == Refused(InvalidVersion)
            else if n in m && (v in m[n].versions || v in m[n].deleted) then m' == m && out == Refused(VersionClaimed)
            else
              && Rewrites(m, m', n, v, Some(value)) && out == Done
              && (n !in m ==> Stands(m', n, v, v, {}))
              && (n in m && m[n].name == n ==>
                    Stands(m', n, v, if v < m[n].latest then m[n].latest else v, m[n].deleted))
  {}

  // An Activate moves the active version, to a live one, and nothing else.
  lemma ActivateLeaves(m: Secrets, n: string, v: Version)
    ensures var (m', out) := Exec(m, Activate(n, v));
            if n == "" then m' == m && out == Refused(EmptyName)
            else if "_internal/" <= n then m' == m && out == Refused(UnknownConfig(n))
            else if v == 0 then m' == m && out == Refused(InvalidVersionPlain)
            else if ValueOf(m, n, v).None? then m' == m && out == Refused(NotFound)
            else
              && Rewrites(m, m', n, v, ValueOf(m, n, v)) && out == Done
              && (m[n].name == n ==> Stands(m', n, v, m[n].latest, m[n].deleted))
  {}

  // A DeleteVersion of a live version that is not the active one leaves it absent and claimed for good, and
  // everything else as it was.
  lemma DeleteVersionLeaves(m: Secrets, n: string, v: Version)
    ensures var (m', out) := Exec(m, DeleteVersion(n, v));
            if "_internal/" <= n then m' == m && out == Refused(UnknownConfig(n[|"_internal/"|..]))
            else if v == 0 then m' == m && out == Refused(InvalidVersionPlain)
            else if n in m && v == m[n].active then m' == m && out == Refused(DeleteActive)
            else if ValueOf(m, n, v).None? then m' == m && out == Refused(NotFound)
            else
              && Rewrites(m, m', n, v, None) && out == Done
              && (m[n].name == n ==> Stands(m', n, m[n].active, m[n].latest, m[n].deleted + {v}))
  {}

  // A Delete leaves the name absent, and nothing else changed.
  lemma DeleteLeaves(m: Secrets, n: string)
    ensures var (m', out) := Exec(m, Delete(n));
            if "_internal/" <= n then m' == m && out == Refused(UnknownConfig(n[|"_internal/"|..]))
            else n !in m' && (forall k | k != n :: Lookup(m', k) == Lookup(m, k)) && out == Done
  {}

  // The bytes a version reads as after a run, going by the requests and their answers alone: those of the last
  // request answered with that version, if no accepted delete came after.
  function LastWritten(log: seq<Event>, n: string, v: Version, before: Option<Bytes>): Option<Bytes> {
    if log == [] then before
    else
      match Last(log)
      case Event(Put(k, value), Assigned(w)) =>
        if k == n && w == v then Some(value) else LastWritten(Front(log), n, v, before)
      case Event(CreateVersion(k, w, value), Done) =>
        if k == n && w == v then Some(value) else LastWritten(Front(log), n, v, before)
      case Event(DeleteVersion(k, w), Done) =>
        if k == n && w == v then None else LastWritten(Front(log), n, v, before)
      case Event(Delete(k), Done) => if k == n then None else LastWritten(Front(log), n, v, before)
      case _ => LastWritten(Front(log), n, v, before)
  }

  // Whether a version has been given out since the secret was last deleted whole.
  function EverGiven(log: seq<Event>, n: string, v: Version, before: bool): bool {
    if log == [] then before
    else
      match Last(log)
      case Event(Put(k, _), Assigned(w)) => (k == n && w == v) || EverGiven(Front(log), n, v, before)
      case Event(CreateVersion(k, w, _), Done) => (k == n && w == v) || EverGiven(Front(log), n, v, before)
      case Event(Delete(k), Done) => k != n && EverGiven(Front(log), n, v, before)
      case _ => EverGiven(Front(log), n, v, before)
  }

  predicate Given(m: Secrets, n: string, v: Version) {
    n in m && (v in m[n].versions || v in m[n].deleted)
  }

  lemma StepWrites(m: Secrets, op: Op, n: string, v: Version)
    ensures var (m', out) := Exec(m, op);
            && ValueOf(m', n, v) == LastWritten([Event(op, out)], n, v, ValueOf(m, n, v))
            && Given(m', n, v) == EverGiven([Event(op, out)], n, v, Given(m, n, v))
  {
    var e := Event(op, Exec(m, op).1);
    assert Front([e]) == [] && Last([e]) == e;
    assert LastWritten([], n, v, ValueOf(m, n, v)) == ValueOf(m, n, v);
    assert EverGiven([], n, v, Given(m, n, v)) == Given(m, n, v);
  }

  lemma OneMoreEvent(log: seq<Event>, n: string, v: Version, x: Option<Bytes>, g: bool)
    requires log != []
    ensures LastWritten(log, n, v, x) == LastWritten([Last(log)], n, v, LastWritten(Front(log), n, v, x))
    ensures EverGiven(log, n, v, g) == EverGiven([Last(log)], n, v, EverGiven(Front(log), n, v, g))
  {
    var e, f := [Last(log)], Front(log);
    assert Front(e) == [] && Last(e) == Last(log);
    assert LastWritten([], n, v, LastWritten(f, n, v, x)) == LastWritten(f, n, v, x);
    assert EverGiven([], n, v, EverGiven(f, n, v, g)) == EverGiven(f, n, v, g);
  }

  // After any run every version of every secret reads as what was last written to it and not deleted since, and
  // is claimed exactly if it was given out since the secret was last deleted whole.
  lemma {:induction false} ReadsLastWritten(m0: Secrets, log: seq<Event>, n: string, v: Version)
    requires Explains(m0, log)
    ensures ValueOf(After(m0, log), n, v) == LastWritten(log, n, v, ValueOf(m0, n, v))
    ensures Given(After(m0, log), n, v) == EverGiven(log, n, v, Given(m0, n, v))
  {
    if log != [] {
      ReadsLastWritten(m0, Front(log), n, v);
      StepWrites(After(m0, Front(log)), Last(log).op, n, v);
      OneMoreEvent(log, n, v, ValueOf(m0, n, v), Given(m0, n, v));
      assert Last(log) == Event(Last(log).op, Exec(After(m0, Front(log)), Last(log).op).1);
    }
  }

  // --- what each operation is for ---

  // Repeating a Put, an Activate or a Delete changes nothing more and is answered the same; repeating an
  // accepted CreateVersion is refused.
  lemma RepeatingIsHarmless(m: Secrets, op: Op)
    ensures var (m1, out) := Exec(m, op);
            var (m2, again) := Exec(m1, op);
            && m2 == m1
            && (op.Put? || op.Activate? || op.Delete? ==> again == out)
            && (op.CreateVersion? && out == Done ==> again == Refused(VersionClaimed))
  {}

  // An acknowledged Put can be read back under the version it was given, and moves no active version.
  lemma PutIsReadable(m: Secrets, n: string, value: Bytes)
    ensures var (m', out) := Exec(m, Put(n, value));
            && (out.Assigned? ==> n in m' && out.version in m'[n].versions && m'[n].versions[out.version] == value
                                  && m'[n].latest == out.version)
            && (n in m && n in m' ==> m'[n].active == m[n].active)
  {}

  // The version the last accepted request made active.
  function LastActivated(log: seq<Event>, n: string, start: Version): Version {
    if log == [] then start
    else
      var e := Last(log);
      if e.op.name == n && (e.op.Activate? || e.op.CreateVersion?) && e.outcome == Done then e.op.version
      else LastActivated(Front(log), n, start)
  }

  // While a secret exists its active version is the one last asked for, whatever else happens to it.
  lemma {:induction false} ActiveIsLastRequested(m0: Secrets, log: seq<Event>, n: string)
    requires n in m0 && Explains(m0, log)
    requires forall e | e in log :: e.op != Delete(n)
    ensures n in After(m0, log) && After(m0, log)[n].active == LastActivated(log, n, m0[n].active)
  {
    if log != [] {
      forall e | e in Front(log)
        ensures e.op != Delete(n)
      {
        assert e in log;
      }
      ActiveIsLastRequested(m0, Front(log), n);
      assert Last(log) in log;
    }
  }

  // --- concurrent Puts to a fresh name ---

  // The values put to n, in log order.
  function PutValues(log: seq<Event>, n: string): seq<Bytes> {
    if log == [] then []
    else PutValues(Front(log), n) + if Last(log).op.name == n && Last(log).op.Put? then [Last(log).op.value] else []
  }

  predicate Distinct<T(==)>(s: seq<T>) {
    forall i, j | 0 <= i < j < |s| :: s[i] != s[j]
  }

  // The value of the v-th Put, counting from 1.
  function Nth(values: seq<Bytes>, v: Version): Bytes
    requires 1 <= v <= |values|
  {
    values[v - 1]
  }

  // The secret that exactly these Puts, in this order, leave behind.
  function Numbered(n: string, values: seq<Bytes>): Record
    requires 0 < |values| <= MAX_VERSION
  {
    Record(n, map v: Version | 1 <= v <= |values| :: Nth(values, v), 1, |values|, {})
  }

  // n holds exactly the given Puts, or does not exist when there are none.
  predicate HoldsPuts(m: Secrets, n: string, values: seq<Bytes>) {
    && |values| <= MAX_VERSION
    && if values == [] then n !in m else n in m && m[n] == Numbered(n, values)
  }

  lemma NextPut(m: Secrets, n: string, values: seq<Bytes>, value: Bytes)
    requires n != "" && !Reserved(n) && |values| < MAX_VERSION && HoldsPuts(m, n, values)
    requires values != [] ==> Last(values) != value
    ensures HoldsPuts(Exec(m, Put(n, value)).0, n, values + [value])
    ensures Exec(m, Put(n, value)).1 == Assigned(|values| + 1)
  {
    var all := Numbered(n, values + [value]).versions;
    if values == [] {
      assert all == map[1 := value];
    } else {
      var r := m[n];
      assert r.latest in r.versions && r.versions[r.latest] == Last(values);
      assert all == r.versions[|values| + 1 := value];
    }
  }

  lemma OtherNameKeepsPuts(m: Secrets, op: Op, n: string, values: seq<Bytes>)
    requires op.name != n && HoldsPuts(m, n, values)
    ensures HoldsPuts(Exec(m, op).0, n, values)
  {}

  // Any order of Puts of pairwise distinct values to a fresh name, mixed with operations on other
  // names, yields exactly the versions 1..k, the i-th put holding version i, with version 1 active;
  // and each Put is told its own number.
  lemma {:induction false} DistinctPuts(m0: Secrets, log: seq<Event>, n: string)
    requires n !in m0 && n != "" && !Reserved(n) && Explains(m0, log)
    requires forall e | e in log && e.op.name == n :: e.op.Put?
    requires Distinct(PutValues(log, n)) && |PutValues(log, n)| <= MAX_VERSION
    ensures HoldsPuts(After(m0, log), n, PutValues(log, n))
    ensures log != [] && Last(log).op.name == n ==> Last(log).outcome == Assigned(|PutValues(log, n)|)
  {
    if log != [] {
      var front, e := Front(log), Last(log);
      assert e in log;
      forall f | f in front
        ensures f in log
      {}
      var vals, now := PutValues(front, n), PutValues(log, n);
      assert forall i | 0 <= i < |vals| :: vals[i] == now[i];
      DistinctPuts(m0, front, n);
      if e.op.name == n {
        assert now == vals + [e.op.value];
        assert |vals| > 0 ==> now[|vals| - 1] != now[|vals|];
        NextPut(After(m0, front), n, vals, e.op.value);
      } else {
        OtherNameKeepsPuts(After(m0, front), e.op, n, vals);
      }
    }
  }
}
