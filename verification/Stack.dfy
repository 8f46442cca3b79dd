/** The store's version rules run straight on the 1Password backend (store/store.go over
    backend/onepassword/onepassword.go): a vault driven by any operations behaves like the bare map of
    Versions.dfy, whatever calls fail and whatever the memo remembers. */
module Stack {
  import opened Wrappers
  import opened Records
  import opened Versions
  import V = Vault
  import L = VaultLaws
  import K = VaultWorks
  import Meta

  datatype Reply = Answered(outcome: Outcome) | Failed(error: V.Error)

  // How the store lays out a record as Go maps and slices, nil or empty, and the text shown to humans.
  datatype Layout = Layout(raw: Record -> RawRecord, human: Record -> string)

  ghost predicate Faithful(lay: Layout) {
    forall r :: Meaning(lay.raw(r)) == r
  }

  function LoadedOf(r: Result<RawRecord, V.Error>): Option<Record> {
    if r.Ok? then Some(Meaning(r.value)) else None
  }

  function Saved(s: V.State, o: V.Oracle, lay: Layout, name: string, r: Record): (Option<V.Error>, V.State) {
    V.Save(s, o, lay.human(r), name, lay.raw(r))
  }

  // A read-modify-write from what its Load gave.
  function Finish(s: V.State, o: V.Oracle, lay: Layout, op: Op, loaded: Result<RawRecord, V.Error>): (V.State, Reply)
    requires !op.Delete?
  {
    if loaded.Err? && loaded.error != V.NotFound then (s, Failed(loaded.error))
    else
      match Decide(op, LoadedOf(loaded))
      case Reply(out) => (s, Answered(out))
      case Write(r, out) =>
        var (err, t) := Saved(s, o, lay, op.name, r);
        (t, if err.Some? then Failed(err.value) else Answered(out))
  }

  // One operation: a Load, the version rules, and a Save; or a Delete.
  function Execute(s: V.State, o: V.Oracle, lay: Layout, op: Op): (V.State, Reply) {
    if Precheck(op).Some? then (s, Answered(Refused(Precheck(op).value)))
    else if op.Delete? then
      var (err, t) := V.Delete(s, o, op.name);
      (t, if err.Some? then Failed(err.value) else Answered(Done))
    else
      var (loaded, s1) := V.Load(s, o, op.name);
      Finish(s1, o, lay, op, loaded)
  }

  // What the vault answers for a name, once every call works, is this record or its absence.
  ghost predicate Shows(s: V.State, n: string, x: Option<Record>) {
    match x
    case None => L.Answer(s.items, n) == Err(V.NotFound)
    case Some(r) => L.Answer(s.items, n).Ok? && Meaning(L.Answer(s.items, n).value) == r
  }

  // On these names the vault is the map m, every record filed under its own name. What else the vault holds,
  // unreadable items and duplicated titles included, does not matter.
  ghost predicate Represents(s: V.State, m: Secrets, ns: iset<string>) {
    L.Sane(s) && forall n | n in ns :: ShowsAlone(s, n, Lookup(m, n)) && (n in m ==> m[n].name == n)
  }

  // The same, of a name that at most one item bears.
  ghost predicate ShowsAlone(s: V.State, n: string, x: Option<Record>) {
    V.Count(s.items, n) <= 1 && Shows(s, n, x)
  }

  // --- one operation ---

  // An ID the backend goes by for a name: dead, or the one titled item's.
  predicate Points(items: seq<V.Item>, id: V.ItemId, name: string) {
    V.Holds(items, id) ==> V.Count(items, name) == 1 && V.At(items, id) == V.Titled(items, name)
  }

  lemma FindPoints(s: V.State, o: V.Oracle, name: string)
    requires L.Sane(s) && name != "" && V.Count(s.items, name) <= 1
    ensures var (id, t) := V.Find(s, o, name);
            && t.items == s.items
            && (if id.Err? then id.error.CallFailed?
                else if id.value.None? then V.Count(s.items, name) == 0
                else Points(s.items, id.value.value, name))
  {
    if name in s.ids {
      L.MemoHit(s, name);
    } else {
      ResolvePoints(s, o, name);
    }
  }

  lemma ResolvePoints(s: V.State, o: V.Oracle, name: string)
    requires L.DistinctIds(s.items) && V.Count(s.items, name) <= 1
    ensures var (id, t) := V.Resolve(s, o, name);
            && t.items == s.items
            && (if id.Err? then id.error.CallFailed?
                else if id.value.None? then V.Count(s.items, name) == 0
                else Points(s.items, id.value.value, name))
  {
    if V.Count(s.items, name) == 1 {
      L.TitledIsHeld(s.items, name);
    }
  }

  lemma GotPoints(s: V.State, o: V.Oracle, id: V.ItemId, name: string)
    requires Points(s.items, id, name) && name != ""
    ensures var (item, t) := V.Got(s, o, id);
            && t.items == s.items
            && if item.Err? then item.error.CallFailed?
               else V.FromFields(name, item.value.fields) == L.Answer(s.items, name)
  {}

  // However stale the memo and whatever fails, a Load gives the true answer or reports the failed call.
  lemma LoadIsTrueOrFails(s: V.State, o: V.Oracle, name: string)
    requires L.Sane(s) && V.Count(s.items, name) <= 1
    ensures var r := V.Load(s, o, name).0;
            r == L.Answer(s.items, name) || (r.Err? && r.error.CallFailed?)
  {
    if name != "" {
      FindPoints(s, o, name);
      var (id, s1) := V.Find(s, o, name);
      if id.Ok? && id.value.Some? {
        GotPoints(s1, o, id.value.value, name);
        var (item, s2) := V.Got(s1, o, id.value.value);
        ResolvePoints(V.Forgot(s2, name), o, name);
        var (again, s3) := V.Resolve(V.Forgot(s2, name), o, name);
        if again.Ok? && again.value.Some? {
          GotPoints(s3, o, again.value.value, name);
        }
      }
    }
  }

  lemma LoadKeepsSane(s: V.State, o: V.Oracle, name: string)
    requires L.Sane(s)
    ensures V.Load(s, o, name).1.items == s.items && L.Sane(V.Load(s, o, name).1)
  {
    L.LoadOnlyLooks(s, o, name);
    L.EffectKeepsMemo(s, V.Load(s, o, name).1, L.Nothing, name);
  }

  // The step from s to t changes at most one name, from old' to new'.
  ghost predicate Moves(s: V.State, t: V.State, name: string, old': Option<Record>, new': Option<Record>, done: bool) {
    && L.Sane(t) && L.OthersStay(s, t, name)
    && (ShowsAlone(t, name, new') || (!done && ShowsAlone(t, name, old')))
  }

  lemma SaveMoves(s: V.State, o: V.Oracle, lay: Layout, name: string, x: Option<Record>, r: Record)
    requires L.Sane(s) && Faithful(lay) && ShowsAlone(s, name, x) && r.name == name
    ensures var (err, t) := Saved(s, o, lay, name, r);
            Moves(s, t, name, x, Some(r), err.None?)
  {
    var raw := lay.raw(r);
    assert Meaning(raw) == r;
    L.SaveRefinesMap(s, o, lay.human(r), name, raw);
    var (err, t) := V.Save(s, o, lay.human(r), name, raw);
    if L.Holding(s, t, name, raw) {
      EqualIsSameMeaning(Meta.Normal(raw), raw);
    }
  }

  lemma DeleteMoves(s: V.State, o: V.Oracle, name: string, x: Option<Record>)
    requires L.Sane(s) && ShowsAlone(s, name, x)
    ensures var (err, t) := V.Delete(s, o, name);
            Moves(s, t, name, x, None, err.None?)
  {
    L.DeleteRefinesMap(s, o, name);
  }

  // Whatever the vault holds, an operation on one name spares all others.
  lemma ExecuteSpares(s: V.State, o: V.Oracle, lay: Layout, op: Op)
    requires L.Sane(s)
    ensures var t := Execute(s, o, lay, op).0; L.Sane(t) && L.OthersStay(s, t, op.name)
  {
    if Precheck(op).None? {
      if op.Delete? {
        L.DeleteRefinesMap(s, o, op.name);
      } else {
        LoadKeepsSane(s, o, op.name);
        var (loaded, s1) := V.Load(s, o, op.name);
        FinishSpares(s1, o, lay, op, loaded);
      }
    }
  }

  lemma FinishSpares(s: V.State, o: V.Oracle, lay: Layout, op: Op, loaded: Result<RawRecord, V.Error>)
    requires L.Sane(s) && !op.Delete?
    ensures var t := Finish(s, o, lay, op, loaded).0; L.Sane(t) && L.OthersStay(s, t, op.name)
  {
    if loaded.Ok? || loaded.error == V.NotFound {
      match Decide(op, LoadedOf(loaded))
      case Reply(_) =>
      case Write(r, _) => L.SaveRefinesMap(s, o, lay.human(r), op.name, lay.raw(r));
    }
  }

  lemma DecideKeepsName(op: Op, loaded: Option<Record>)
    requires !op.Delete? && (loaded.Some? ==> loaded.value.name == op.name) && Decide(op, loaded).Write?
    ensures Decide(op, loaded).record.name == op.name
  {}

  lemma MovesRepresents(s: V.State, t: V.State, m: Secrets, m': Secrets, ns: iset<string>, name: string, done: bool)
    requires Represents(s, m, ns) && name in ns && Moves(s, t, name, Lookup(m, name), Lookup(m', name), done)
    requires forall n | n != name :: Lookup(m', n) == Lookup(m, n)
    requires name in m' ==> m'[name].name == name
    ensures Represents(t, m', ns) || (!done && Represents(t, m, ns))
  {
    forall n | n in ns && n != name
      ensures ShowsAlone(t, n, Lookup(m, n)) && ShowsAlone(t, n, Lookup(m', n)) && (n in m' ==> m'[n].name == n)
    {
      assert ShowsAlone(s, n, Lookup(m, n)) && Lookup(m', n) == Lookup(m, n);
    }
  }

  lemma SparesRepresents(s: V.State, t: V.State, m: Secrets, ns: iset<string>, name: string)
    requires Represents(s, m, ns) && L.Sane(t) && L.OthersStay(s, t, name) && (name in ns ==> t.items == s.items)
    ensures Represents(t, m, ns)
  {
    forall n | n in ns
      ensures ShowsAlone(t, n, Lookup(m, n)) && (n in m ==> m[n].name == n)
    {
      assert ShowsAlone(s, n, Lookup(m, n));
    }
  }

  // What one operation must have done: answered, just what the bare map machine does; failed, that or nothing.
  ghost predicate Refines(m: Secrets, ns: iset<string>, op: Op, t: V.State, reply: Reply) {
    var (m', out) := Exec(m, op);
    && (reply.Answered? ==> reply.outcome == out && Represents(t, m', ns))
    && (reply.Failed? ==> Represents(t, m', ns) || Represents(t, m, ns))
  }

  lemma DeleteRefines(s: V.State, m: Secrets, ns: iset<string>, o: V.Oracle, lay: Layout, op: Op)
    requires Represents(s, m, ns) && op.name in ns && op.Delete? && Precheck(op).None?
    ensures var (t, reply) := Execute(s, o, lay, op); Refines(m, ns, op, t, reply)
  {
    assert ShowsAlone(s, op.name, Lookup(m, op.name));
    DeleteMoves(s, o, op.name, Lookup(m, op.name));
    var (t, reply) := Execute(s, o, lay, op);
    MovesRepresents(s, t, m, Exec(m, op).0, ns, op.name, reply.Answered?);
  }

  lemma WriteRefines(s: V.State, t: V.State, m: Secrets, ns: iset<string>, op: Op, done: bool)
    requires Represents(s, m, ns) && op.name in ns && !op.Delete? && Precheck(op).None?
    requires Decide(op, Lookup(m, op.name)).Write?
    requires var x := Lookup(m, op.name); Moves(s, t, op.name, x, Some(Decide(op, x).record), done)
    ensures Represents(t, Exec(m, op).0, ns) || (!done && Represents(t, m, ns))
  {
    assert op.name in m ==> m[op.name].name == op.name;
    DecideKeepsName(op, Lookup(m, op.name));
    MovesRepresents(s, t, m, Exec(m, op).0, ns, op.name, done);
  }

  // The second half of a read-modify-write whose Load told the truth.
  lemma FinishRefines(s: V.State, m: Secrets, ns: iset<string>, o: V.Oracle, lay: Layout, op: Op,
                      loaded: Result<RawRecord, V.Error>)
    requires Represents(s, m, ns) && op.name in ns && Faithful(lay) && !op.Delete? && Precheck(op).None?
    requires loaded == L.Answer(s.items, op.name)
    ensures var (t, reply) := Finish(s, o, lay, op, loaded); Refines(m, ns, op, t, reply)
  {
    var x := Lookup(m, op.name);
    assert ShowsAlone(s, op.name, x) && LoadedOf(loaded) == x;
    assert op.name in m ==> m[op.name].name == op.name;
    if Decide(op, x).Write? {
      var r := Decide(op, x).record;
      DecideKeepsName(op, x);
      SaveMoves(s, o, lay, op.name, x, r);
      var (err, t) := Saved(s, o, lay, op.name, r);
      WriteRefines(s, t, m, ns, op, err.None?);
    }
  }

  // An operation that was answered did to the vault what the bare map machine does, with the same outcome;
  // one that failed did that or nothing.
  lemma ExecuteRefines(s: V.State, m: Secrets, ns: iset<string>, o: V.Oracle, lay: Layout, op: Op)
    requires Represents(s, m, ns) && op.name in ns && Faithful(lay)
    ensures var (t, reply) := Execute(s, o, lay, op); Refines(m, ns, op, t, reply)
  {
    if Precheck(op).None? && op.Delete? {
      DeleteRefines(s, m, ns, o, lay, op);
    } else if Precheck(op).None? {
      assert ShowsAlone(s, op.name, Lookup(m, op.name));
      LoadIsTrueOrFails(s, o, op.name);
      LoadKeepsSane(s, o, op.name);
      var (loaded, s1) := V.Load(s, o, op.name);
      SparesRepresents(s, s1, m, ns, op.name);
      if loaded == L.Answer(s.items, op.name) {
        FinishRefines(s1, m, ns, o, lay, op, loaded);
      }
    }
  }

  // --- when operations succeed ---

  // The backend takes the record.
  predicate Fits(lay: Layout, r: Record) {
    K.Storable(lay.raw(r))
  }

  // A well-formed record can be encoded; only its size can keep it out.
  lemma WellFormedIsConsistent(lay: Layout, r: Record)
    requires Faithful(lay) && WellFormed(r)
    ensures Meta.Consistent(lay.raw(r))
  {
    var raw := lay.raw(r);
    assert Meaning(raw) == r && Meaning(raw).versions.Keys == Entries(raw).Keys;
  }

  // The second half of a read-modify-write whose Load told the truth, every call working.
  lemma FinishSucceedsIff(s: V.State, o: V.Oracle, lay: Layout, op: Op, x: Option<Record>)
    requires L.Sane(s) && op.name != "" && !op.Delete? && ShowsAlone(s, op.name, x) && !K.DeadMemo(s, op.name)
    requires L.AllWork(o, s.calls, Finish(s, o, lay, op, L.Answer(s.items, op.name)).0.calls)
    ensures var reply := Finish(s, o, lay, op, L.Answer(s.items, op.name)).1;
            reply.Answered? <==> Decide(op, x).Reply? || Fits(lay, Decide(op, x).record)
  {
    var loaded := L.Answer(s.items, op.name);
    assert LoadedOf(loaded) == x;
    if Decide(op, x).Write? {
      var r := Decide(op, x).record;
      if Fits(lay, r) {
        K.SaveSucceedsIff(s, o, lay.human(r), op.name, lay.raw(r));
      }
    }
  }

  // The Load of an operation whose calls work tells the truth and leaves a memo that is not dead.
  lemma LoadAndFinish(s: V.State, o: V.Oracle, lay: Layout, op: Op, x: Option<Record>)
    requires L.Sane(s) && !op.Delete? && Precheck(op).None? && ShowsAlone(s, op.name, x)
    requires K.Undisturbed(s, o, op.name, Execute(s, o, lay, op).0.calls)
    ensures var reply := Execute(s, o, lay, op).1; reply.Answered? <==> Decide(op, x).Reply? || Fits(lay, Decide(op, x).record)
  {
    var (loaded, s1) := V.Load(s, o, op.name);
    FinishCounts(s1, o, lay, op, loaded);
    L.StaleMemoIsHarmless(s, o, op.name);
    if op.name != "" {
      K.LoadMendsMemo(s, o, op.name);
      LoadKeepsSane(s, o, op.name);
      K.LoadCalls(s, o, op.name);
      FinishSucceedsIff(s1, o, lay, op, x);
    }
  }

  lemma FinishCounts(s: V.State, o: V.Oracle, lay: Layout, op: Op, loaded: Result<RawRecord, V.Error>)
    requires !op.Delete?
    ensures s.calls <= Finish(s, o, lay, op, loaded).0.calls
  {
    if loaded.Ok? || loaded.error == V.NotFound {
      match Decide(op, LoadedOf(loaded))
      case Reply(_) =>
      case Write(r, _) => K.SaveCounts(s, o, lay.human(r), op.name, lay.raw(r));
    }
  }

  // The rules ask for a write exactly when the bare map changes.
  lemma WriteChanges(m: Secrets, op: Op)
    requires !op.Delete? && Precheck(op).None?
    ensures Decide(op, Lookup(m, op.name)).Write? <==> Exec(m, op).0 != m
    ensures Decide(op, Lookup(m, op.name)).Write? ==>
              op.name in Exec(m, op).0 && Exec(m, op).0[op.name] == Decide(op, Lookup(m, op.name)).record
  {}

  // An operation none of whose calls fails, but for the Get of a remembered item that is gone, is answered, and
  // just as the bare map machine answers it, unless the record it leads to does not fit the backend, or it deletes
  // by the ID of an item that is gone.
  lemma ExecuteSucceedsIff(s: V.State, m: Secrets, ns: iset<string>, o: V.Oracle, lay: Layout, op: Op)
    requires Represents(s, m, ns) && op.name in ns && Faithful(lay)
    requires K.Undisturbed(s, o, op.name, Execute(s, o, lay, op).0.calls)
    ensures var (t, reply) := Execute(s, o, lay, op);
            var m' := Exec(m, op).0;
            && (reply.Answered? <==>
                  || Precheck(op).Some?
                  || (if op.Delete? then op.name == "" || !K.DeadMemo(s, op.name)
                      else m' == m || Fits(lay, m'[op.name])))
            && (reply.Answered? ==> reply.outcome == Exec(m, op).1 && Represents(t, m', ns))
  {
    ExecuteRefines(s, m, ns, o, lay, op);
    if Precheck(op).None? {
      assert ShowsAlone(s, op.name, Lookup(m, op.name));
      if op.Delete? {
        K.DeleteSucceedsIff(s, o, op.name);
      } else {
        LoadAndFinish(s, o, lay, op, Lookup(m, op.name));
        WriteChanges(m, op);
      }
    }
  }

  // --- the version that would wrap ---

  // A record whose version counter has wrapped is one the backend refuses to encode.
  lemma WrappedIsInconsistent(r: Record, value: Bytes, raw: RawRecord)
    requires WellFormed(r) && r.latest == MAX_VERSION
    requires Meaning(raw) == r.(latest := 0, versions := r.versions[0 := value])
    ensures !Meta.Consistent(raw)
  {
    assert Meaning(raw).versions.Keys == Entries(raw).Keys;
    assert r.active in Meaning(raw).versions && r.active > 0;
    assert r.active in Entries(raw) && |Entries(raw)| != 0;
  }

  lemma FinishRefuses(s: V.State, o: V.Oracle, lay: Layout, op: Op, loaded: Result<RawRecord, V.Error>, r: Record)
    requires Faithful(lay) && op.Put? && loaded.Ok? && Meaning(loaded.value) == r && WellFormed(r)
    requires r.latest == MAX_VERSION && !(r.latest in r.versions && r.versions[r.latest] == op.value)
    ensures var (t, reply) := Finish(s, o, lay, op, loaded); reply.Failed? && t == s
  {
    var w := r.(latest := 0, versions := r.versions[0 := op.value]);
    assert Decide(op, Some(r)) == Write(w, Assigned(0));
    WrappedIsInconsistent(r, op.value, lay.raw(w));
    RefusedSave(s, o, lay, op.name, w);
  }

  // On this backend a Put past the largest version fails and changes nothing.
  lemma WrapIsRefused(s: V.State, m: Secrets, ns: iset<string>, o: V.Oracle, lay: Layout, op: Op)
    requires Represents(s, m, ns) && op.name in ns && Faithful(lay) && Sound(m) && Wraps(m, op)
    ensures var (t, reply) := Execute(s, o, lay, op); reply.Failed? && t.items == s.items
  {
    assert ShowsAlone(s, op.name, Lookup(m, op.name));
    LoadIsTrueOrFails(s, o, op.name);
    LoadKeepsSane(s, o, op.name);
    var (loaded, s1) := V.Load(s, o, op.name);
    if loaded == L.Answer(s.items, op.name) {
      FinishRefuses(s1, o, lay, op, loaded, m[op.name]);
    }
  }

  lemma RefusedSave(s: V.State, o: V.Oracle, lay: Layout, name: string, r: Record)
    requires !Meta.Consistent(lay.raw(r))
    ensures Saved(s, o, lay, name, r).0.Some? && Saved(s, o, lay, name, r).1 == s
  {}

  // --- whole runs ---

  function Final(s: V.State, o: V.Oracle, lay: Layout, ops: seq<Op>): V.State {
    if ops == [] then s else Execute(Final(s, o, lay, Front(ops)), o, lay, Last(ops)).0
  }

  function Replies(s: V.State, o: V.Oracle, lay: Layout, ops: seq<Op>): seq<Reply> {
    if ops == [] then []
    else Replies(s, o, lay, Front(ops)) + [Execute(Final(s, o, lay, Front(ops)), o, lay, Last(ops)).1]
  }

  // The log holds, in order, every answered operation on these names with its outcome, some of the failed
  // ones, and nothing else.
  ghost predicate Covers(ns: iset<string>, ops: seq<Op>, replies: seq<Reply>, log: seq<Event>)
    requires |ops| == |replies|
  {
    if ops == [] then log == []
    else
      var op, reply := Last(ops), Last(replies);
      || (log != [] && op.name in ns && Last(log).op == op && (reply.Answered? ==> Last(log).outcome == reply.outcome)
          && Covers(ns, Front(ops), Front(replies), Front(log)))
      || ((op.name !in ns || reply.Failed?) && Covers(ns, Front(ops), Front(replies), log))
  }

  lemma {:induction false} OneReplyEach(s: V.State, o: V.Oracle, lay: Layout, ops: seq<Op>)
    ensures |Replies(s, o, lay, ops)| == |ops|
  {
    if ops != [] {
      OneReplyEach(s, o, lay, Front(ops));
    }
  }

  // One more operation: what it adds to the log.
  lemma LogOne(s: V.State, m: Secrets, ns: iset<string>, o: V.Oracle, lay: Layout, op: Op) returns (logged: bool)
    requires Represents(s, m, ns) && Faithful(lay)
    ensures var (t, reply) := Execute(s, o, lay, op);
            && (logged ==> op.name in ns && Represents(t, Exec(m, op).0, ns)
                           && (reply.Answered? ==> Exec(m, op).1 == reply.outcome) && (Sound(m) ==> !Wraps(m, op)))
            && (!logged ==> (op.name !in ns || reply.Failed?) && Represents(t, m, ns))
  {
    var (t, reply) := Execute(s, o, lay, op);
    ExecuteSpares(s, o, lay, op);
    if op.name !in ns {
      SparesRepresents(s, t, m, ns, op.name);
      logged := false;
    } else if Sound(m) && Wraps(m, op) {
      WrapIsRefused(s, m, ns, o, lay, op);
      SparesRepresents(s, t, m, ns, op.name);
      logged := false;
    } else {
      ExecuteRefines(s, m, ns, o, lay, op);
      logged := !(reply.Failed? && Represents(t, m, ns));
    }
  }

  // Any sequence of operations on a vault that holds these names alongside anything else is explained by a run
  // of the bare map machine on a log with every acknowledged operation on them, its outcome as acknowledged,
  // and whichever failed writes did get through. From well-formed records no such run wraps a version, so the
  // vault ends with well-formed records.
  lemma {:induction false} RunsRefine(s: V.State, m: Secrets, ns: iset<string>, o: V.Oracle, lay: Layout, ops: seq<Op>)
    returns (log: seq<Event>)
    requires Represents(s, m, ns) && Faithful(lay)
    ensures |Replies(s, o, lay, ops)| == |ops| && Covers(ns, ops, Replies(s, o, lay, ops), log)
    ensures Explains(m, log) && Represents(Final(s, o, lay, ops), After(m, log), ns)
    ensures Sound(m) ==> NeverWraps(m, log) && Sound(After(m, log))
  {
    OneReplyEach(s, o, lay, ops);
    if ops == [] {
      log := [];
    } else {
      var front, op := Front(ops), Last(ops);
      var before := RunsRefine(s, m, ns, o, lay, front);
      var at, mid := Final(s, o, lay, front), After(m, before);
      var logged := LogOne(at, mid, ns, o, lay, op);
      var (t, reply) := Execute(at, o, lay, op);
      var replies := Replies(s, o, lay, ops);
      assert Last(replies) == reply && Front(replies) == Replies(s, o, lay, front);
      if logged {
        log := before + [Event(op, Exec(mid, op).1)];
        assert Front(log) == before;
        if Sound(m) {
          ExecKeepsSoundIff(mid, op);
        }
      } else {
        log := before;
      }
    }
  }
}
