/** What a request does to the world outside the handlers, in order: audit entries, backend accesses and
    responses. The server and the store write to one journal (server/server.go, store/store.go). */
module Effects {
  import opened Records

  datatype SecretValue = SecretValue(value: Bytes, version: Version)

  datatype Info = Info(name: string, active: Version, versions: seq<Version>)

  datatype Action = MayGet | MayInfo | MayPut | MayCreateVersion | MayActivate | MayDelete

  datatype Entry = Entry(who: string, action: Action, name: string, version: Version, authorized: bool)

  datatype Payload = Value(sv: SecretValue) | Described(info: Info) | Listed(infos: seq<Info>) | Number(v: Version) | Empty

  // Silence is a caller that has gone away.
  datatype Response = Silence | Status(code: nat) | NotModified | Sent(body: Payload)

  datatype Effect =
    | Audited(entry: Entry) | AuditFailed(entry: Entry)
    | Read(name: string) | Wrote(name: string)
    | Responded(response: Response)

  class Journal {
    var events: seq<Effect>

    constructor ()
      ensures events == []
    {
      events := [];
    }

    method Add(e: Effect)
      modifies this
      ensures events == old(events) + [e]
    {
      events := events + [e];
    }
  }
}

/** The store's operations on a backend that may fail (store/store.go): the reads, the sorted and filtered
    listing, and the class whose methods run the version rules of Versions.dfy in place. */
module Store {
  import opened Wrappers
  import opened Records
  import opened Versions
  import opened Effects
  import Order
  import P = Protocol
  import R = ReadCache

  // Whether the backend's Load, and its Save or Delete, fail in one operation.
  datatype Faults = Faults(load: Option<R.Failure>, write: Option<R.Failure>)

  // One operation on a backend that may refuse a call; a refused write has no effect.
  function Apply(m: Secrets, op: Op, f: Faults): (Secrets, P.Result) {
    if Precheck(op).Some? then (m, P.Answered(Refused(Precheck(op).value)))
    else if !op.Delete? && f.load.Some? then (m, P.BackendFailed(f.load.value))
    else if !op.Delete? && Decide(op, Lookup(m, op.name)).Reply? then
      (m, P.Answered(Decide(op, Lookup(m, op.name)).outcome))
    else if f.write.Some? then (m, P.BackendFailed(f.write.value))
    else (Exec(m, op).0, P.Answered(Exec(m, op).1))
  }

  // The backend calls an operation makes.
  function Accesses(m: Secrets, op: Op, f: Faults): seq<Effect> {
    if Precheck(op).Some? then []
    else if op.Delete? then [Wrote(op.name)]
    else if f.load.Some? || Decide(op, Lookup(m, op.name)).Reply? then [Read(op.name)]
    else [Read(op.name), Wrote(op.name)]
  }

  // An answered operation is the bare machine's; a failed one changed nothing.
  lemma AllOrNothing(m: Secrets, op: Op, f: Faults)
    ensures var (m', r) := Apply(m, op, f);
            && (r.Answered? ==> (m', r.outcome) == Exec(m, op))
            && (r.BackendFailed? ==> m' == m && (f.load == Some(r.failure) || f.write == Some(r.failure)))
  {}

  // --- reads ---

  datatype ReadError = Absent | ValueNotChanged | NoActive

  function InfoOf(r: Record): Info {
    Info(r.name, r.active, Order.Arrange(r.versions.Keys, Order.ByNumber))
  }

  function Active(r: Record): Result<SecretValue, ReadError> {
    if r.active in r.versions then Ok(SecretValue(r.versions[r.active], r.active)) else Err(NoActive)
  }

  function Get(m: Secrets, name: string): Result<SecretValue, ReadError> {
    if name in m then Active(m[name]) else Err(Absent)
  }

  function GetConditional(m: Secrets, name: string, known: Version): Result<SecretValue, ReadError> {
    if name !in m then Err(Absent)
    else
      var sv := Active(m[name]);
      if sv.Ok? && sv.value.version == known then Err(ValueNotChanged) else sv
  }

  function GetVersion(m: Secrets, name: string, v: Version): Result<SecretValue, ReadError> {
    if name in m && v in m[name].versions then Ok(SecretValue(m[name].versions[v], v)) else Err(Absent)
  }

  // The info tells the record's name and active version, and lists its live versions in increasing order.
  ghost predicate Describes(info: Info, r: Record) {
    && info.name == r.name && info.active == r.active
    && (forall i, j | 0 <= i < j < |info.versions| :: info.versions[i] < info.versions[j])
    && (forall v :: v in info.versions <==> v in r.versions)
  }

  lemma InfoDescribes(r: Record)
    ensures Describes(InfoOf(r), r)
  {
    Order.ArrangeIsSorted(r.versions.Keys, Order.ByNumber);
  }

  // Exactly what the three reads answer: the active bytes, those of the version asked for, or the active bytes
  // unless the caller has them; absent when the secret or version is.
  lemma ReadsAreStored(m: Secrets, n: string, v: Version)
    ensures var active := n in m && ValueOf(m, n, m[n].active).Some?;
            && (forall w, b :: Get(m, n) == Ok(SecretValue(b, w)) <==> active && w == m[n].active && ValueOf(m, n, w) == Some(b))
            && (Get(m, n) == Err(Absent) <==> n !in m)
            && (Get(m, n) == Err(NoActive) <==> n in m && !active)
    ensures && (forall w, b :: GetVersion(m, n, v) == Ok(SecretValue(b, w)) <==> w == v && ValueOf(m, n, v) == Some(b))
            && (GetVersion(m, n, v) == Err(Absent) <==> ValueOf(m, n, v).None?)
    ensures var changed := n in m && m[n].active != v;
            && (forall w, b :: GetConditional(m, n, v) == Ok(SecretValue(b, w)) <==>
                  changed && w == m[n].active && ValueOf(m, n, w) == Some(b))
            && (GetConditional(m, n, v) == Err(ValueNotChanged) <==> n in m && m[n].active == v && ValueOf(m, n, v).Some?)
            && (GetConditional(m, n, v) == Err(Absent) <==> n !in m)
  {}

  // In every reachable store a secret that exists has an active value, and the value a version reads as
  // never changes while the secret exists: later reads give the same bytes or report it gone for good.
  lemma VersionsReadTheSame(m0: Secrets, log: seq<Event>, n: string, v: Version)
    requires Sound(m0) && NeverWraps(m0, log) && n in m0
    requires forall e | e in log :: e.op != Delete(n)
    ensures var m := After(m0, log);
            && Get(m, n).Ok? && Get(m, n) == GetVersion(m, n, Get(m, n).value.version)
            && (GetVersion(m0, n, v).Ok? ==>
                  GetVersion(m, n, v) == GetVersion(m0, n, v) || (GetVersion(m, n, v).Err? && v in m[n].deleted))
            && (v in m0[n].deleted ==> GetVersion(m, n, v) == Err(Absent))
  {
    HistoryGrows(m0, log, n);
    RunsKeepSound(m0, log);
    assert WellFormed(After(m0, log)[n]);
  }

  // --- the listing ---

  function Insert(x: string, s: seq<string>): seq<string> {
    if s == [] || Order.TextLeq(x, s[0]) then [x] + s else [s[0]] + Insert(x, s[1..])
  }

  function Sort(s: seq<string>): seq<string> {
    if s == [] then [] else Insert(s[0], Sort(s[1..]))
  }

  predicate Sorted(s: seq<string>) {
    forall i, j | 0 <= i < j < |s| :: Order.TextLeq(s[i], s[j])
  }

  predicate Below(x: string, s: seq<string>) {
    forall y | y in s :: Order.TextLeq(x, y)
  }

  lemma ConsSorted(x: string, s: seq<string>)
    requires Sorted(s) && Below(x, s)
    ensures Sorted([x] + s)
  {
    var r := [x] + s;
    forall i, j | 0 <= i < j < |r|
      ensures Order.TextLeq(r[i], r[j])
    {
      assert r[j] == s[j - 1] && s[j - 1] in s;
    }
  }

  lemma {:induction false} InsertHas(x: string, s: seq<string>)
    ensures multiset(Insert(x, s)) == multiset(s) + multiset{x}
  {
    if s != [] {
      assert s == [s[0]] + s[1..];
      InsertHas(x, s[1..]);
    }
  }

  lemma {:induction false} InsertSorts(x: string, s: seq<string>)
    requires Sorted(s)
    ensures Sorted(Insert(x, s))
  {
    if s == [] {
      ConsSorted(x, s);
    } else if Order.TextLeq(x, s[0]) {
      forall y | y in s
        ensures Order.TextLeq(x, y)
      {
        var k :| 0 <= k < |s| && s[k] == y;
        if k > 0 {
          Order.TextTransitive(x, s[0], s[k]);
        }
      }
      ConsSorted(x, s);
    } else {
      var rest := Insert(x, s[1..]);
      InsertSorts(x, s[1..]);
      InsertHas(x, s[1..]);
      Order.TextTotal(x, s[0]);
      forall y | y in rest
        ensures Order.TextLeq(s[0], y)
      {
        assert y in multiset(rest);
        assert y == x || y in s[1..];
      }
      ConsSorted(s[0], rest);
    }
  }

  lemma {:induction false} SortSorts(s: seq<string>)
    ensures Sorted(Sort(s)) && multiset(Sort(s)) == multiset(s)
  {
    if s != [] {
      SortSorts(s[1..]);
      InsertSorts(s[0], Sort(s[1..]));
      InsertHas(s[0], Sort(s[1..]));
      assert s == [s[0]] + s[1..];
    }
  }

  // What one name adds to a listing: nothing when it is hidden, unreadable or gone meanwhile.
  datatype Line = Skipped | Outage | Shown(info: Info)

  function LineFor(m: Secrets, admitted: bool, load: Option<R.Failure>, n: string): Line {
    if !admitted then Skipped
    else
      match load
      case Some(Unavailable) => Outage
      case Some(Broken) => Skipped
      case None => if n in m then Shown(InfoOf(m[n])) else Skipped
  }

  // What the rest of the world does in one listing: whom the filter admits and which loads fail.
  datatype Scene = Scene(m: Secrets, allow: string -> bool, loads: string -> Option<R.Failure>)

  function Look(s: Scene, n: string): Line {
    LineFor(s.m, s.allow(n), s.loads(n), n)
  }

  // An outage fails the whole listing.
  function Listing(s: Scene, names: seq<string>): Result<seq<Info>, R.Failure> {
    if names == [] then Ok([])
    else
      match Look(s, names[0])
      case Skipped => Listing(s, names[1..])
      case Outage => Err(R.Unavailable)
      case Shown(info) => Prepended([info], Listing(s, names[1..]))
  }

  // Its loads: the admitted names in order, up to the first outage.
  function ListReads(s: Scene, names: seq<string>): seq<Effect> {
    if names == [] then []
    else if !s.allow(names[0]) then ListReads(s, names[1..])
    else if Look(s, names[0]).Outage? then [Read(names[0])]
    else [Read(names[0])] + ListReads(s, names[1..])
  }

  function Prepended(out: seq<Info>, rest: Result<seq<Info>, R.Failure>): Result<seq<Info>, R.Failure> {
    if rest.Err? then rest else Ok(out + rest.value)
  }

  // Every line describes a secret that may be shown.
  predicate Truthful(s: Scene, names: seq<string>, infos: seq<Info>) {
    forall x | x in infos :: x.name in names && Look(s, x.name) == Shown(x)
  }

  predicate ByName(infos: seq<Info>) {
    forall i, j | 0 <= i < j < |infos| :: Order.TextLeq(infos[i].name, infos[j].name)
  }

  predicate SomeOutage(s: Scene, names: seq<string>) {
    exists n | n in names :: Look(s, n).Outage?
  }

  lemma {:induction false} ListingFailsIff(s: Scene, names: seq<string>)
    ensures Listing(s, names).Err? <==> SomeOutage(s, names)
    ensures Listing(s, names).Err? ==> Listing(s, names).error == R.Unavailable
  {
    if names != [] {
      ListingFailsIff(s, names[1..]);
      assert names == [names[0]] + names[1..];
    }
  }

  lemma {:induction false} ListingIsTruthful(s: Scene, names: seq<string>)
    requires Sound(s.m) && Listing(s, names).Ok?
    ensures Truthful(s, names, Listing(s, names).value)
  {
    if names != [] {
      ListingIsTruthful(s, names[1..]);
      assert names == [names[0]] + names[1..];
    }
  }

  lemma {:induction false} ListingIsByName(s: Scene, names: seq<string>)
    requires Sound(s.m) && Sorted(names) && Listing(s, names).Ok?
    ensures ByName(Listing(s, names).value)
  {
    if names != [] {
      ListingIsByName(s, names[1..]);
      ListingIsTruthful(s, names[1..]);
      if Look(s, names[0]).Shown? {
        var rest := Listing(s, names[1..]).value;
        forall j | 0 <= j < |rest|
          ensures Order.TextLeq(names[0], rest[j].name)
        {
          assert rest[j] in rest && rest[j].name in names[1..];
        }
      }
    }
  }

  lemma {:induction false} ListingIsComplete(s: Scene, names: seq<string>, n: string)
    requires Listing(s, names).Ok? && n in names && Look(s, n).Shown?
    ensures Look(s, n).info in Listing(s, names).value
  {
    if names[0] != n {
      assert n in names[1..];
      ListingIsComplete(s, names[1..], n);
    }
  }

  lemma SortKeepsNames(names: seq<string>, n: string)
    ensures n in Sort(names) <==> n in names
  {
    SortSorts(names);
    assert n in Sort(names) <==> n in multiset(Sort(names));
  }

  // A listing of names in any order fails exactly when some admitted name is unavailable; otherwise it
  // describes exactly the admitted secrets that can be read, in name order.
  lemma ListingIsExact(s: Scene, names: seq<string>)
    requires Sound(s.m)
    ensures var r := Listing(s, Sort(names));
            && (r.Err? <==> SomeOutage(s, names))
            && (r.Ok? ==> Truthful(s, names, r.value) && ByName(r.value))
            && (r.Ok? ==> forall n | n in names && Look(s, n).Shown? :: Look(s, n).info in r.value)
  {
    SortSorts(names);
    forall n
      ensures n in Sort(names) <==> n in names
    {
      SortKeepsNames(names, n);
    }
    ListingFailsIff(s, Sort(names));
    if Listing(s, Sort(names)).Ok? {
      ListingIsTruthful(s, Sort(names));
      ListingIsByName(s, Sort(names));
      forall n | n in names && Look(s, n).Shown?
        ensures Look(s, n).info in Listing(s, Sort(names)).value
      {
        ListingIsComplete(s, Sort(names), n);
      }
    }
  }

  // A name a listing shows: admitted, readable and there.
  predicate Visible(s: Scene, n: string) {
    s.allow(n) && s.loads(n).None? && n in s.m
  }

  function VisibleNames(s: Scene, names: seq<string>): seq<string> {
    if names == [] then []
    else (if Visible(s, names[0]) then [names[0]] else []) + VisibleNames(s, names[1..])
  }

  // Line by line, the listing describes the visible names in the order given.
  ghost predicate Shows(s: Scene, shown: seq<string>, infos: seq<Info>) {
    && |infos| == |shown|
    && forall i | 0 <= i < |shown| :: shown[i] in s.m && Describes(infos[i], s.m[shown[i]])
  }

  lemma {:induction false} ListingShows(s: Scene, names: seq<string>)
    requires Listing(s, names).Ok?
    ensures Shows(s, VisibleNames(s, names), Listing(s, names).value)
  {
    if names != [] {
      ListingShows(s, names[1..]);
      if names[0] in s.m {
        InfoDescribes(s.m[names[0]]);
      }
    }
  }

  // The names listed fail the listing exactly if one that is admitted is unavailable, whatever its place; and
  // otherwise each visible name is described, as often as it is listed and in order of the names.
  lemma ListingIsStored(s: Scene, names: seq<string>)
    ensures Listing(s, Sort(names)).Err? <==> exists n :: n in names && s.allow(n) && s.loads(n) == Some(R.Unavailable)
    ensures Listing(s, Sort(names)).Err? ==> Listing(s, Sort(names)).error == R.Unavailable
    ensures Listing(s, Sort(names)).Ok? ==>
              Shows(s, VisibleNames(s, Sort(names)), Listing(s, Sort(names)).value)
    ensures Sorted(Sort(names)) && multiset(Sort(names)) == multiset(names)
  {
    SortSorts(names);
    ListingFailsIff(s, Sort(names));
    if n :| n in names && s.allow(n) && s.loads(n) == Some(R.Unavailable) {
      SortKeepsNames(names, n);
      assert Look(s, n).Outage?;
    }
    if n :| n in Sort(names) && Look(s, n).Outage? {
      SortKeepsNames(names, n);
    }
    if Listing(s, Sort(names)).Ok? {
      ListingShows(s, Sort(names));
    }
  }

  lemma ListingStep(s: Scene, names: seq<string>, i: nat, out: seq<Info>)
    requires i < |names|
    ensures Prepended(out, Listing(s, names[i..])) ==
            match Look(s, names[i])
            case Skipped => Prepended(out, Listing(s, names[i + 1..]))
            case Outage => Err(R.Unavailable)
            case Shown(info) => Prepended(out + [info], Listing(s, names[i + 1..]))
  {
    var tail, rest := names[i..], Listing(s, names[i + 1..]);
    assert tail[0] == names[i] && tail[1..] == names[i + 1..];
    if Look(s, names[i]).Shown? && rest.Ok? {
      assert out + ([Look(s, names[i]).info] + rest.value) == out + [Look(s, names[i]).info] + rest.value;
    }
  }

  lemma ReadsStep(s: Scene, names: seq<string>, i: nat, events: seq<Effect>)
    requires i < |names|
    ensures events + ListReads(s, names[i..]) ==
            if !s.allow(names[i]) then events + ListReads(s, names[i + 1..])
            else if Look(s, names[i]).Outage? then events + [Read(names[i])]
            else events + [Read(names[i])] + ListReads(s, names[i + 1..])
  {
    var tail := names[i..];
    assert tail[0] == names[i] && tail[1..] == names[i + 1..];
    var rest := ListReads(s, names[i + 1..]);
    assert events + ([Read(names[i])] + rest) == events + [Read(names[i])] + rest;
  }

  // --- in place ---

  class Store {
    var m: Secrets
    const journal: Journal

    constructor (m: Secrets, journal: Journal)
      ensures this.m == m && this.journal == journal
    {
      this.m, this.journal := m, journal;
    }

    method Load(name: string, f: Faults) returns (r: Result<Option<Record>, R.Failure>)
      modifies journal
      ensures r == if f.load.Some? then Err(f.load.value) else Ok(Lookup(m, name))
      ensures journal.events == old(journal.events) + [Read(name)]
    {
      journal.Add(Read(name));
      if f.load.Some? {
        return Err(f.load.value);
      }
      if name in m {
        return Ok(Some(m[name]));
      }
      return Ok(None);
    }

    method Save(name: string, r: Record, f: Faults, out: Outcome) returns (result: P.Result)
      modifies this`m, journal
      ensures journal.events == old(journal.events) + [Wrote(name)]
      ensures f.write.Some? ==> m == old(m) && result == P.BackendFailed(f.write.value)
      ensures f.write.None? ==> m == old(m)[name := r] && result == P.Answered(out)
    {
      journal.Add(Wrote(name));
      if f.write.Some? {
        return P.BackendFailed(f.write.value);
      }
      m := m[name := r];
      return P.Answered(out);
    }

    method Put(name: string, value: Bytes, f: Faults) returns (result: P.Result)
      modifies this`m, journal
      ensures (m, result) == Apply(old(m), Op.Put(name, value), f)
      ensures journal.events == old(journal.events) + Accesses(old(m), Op.Put(name, value), f)
    {
      if name == "" {
        return P.Answered(Refused(EmptyName));
      }
      if CONFIG_PREFIX <= name {
        return P.Answered(Refused(UnknownConfig(name)));
      }
      var loaded := Load(name, f);
      if loaded.Err? {
        return P.BackendFailed(loaded.error);
      }
      if loaded.value.None? {
        result := Save(name, Record(name, map[1 := value], 1, 1, {}), f, Assigned(1));
        return;
      }
      var r := loaded.value.value;
      if r.latest in r.versions && r.versions[r.latest] == value {
        return P.Answered(Assigned(r.latest));
      }
      r := r.(latest := if r.latest == MAX_VERSION then 0 else r.latest + 1);
      r := r.(versions := r.versions[r.latest := value]);
      result := Save(name, r, f, Assigned(r.latest));
    }

    method CreateVersion(name: string, version: Version, value: Bytes, f: Faults) returns (result: P.Result)
      modifies this`m, journal
      ensures (m, result) == Apply(old(m), Op.CreateVersion(name, version, value), f)
      ensures journal.events == old(journal.events) + Accesses(old(m), Op.CreateVersion(name, version, value), f)
    {
      if name == "" {
        return P.Answered(Refused(EmptyName));
      }
      if version == 0 {
        return P.Answered(Refused(InvalidVersion));
      }
      var loaded := Load(name, f);
      if loaded.Err? {
        return P.BackendFailed(loaded.error);
      }
      if loaded.value.None? {
        result := Save(name, Record(name, map[version := value], version, version, {}), f, Done);
        return;
      }
      var r := loaded.value.value;
      if r.IsClaimed(version) {
        return P.Answered(Refused(VersionClaimed));
      }
      r := r.(versions := r.versions[version := value]);
      if r.latest < version {
        r := r.(latest := version);
      }
      r := r.(active := version);
      result := Save(name, r, f, Done);
    }

    method Activate(name: string, version: Version, f: Faults) returns (result: P.Result)
      modifies this`m, journal
      ensures (m, result) == Apply(old(m), Op.Activate(name, version), f)
      ensures journal.events == old(journal.events) + Accesses(old(m), Op.Activate(name, version), f)
    {
      if name == "" {
        return P.Answered(Refused(EmptyName));
      }
      if CONFIG_PREFIX <= name {
        return P.Answered(Refused(UnknownConfig(name)));
      }
      if version == 0 {
        return P.Answered(Refused(InvalidVersionPlain));
      }
      var loaded := Load(name, f);
      if loaded.Err? {
        return P.BackendFailed(loaded.error);
      }
      if loaded.value.None? || version !in loaded.value.value.versions {
        return P.Answered(Refused(NotFound));
      }
      var r := loaded.value.value;
      if r.active == version {
        return P.Answered(Done);
      }
      r := r.(active := version);
      result := Save(name, r, f, Done);
    }

    method DeleteVersion(name: string, version: Version, f: Faults) returns (result: P.Result)
      modifies this`m, journal
      ensures (m, result) == Apply(old(m), Op.DeleteVersion(name, version), f)
      ensures journal.events == old(journal.events) + Accesses(old(m), Op.DeleteVersion(name, version), f)
    {
      if CONFIG_PREFIX <= name {
        return P.Answered(Refused(UnknownConfig(name[|CONFIG_PREFIX|..])));
      }
      if version == 0 {
        return P.Answered(Refused(InvalidVersionPlain));
      }
      var loaded := Load(name, f);
      if loaded.Err? {
        return P.BackendFailed(loaded.error);
      }
      if loaded.value.None? {
        return P.Answered(Refused(NotFound));
      }
      var r := loaded.value.value;
      if version == r.active {
        return P.Answered(Refused(DeleteActive));
      }
      if version !in r.versions {
        return P.Answered(Refused(NotFound));
      }
      r := r.(versions := r.versions - {version});
      r := r.(deleted := r.deleted + {version});
      result := Save(name, r, f, Done);
    }

    method Delete(name: string, f: Faults) returns (result: P.Result)
      modifies this`m, journal
      ensures (m, result) == Apply(old(m), Op.Delete(name), f)
      ensures journal.events == old(journal.events) + Accesses(old(m), Op.Delete(name), f)
    {
      if CONFIG_PREFIX <= name {
        return P.Answered(Refused(UnknownConfig(name[|CONFIG_PREFIX|..])));
      }
      journal.Add(Wrote(name));
      if f.write.Some? {
        return P.BackendFailed(f.write.value);
      }
      m := m - {name};
      return P.Answered(Done);
    }

    // names is what the backend listed, in any order.
    method List(names: seq<string>, allow: string -> bool, loads: string -> Option<R.Failure>)
      returns (r: Result<seq<Info>, R.Failure>)
      modifies journal
      ensures r == Listing(Scene(m, allow, loads), Sort(names))
      ensures journal.events == old(journal.events) + ListReads(Scene(m, allow, loads), Sort(names))
    {
      ghost var scene := Scene(m, allow, loads);
      var sorted := Sort(names);
      var out: seq<Info> := [];
      var i := 0;
      NothingPrepended(Listing(scene, sorted));
      assert sorted[0..] == sorted;
      while i < |sorted|
        invariant i <= |sorted|
        invariant Listing(scene, sorted) == Prepended(out, Listing(scene, sorted[i..]))
        invariant journal.events + ListReads(scene, sorted[i..]) == old(journal.events) + ListReads(scene, sorted)
      {
        var n := sorted[i];
        ListingStep(scene, sorted, i, out);
        ReadsStep(scene, sorted, i, journal.events);
        i := i + 1;
        if !allow(n) {
          continue;
        }
        journal.Add(Read(n));
        match loads(n) {
          case Some(Unavailable) => return Err(R.Unavailable);
          case Some(Broken) => continue;
          case None =>
        }
        if n in m {
          out := out + [InfoOf(m[n])];
        }
      }
      assert out + [] == out && journal.events + [] == journal.events;
      return Ok(out);
    }
  }

  lemma NothingPrepended(r: Result<seq<Info>, R.Failure>)
    ensures Prepended([], r) == r
  {
    if r.Ok? {
      assert [] + r.value == r.value;
    }
  }
}
