/** The API handlers as traces of effects (server/server.go): audit entries, backend accesses and the
    response, in the order they happen. Access rules are a parameter; the audit writer and the backend
    may fail. The class `Server` produces the traces in place. */
module Server {
  import opened Wrappers
  import opened Records
  import opened Versions
  import opened Effects
  import P = Protocol
  import R = ReadCache
  import S = Store

  type Rules = (Action, string) -> bool

  datatype Request =
    | ListAll
    | GetSecret(name: string, version: Version, ifChanged: bool)
    | GetInfo(name: string)
    | Mutate(op: Op)

  datatype Error = AccessDenied | NotFound | ValueNotChanged | InvalidVersion | VersionClaimed | Unavailable | Other

  // What a request meets before its handler: how it arrived and who sent it.
  datatype Arrival = Accepted | NotPost | NotJson | FromBrowser | CallerGone | NoIdentityYet | Unidentified | BadBody

  // The rest of the world during one request. names is what the backend lists.
  datatype World = World(auditWorks: bool, names: Result<seq<string>, R.Failure>,
                         loads: string -> Option<R.Failure>, write: Option<R.Failure>, gone: bool)

  // --- what the handlers do ---

  datatype Handled = Handled(m: Secrets, effects: seq<Effect>, result: Result<Payload, Error>)

  function Logged(w: World, e: Entry): Effect {
    if w.auditWorks then Audited(e) else AuditFailed(e)
  }

  function ErrorOf(e: OpError): Error {
    match e
    case InvalidVersion => Error.InvalidVersion
    case NotFound => Error.NotFound
    case VersionClaimed => Error.VersionClaimed
    case _ => Other
  }

  function Trouble(f: R.Failure): Error {
    if f.Unavailable? then Unavailable else Other
  }

  function ReadTrouble(e: S.ReadError): Error {
    match e
    case Absent => Error.NotFound
    case ValueNotChanged => Error.ValueNotChanged
    case NoActive => Other
  }

  function ResultOf(r: P.Result): Result<Payload, Error> {
    match r
    case Answered(Assigned(v)) => Ok(Number(v))
    case Answered(Done) => Ok(Empty)
    case Answered(Refused(e)) => Err(ErrorOf(e))
    case BackendFailed(f) => Err(Trouble(f))
  }

  function ActionFor(op: Op): Action {
    match op
    case Put(_, _) => MayPut
    case CreateVersion(_, _, _) => MayCreateVersion
    case Activate(_, _) => MayActivate
    case DeleteVersion(_, _) => MayDelete
    case Delete(_) => MayDelete
  }

  function VersionFor(op: Op): Version {
    match op
    case CreateVersion(_, v, _) => v
    case Activate(_, v) => v
    case DeleteVersion(_, v) => v
    case _ => 0
  }

  // The checks a handler makes before it asks whether the caller may.
  function Invalid(op: Op): Option<Error> {
    if op.name == "" && (op.Put? || op.CreateVersion? || op.Activate?) then Some(Other)
    else if op.CreateVersion? && op.version == 0 then Some(Error.InvalidVersion)
    else None
  }

  // The error of checkAndLog, if any.
  function Refusal(w: World, allowed: bool): Option<Error> {
    if !allowed then Some(AccessDenied) else if !w.auditWorks then Some(Other) else None
  }

  function FaultsOf(op: Op, w: World): S.Faults {
    S.Faults(w.loads(op.name), w.write)
  }

  function HandleMutate(m: Secrets, who: string, may: Rules, op: Op, w: World): Handled {
    if Invalid(op).Some? then Handled(m, [], Err(Invalid(op).value))
    else
      var allowed := may(ActionFor(op), op.name);
      var log := [Logged(w, Entry(who, ActionFor(op), op.name, VersionFor(op), allowed))];
      if Refusal(w, allowed).Some? then Handled(m, log, Err(Refusal(w, allowed).value))
      else
        var (m', r) := S.Apply(m, op, FaultsOf(op, w));
        Handled(m', log + S.Accesses(m, op, FaultsOf(op, w)), ResultOf(r))
  }

  // The value a get asks for.
  function Fetched(m: Secrets, req: Request, w: World): Result<Payload, Error>
    requires req.GetSecret?
  {
    if w.loads(req.name).Some? then Err(Trouble(w.loads(req.name).value))
    else
      var r := if req.version == 0 then S.Get(m, req.name)
               else if req.ifChanged then S.GetConditional(m, req.name, req.version)
               else S.GetVersion(m, req.name, req.version);
      if r.Ok? then Ok(Value(r.value)) else Err(ReadTrouble(r.error))
  }

  // A conditional get is audited only when denied or when a fresh value is returned.
  function HandleGet(m: Secrets, who: string, may: Rules, req: Request, w: World): Handled
    requires req.GetSecret?
  {
    var conditional := req.version != 0 && req.ifChanged;
    var allowed := may(MayGet, req.name);
    var entry := Entry(who, MayGet, req.name, if conditional then 0 else req.version, allowed);
    var got := Fetched(m, req, w);
    if conditional && allowed then
      if got.Err? then Handled(m, [Read(req.name)], got)
      else Handled(m, [Read(req.name), Logged(w, entry)], if w.auditWorks then got else Err(Other))
    else if Refusal(w, allowed).Some? then Handled(m, [Logged(w, entry)], Err(Refusal(w, allowed).value))
    else Handled(m, [Logged(w, entry), Read(req.name)], got)
  }

  function HandleInfo(m: Secrets, who: string, may: Rules, name: string, w: World): Handled {
    var allowed := may(MayInfo, name);
    var log := [Logged(w, Entry(who, MayInfo, name, 0, allowed))];
    if Refusal(w, allowed).Some? then Handled(m, log, Err(Refusal(w, allowed).value))
    else
      var r := if w.loads(name).Some? then Err(Trouble(w.loads(name).value))
               else if name in m then Ok(Described(S.InfoOf(m[name])))
               else Err(Error.NotFound);
      Handled(m, log + [Read(name)], r)
  }

  function HandleList(m: Secrets, who: string, may: Rules, w: World): Handled {
    var log := [Logged(w, Entry(who, MayInfo, "", 0, true))];
    if !w.auditWorks then Handled(m, log, Err(Other))
    else if w.names.Err? then Handled(m, log, Err(Trouble(w.names.error)))
    else
      var scene := S.Scene(m, n => may(MayInfo, n), w.loads);
      var sorted := S.Sort(w.names.value);
      var r := S.Listing(scene, sorted);
      Handled(m, log + S.ListReads(scene, sorted), if r.Ok? then Ok(Listed(r.value)) else Err(Trouble(r.error)))
  }

  function Handle(m: Secrets, who: string, may: Rules, req: Request, w: World): Handled {
    match req
    case ListAll => HandleList(m, who, may, w)
    case GetSecret(_, _, _) => HandleGet(m, who, may, req, w)
    case GetInfo(name) => HandleInfo(m, who, may, name, w)
    case Mutate(op) => HandleMutate(m, who, may, op, w)
  }

  // The error mapping of serveJSON, in the order of its cases.
  function Respond(r: Result<Payload, Error>, gone: bool): Response {
    match r
    case Err(AccessDenied) => Status(403)
    case Err(NotFound) => Status(404)
    case Err(ValueNotChanged) => NotModified
    case Err(InvalidVersion) => Status(400)
    case Err(VersionClaimed) => Status(412)
    case Err(Unavailable) => if gone then Silence else Status(503)
    case Err(Other) => if gone then Silence else Status(500)
    case Ok(body) => if gone then Silence else Sent(body)
  }

  function TurnedAway(a: Arrival): Response {
    match a
    case NotPost => Status(400)
    case NotJson => Status(400)
    case FromBrowser => Status(403)
    case CallerGone => Silence
    case NoIdentityYet => Status(503)
    case Unidentified => Status(500)
    case BadBody => Status(400)
    case Accepted => Silence
  }

  // One whole request.
  function Serve(m: Secrets, a: Arrival, who: string, may: Rules, req: Request, w: World): (Secrets, seq<Effect>) {
    if a != Accepted then (m, [Responded(TurnedAway(a))])
    else
      var d := Handle(m, who, may, req, w);
      (d.m, d.effects + [Responded(Respond(d.result, w.gone))])
  }

  // --- nothing without an audit entry ---

  function RequestAction(req: Request): Action {
    match req
    case ListAll => MayInfo
    case GetSecret(_, _, _) => MayGet
    case GetInfo(_) => MayInfo
    case Mutate(op) => ActionFor(op)
  }

  function RequestName(req: Request): string {
    match req
    case ListAll => ""
    case GetSecret(n, _, _) => n
    case GetInfo(n) => n
    case Mutate(op) => op.name
  }

  // An authorised entry for this caller, action and name, written before place i.
  ghost predicate AuditedBefore(effects: seq<Effect>, i: nat, who: string, action: Action, name: string)
    requires i <= |effects|
  {
    exists j | 0 <= j < i :: effects[j].Audited? && effects[j].entry.who == who && effects[j].entry.action == action
                             && effects[j].entry.name == name && effects[j].entry.authorized
  }

  // A backend write, or anything sent out of the store.
  predicate Sensitive(e: Effect) {
    e.Wrote? || (e.Responded? && e.response.Sent?)
  }

  // In every request a backend write and every answer that carries data come after an authorised audit
  // entry for that caller, action and name, successfully written in the same request; and so does every
  // backend read, except that of a conditional get.
  lemma AuditComesFirst(m: Secrets, a: Arrival, who: string, may: Rules, req: Request, w: World, i: nat)
    requires var es := Serve(m, a, who, may, req, w).1;
             i < |es| && (Sensitive(es[i]) || (es[i].Read? && !(req.GetSecret? && req.version != 0 && req.ifChanged)))
    ensures AuditedBefore(Serve(m, a, who, may, req, w).1, i, who, RequestAction(req), RequestName(req))
    ensures req.ListAll? || may(RequestAction(req), RequestName(req))
  {
    var es := Serve(m, a, who, may, req, w).1;
    var j := if es[0].Audited? then 0 else 1;
    assert es[j].Audited? && j < i;
  }

  // A handler that is refused, or whose audit entry cannot be written, leaves the store alone; the store
  // only ever changes at the request's own name, and then by a backend write.
  lemma ChangesAreWritten(m: Secrets, a: Arrival, who: string, may: Rules, req: Request, w: World, n: string)
    requires Lookup(Serve(m, a, who, may, req, w).0, n) != Lookup(m, n)
    ensures req.Mutate? && n == req.op.name && a == Accepted
    ensures Wrote(n) in Serve(m, a, who, may, req, w).1
  {
    var op := req.op;
    var calls := S.Accesses(m, op, FaultsOf(op, w));
    assert calls[|calls| - 1] == Wrote(n);
  }

  // A request is answered 403 exactly when it came from a browser, or it is valid and the rules deny it.
  lemma ForbiddenIff(m: Secrets, a: Arrival, who: string, may: Rules, req: Request, w: World)
    ensures var es := Serve(m, a, who, may, req, w).1;
            es != [] && (Last(es) == Responded(Status(403)) <==>
              a == FromBrowser
              || (a == Accepted && !req.ListAll? && (req.Mutate? ==> Invalid(req.op).None?)
                  && !may(RequestAction(req), RequestName(req))))
  {
    if a == Accepted {
      match req
      case ListAll =>
      case GetSecret(_, _, _) =>
      case GetInfo(_) =>
      case Mutate(op) => assert Handle(m, who, may, req, w) == HandleMutate(m, who, may, op, w);
    }
  }

  // A get that sends a value sends the bytes stored under the version asked for: the active one by default,
  // and for a conditional get one that differs from what the caller has.
  lemma GetSendsTheValue(m: Secrets, who: string, may: Rules, req: Request, w: World, sv: SecretValue)
    requires req.GetSecret? && Last(Serve(m, Accepted, who, may, req, w).1) == Responded(Sent(Value(sv)))
    ensures may(MayGet, req.name) && w.auditWorks && req.name in m
    ensures var r := m[req.name];
            && sv.version in r.versions && sv.value == r.versions[sv.version]
            && (req.version == 0 || req.ifChanged ==> sv.version == r.active)
            && (req.version != 0 ==> (req.ifChanged <==> sv.version != req.version))
  {
    assert Handle(m, who, may, req, w) == HandleGet(m, who, may, req, w);
  }

  // A get is answered "not modified", and then without an audit entry, exactly when it is conditional and
  // allowed and the version the caller has is the active one.
  lemma NotModifiedIff(m: Secrets, who: string, may: Rules, req: Request, w: World)
    requires req.GetSecret?
    ensures var es := Serve(m, Accepted, who, may, req, w).1;
            && (Last(es) == Responded(NotModified) <==>
                  && req.version != 0 && req.ifChanged && may(MayGet, req.name) && w.loads(req.name).None?
                  && req.name in m && m[req.name].active == req.version && req.version in m[req.name].versions)
            && (Last(es) == Responded(NotModified) ==> es == [Read(req.name), Responded(NotModified)])
  {
    assert Handle(m, who, may, req, w) == HandleGet(m, who, may, req, w);
  }

  // Creating a version is answered 412 exactly when the request is valid, allowed and audited, the record
  // loads, and that version was ever assigned to the secret, live or deleted.
  lemma ConflictIff(m: Secrets, who: string, may: Rules, op: Op, w: World)
    requires op.CreateVersion?
    ensures Last(Serve(m, Accepted, who, may, Mutate(op), w).1) == Responded(Status(412)) <==>
              && op.name != "" && op.version != 0 && may(MayCreateVersion, op.name) && w.auditWorks
              && w.loads(op.name).None? && op.name in m && op.version in m[op.name].Claimed()
  {
    var d := HandleMutate(m, who, may, op, w);
    assert Handle(m, who, may, Mutate(op), w) == d;
  }

  // A listing that is sent shows only secrets the caller may see, exactly as they are stored, in order.
  lemma ListShowsOnlyAllowed(m: Secrets, who: string, may: Rules, w: World)
    requires Sound(m) && Handle(m, who, may, ListAll, w).result.Ok?
    ensures var infos := Handle(m, who, may, ListAll, w).result.value.infos;
            && (forall x | x in infos :: may(MayInfo, x.name) && x.name in m && x == S.InfoOf(m[x.name]))
            && S.ByName(infos)
            && (forall n | n in w.names.value && may(MayInfo, n) && n in m && w.loads(n).None? :: S.InfoOf(m[n]) in infos)
  {
    var scene := S.Scene(m, n => may(MayInfo, n), w.loads);
    S.ListingIsExact(scene, w.names.value);
    forall n | n in w.names.value && may(MayInfo, n) && n in m && w.loads(n).None?
      ensures S.InfoOf(m[n]) in Handle(m, who, may, ListAll, w).result.value.infos
    {
      assert S.Look(scene, n) == S.Shown(S.InfoOf(m[n]));
    }
  }

  // --- what a caller may not do tells it nothing ---

  // The two stores agree on everything the caller may act on in some way.
  ghost predicate SameForCaller(m1: Secrets, m2: Secrets, may: Rules) {
    forall n, x | may(x, n) :: Lookup(m1, n) == Lookup(m2, n)
  }

  lemma {:induction false} ListingIsBlind(s1: S.Scene, s2: S.Scene, names: seq<string>)
    requires s1.allow == s2.allow
    requires forall n | s1.allow(n) :: Lookup(s1.m, n) == Lookup(s2.m, n) && s1.loads(n) == s2.loads(n)
    ensures S.Listing(s1, names) == S.Listing(s2, names) && S.ListReads(s1, names) == S.ListReads(s2, names)
  {
    if names != [] {
      ListingIsBlind(s1, s2, names[1..]);
      assert s1.allow(names[0]) ==>
          Lookup(s1.m, names[0]) == Lookup(s2.m, names[0]) && s1.loads(names[0]) == s2.loads(names[0]);
      assert S.Look(s1, names[0]) == S.Look(s2, names[0]);
    }
  }

  // The names a caller may see, in the order given.
  function Admitted(allow: string -> bool, names: seq<string>): seq<string> {
    if names == [] then []
    else if allow(names[0]) then [names[0]] + Admitted(allow, names[1..])
    else Admitted(allow, names[1..])
  }

  // Hidden names add nothing to a listing and cause no load.
  lemma {:induction false} OnlyAdmittedMatter(s: S.Scene, names: seq<string>)
    ensures S.Listing(s, names) == S.Listing(s, Admitted(s.allow, names))
    ensures S.ListReads(s, names) == S.ListReads(s, Admitted(s.allow, names))
  {
    if names != [] {
      var rest := Admitted(s.allow, names[1..]);
      OnlyAdmittedMatter(s, names[1..]);
      assert ([names[0]] + rest)[1..] == rest;
    }
  }

  lemma {:induction false} AdmittedCounts(allow: string -> bool, names: seq<string>, n: string)
    ensures multiset(Admitted(allow, names))[n] == if allow(n) then multiset(names)[n] else 0
  {
    if names != [] {
      AdmittedCounts(allow, names[1..], n);
      assert names == [names[0]] + names[1..];
    }
  }

  lemma {:induction false} AdmittedIsSorted(allow: string -> bool, names: seq<string>)
    requires S.Sorted(names)
    ensures S.Sorted(Admitted(allow, names))
  {
    if names != [] {
      var rest := Admitted(allow, names[1..]);
      AdmittedIsSorted(allow, names[1..]);
      if allow(names[0]) {
        forall y | y in rest
          ensures S.Order.TextLeq(names[0], y)
        {
          AdmittedCounts(allow, names[1..], y);
          assert y in multiset(rest) && y in multiset(names[1..]);
          assert y in names[1..];
        }
        S.ConsSorted(names[0], rest);
      }
    }
  }

  lemma HeadIsLeast(a: seq<string>, x: string)
    requires S.Sorted(a) && x in a
    ensures S.Order.TextLeq(a[0], x)
  {
    var i :| 0 <= i < |a| && a[i] == x;
    S.Order.TextTotal(x, x);
  }

  lemma SameHead(a: seq<string>, b: seq<string>)
    requires a != [] && b != [] && S.Sorted(a) && S.Sorted(b) && multiset(a) == multiset(b)
    ensures a[0] == b[0]
  {
    assert a[0] in multiset(b) && b[0] in multiset(a);
    HeadIsLeast(a, b[0]);
    HeadIsLeast(b, a[0]);
    S.Order.TextTotal(a[0], b[0]);
  }

  // Names in order are determined by how often each occurs.
  lemma {:induction false} SortedIsUnique(a: seq<string>, b: seq<string>)
    requires S.Sorted(a) && S.Sorted(b) && multiset(a) == multiset(b)
    ensures a == b
    decreases |a|
  {
    assert |a| == |multiset(a)| == |multiset(b)| == |b|;
    if a != [] {
      SameHead(a, b);
      assert a == [a[0]] + a[1..] && b == [b[0]] + b[1..];
      assert multiset(a[1..]) == multiset(a) - multiset{a[0]};
      assert multiset(b[1..]) == multiset(b) - multiset{b[0]};
      SortedIsUnique(a[1..], b[1..]);
    }
  }

  // However the backend orders them, and whatever hidden names it lists besides, the same admitted names are
  // gone through in the same order.
  lemma SameAdmitted(allow: string -> bool, n1: seq<string>, n2: seq<string>)
    requires multiset(Admitted(allow, n1)) == multiset(Admitted(allow, n2))
    ensures Admitted(allow, S.Sort(n1)) == Admitted(allow, S.Sort(n2))
  {
    S.SortSorts(n1);
    S.SortSorts(n2);
    AdmittedIsSorted(allow, S.Sort(n1));
    AdmittedIsSorted(allow, S.Sort(n2));
    var a, b := Admitted(allow, S.Sort(n1)), Admitted(allow, S.Sort(n2));
    forall n
      ensures multiset(a)[n] == multiset(b)[n]
    {
      AdmittedCounts(allow, S.Sort(n1), n);
      AdmittedCounts(allow, S.Sort(n2), n);
      AdmittedCounts(allow, n1, n);
      AdmittedCounts(allow, n2, n);
    }
    SortedIsUnique(a, b);
  }

  // The backend may list different names, and fail to load different ones, but the same among those the caller
  // may see or act on.
  ghost predicate SameWorld(w1: World, w2: World, may: Rules) {
    && w1 == w2.(names := w1.names, loads := w1.loads)
    && (forall n, x | may(x, n) :: w1.loads(n) == w2.loads(n))
    && (w1.names == w2.names
        || (w1.names.Ok? && w2.names.Ok?
            && multiset(Admitted(n => may(MayInfo, n), w1.names.value))
               == multiset(Admitted(n => may(MayInfo, n), w2.names.value))))
  }

  lemma ListIsBlind(m1: Secrets, m2: Secrets, who: string, may: Rules, w1: World, w2: World)
    requires SameForCaller(m1, m2, may) && SameWorld(w1, w2, may)
    ensures var d1, d2 := HandleList(m1, who, may, w1), HandleList(m2, who, may, w2);
            d1.effects == d2.effects && d1.result == d2.result
  {
    if w1.names.Ok? {
      var allow := n => may(MayInfo, n);
      var a, b := S.Sort(w1.names.value), S.Sort(w2.names.value);
      var s1, s2 := S.Scene(m1, allow, w1.loads), S.Scene(m2, allow, w2.loads);
      SameAdmitted(allow, w1.names.value, w2.names.value);
      OnlyAdmittedMatter(s1, a);
      OnlyAdmittedMatter(s2, b);
      ListingIsBlind(s1, s2, Admitted(allow, a));
    }
  }

  // Everything a caller can observe of a request, and every effect it has, is the same on two stores that
  // differ only in secrets the caller may do nothing with, their presence in the listing and whether they can be
  // read included; and the stores still agree afterwards.
  lemma DeniedIsBlind(m1: Secrets, m2: Secrets, a: Arrival, who: string, may: Rules, req: Request, w1: World, w2: World)
    requires SameForCaller(m1, m2, may) && SameWorld(w1, w2, may)
    ensures Serve(m1, a, who, may, req, w1).1 == Serve(m2, a, who, may, req, w2).1
    ensures SameForCaller(Serve(m1, a, who, may, req, w1).0, Serve(m2, a, who, may, req, w2).0, may)
  {
    HandlersAreBlind(m1, m2, who, may, req, w1, w2);
  }

  lemma HandlersAreBlind(m1: Secrets, m2: Secrets, who: string, may: Rules, req: Request, w1: World, w2: World)
    requires SameForCaller(m1, m2, may) && SameWorld(w1, w2, may)
    ensures var d1, d2 := Handle(m1, who, may, req, w1), Handle(m2, who, may, req, w2);
            d1.effects == d2.effects && d1.result == d2.result && SameForCaller(d1.m, d2.m, may)
  {
    match req
    case ListAll => ListIsBlind(m1, m2, who, may, w1, w2);
    case GetSecret(n, _, _) => GetIsBlind(m1, m2, who, may, req, w1, w2);
    case GetInfo(n) => assert may(MayInfo, n) ==> Lookup(m1, n) == Lookup(m2, n) && w1.loads(n) == w2.loads(n);
    case Mutate(op) => MutateIsBlind(m1, m2, who, may, op, w1, w2);
  }

  lemma GetIsBlind(m1: Secrets, m2: Secrets, who: string, may: Rules, req: Request, w1: World, w2: World)
    requires SameForCaller(m1, m2, may) && SameWorld(w1, w2, may) && req.GetSecret?
    ensures var d1, d2 := HandleGet(m1, who, may, req, w1), HandleGet(m2, who, may, req, w2);
            d1.effects == d2.effects && d1.result == d2.result
  {
    if may(MayGet, req.name) {
      assert Lookup(m1, req.name) == Lookup(m2, req.name);
      assert Fetched(m1, req, w1) == Fetched(m2, req, w2);
    }
  }

  lemma MutateIsBlind(m1: Secrets, m2: Secrets, who: string, may: Rules, op: Op, w1: World, w2: World)
    requires SameForCaller(m1, m2, may) && SameWorld(w1, w2, may)
    ensures var d1, d2 := HandleMutate(m1, who, may, op, w1), HandleMutate(m2, who, may, op, w2);
            d1.effects == d2.effects && d1.result == d2.result && SameForCaller(d1.m, d2.m, may)
  {
    if may(ActionFor(op), op.name) {
      assert Lookup(m1, op.name) == Lookup(m2, op.name) && w1.loads(op.name) == w2.loads(op.name);
      var f := FaultsOf(op, w1);
      assert FaultsOf(op, w2) == f;
      assert S.Apply(m1, op, f).1 == S.Apply(m2, op, f).1;
      forall n, x | may(x, n)
        ensures Lookup(S.Apply(m1, op, f).0, n) == Lookup(S.Apply(m2, op, f).0, n)
      {
        assert Lookup(m1, n) == Lookup(m2, n);
      }
    }
  }

  // --- runs of requests from many callers ---

  datatype Turn = Turn(arrival: Arrival, who: string, may: Rules, req: Request, world: World)

  function Final(m: Secrets, turns: seq<Turn>): Secrets {
    if turns == [] then m
    else
      var t := Last(turns);
      Serve(Final(m, Front(turns)), t.arrival, t.who, t.may, t.req, t.world).0
  }

  // The effects of turn k, in the store it finds.
  function EffectsOf(m: Secrets, turns: seq<Turn>, k: nat): seq<Effect>
    requires k < |turns|
  {
    var t := turns[k];
    Serve(Final(m, turns[..k]), t.arrival, t.who, t.may, t.req, t.world).1
  }

  // Turn k changed the secret n.
  predicate Changes(m: Secrets, turns: seq<Turn>, k: nat, n: string)
    requires k < |turns|
  {
    Lookup(Final(m, turns[..k + 1]), n) != Lookup(Final(m, turns[..k]), n)
  }

  // Its caller had the right to, and an entry saying so was written before the backend write.
  ghost predicate Accounted(t: Turn, effects: seq<Effect>, n: string) {
    && t.req.Mutate? && t.req.op.name == n && t.may(ActionFor(t.req.op), n)
    && exists j, i | 0 <= j < i < |effects| ::
         effects[j] == Audited(Entry(t.who, ActionFor(t.req.op), n, VersionFor(t.req.op), true)) && effects[i] == Wrote(n)
  }

  // Whatever requests are served, each one that changes a secret was made by someone allowed to change it, and
  // its own audit entry was written before its own backend write.
  lemma EveryChangeIsAudited(m: Secrets, turns: seq<Turn>, k: nat, n: string)
    requires k < |turns| && Changes(m, turns, k, n)
    ensures Accounted(turns[k], EffectsOf(m, turns, k), n)
  {
    var before, t := Final(m, turns[..k]), turns[k];
    assert Front(turns[..k + 1]) == turns[..k] && Last(turns[..k + 1]) == t;
    ChangesAreWritten(before, t.arrival, t.who, t.may, t.req, t.world, n);
    var es := EffectsOf(m, turns, k);
    var i :| 0 <= i < |es| && es[i] == Wrote(n);
    AuditComesFirst(before, t.arrival, t.who, t.may, t.req, t.world, i);
    assert es[0] == Audited(Entry(t.who, ActionFor(t.req.op), n, VersionFor(t.req.op), true));
  }

  // A secret that ends up different was changed by some turn, which is accounted for.
  lemma {:induction false} NoChangeUnaccounted(m: Secrets, turns: seq<Turn>, n: string) returns (k: nat)
    requires Lookup(Final(m, turns), n) != Lookup(m, n)
    ensures k < |turns| && Changes(m, turns, k, n) && Accounted(turns[k], EffectsOf(m, turns, k), n)
  {
    var front := Front(turns);
    assert turns[..|front|] == front && turns[..|front| + 1] == turns;
    if Lookup(Final(m, turns), n) != Lookup(Final(m, front), n) {
      k := |front|;
    } else {
      k := NoChangeUnaccounted(m, front, n);
      assert front[..k] == turns[..k] && front[..k + 1] == turns[..k + 1];
    }
    EveryChangeIsAudited(m, turns, k, n);
  }

  // --- in place ---

  class Server {
    const store: S.Store
    const journal: Journal

    constructor (store: S.Store)
      ensures this.store == store && journal == store.journal
    {
      this.store, journal := store, store.journal;
    }

    predicate Valid()
    {
      store.journal == journal
    }

    method LogAccess(e: Entry, w: World) returns (ok: bool)
      modifies journal
      ensures journal.events == old(journal.events) + [Logged(w, e)] && ok == w.auditWorks
    {
      if w.auditWorks {
        journal.Add(Audited(e));
      } else {
        journal.Add(AuditFailed(e));
      }
      return w.auditWorks;
    }

    method CheckAndLog(who: string, may: Rules, action: Action, name: string, version: Version, w: World)
      returns (err: Option<Error>)
      modifies journal
      ensures journal.events == old(journal.events) + [Logged(w, Entry(who, action, name, version, may(action, name)))]
      ensures err == Refusal(w, may(action, name))
    {
      var authorized := may(action, name);
      var ok := LogAccess(Entry(who, action, name, version, authorized), w);
      if !authorized {
        return Some(AccessDenied);
      }
      return if ok then None else Some(Other);
    }

    // One read of the store.
    method Peek(name: string, w: World) returns (r: Result<Option<Record>, R.Failure>)
      requires Valid()
      modifies journal
      ensures r == if w.loads(name).Some? then Err(w.loads(name).value) else Ok(Lookup(store.m, name))
      ensures journal.events == old(journal.events) + [Read(name)]
    {
      r := store.Load(name, S.Faults(w.loads(name), None));
    }

    method Fetch(req: Request, w: World) returns (r: Result<Payload, Error>)
      requires Valid() && req.GetSecret?
      modifies journal
      ensures r == Fetched(store.m, req, w)
      ensures journal.events == old(journal.events) + [Read(req.name)]
    {
      var loaded := Peek(req.name, w);
      if loaded.Err? {
        return Err(Trouble(loaded.error));
      }
      if loaded.value.None? {
        return Err(Error.NotFound);
      }
      var record := loaded.value.value;
      if req.version != 0 && !req.ifChanged {
        if req.version !in record.versions {
          return Err(Error.NotFound);
        }
        return Ok(Value(SecretValue(record.versions[req.version], req.version)));
      }
      if record.active !in record.versions {
        return Err(Other);
      }
      if req.version != 0 && record.active == req.version {
        return Err(Error.ValueNotChanged);
      }
      return Ok(Value(SecretValue(record.versions[record.active], record.active)));
    }

    method Get(who: string, may: Rules, req: Request, w: World) returns (r: Result<Payload, Error>)
      requires Valid() && req.GetSecret?
      modifies journal
      ensures journal.events == old(journal.events) + HandleGet(store.m, who, may, req, w).effects
      ensures r == HandleGet(store.m, who, may, req, w).result
    {
      if req.version != 0 && req.ifChanged {
        if !may(MayGet, req.name) {
          var _ := LogAccess(Entry(who, MayGet, req.name, 0, false), w);
          return Err(AccessDenied);
        }
        r := Fetch(req, w);
        if r.Err? {
          return;
        }
        var ok := LogAccess(Entry(who, MayGet, req.name, 0, true), w);
        if !ok {
          return Err(Other);
        }
        return;
      }
      var err := CheckAndLog(who, may, MayGet, req.name, req.version, w);
      if err.Some? {
        return Err(err.value);
      }
      r := Fetch(req, w);
    }

    method Info(who: string, may: Rules, name: string, w: World) returns (r: Result<Payload, Error>)
      requires Valid()
      modifies journal
      ensures journal.events == old(journal.events) + HandleInfo(store.m, who, may, name, w).effects
      ensures r == HandleInfo(store.m, who, may, name, w).result
    {
      var err := CheckAndLog(who, may, MayInfo, name, 0, w);
      if err.Some? {
        return Err(err.value);
      }
      var loaded := Peek(name, w);
      if loaded.Err? {
        return Err(Trouble(loaded.error));
      }
      return if loaded.value.Some? then Ok(Described(S.InfoOf(loaded.value.value))) else Err(Error.NotFound);
    }

    method List(who: string, may: Rules, w: World) returns (r: Result<Payload, Error>)
      requires Valid()
      modifies journal
      ensures journal.events == old(journal.events) + HandleList(store.m, who, may, w).effects
      ensures r == HandleList(store.m, who, may, w).result
    {
      var ok := LogAccess(Entry(who, MayInfo, "", 0, true), w);
      if !ok {
        return Err(Other);
      }
      if w.names.Err? {
        return Err(Trouble(w.names.error));
      }
      var listing := store.List(w.names.value, n => may(MayInfo, n), w.loads);
      return if listing.Ok? then Ok(Listed(listing.value)) else Err(Trouble(listing.error));
    }

    method Mutation(who: string, may: Rules, op: Op, w: World) returns (r: Result<Payload, Error>)
      requires Valid()
      modifies journal, store`m
      ensures var d := HandleMutate(old(store.m), who, may, op, w);
              store.m == d.m && journal.events == old(journal.events) + d.effects && r == d.result
    {
      if op.name == "" && (op.Put? || op.CreateVersion? || op.Activate?) {
        return Err(Other);
      }
      if op.CreateVersion? && op.version == 0 {
        return Err(Error.InvalidVersion);
      }
      var err := CheckAndLog(who, may, ActionFor(op), op.name, VersionFor(op), w);
      if err.Some? {
        return Err(err.value);
      }
      var f := S.Faults(w.loads(op.name), w.write);
      var result: P.Result;
      match op {
        case Put(n, value) => result := store.Put(n, value, f);
        case CreateVersion(n, v, value) => result := store.CreateVersion(n, v, value, f);
        case Activate(n, v) => result := store.Activate(n, v, f);
        case DeleteVersion(n, v) => result := store.DeleteVersion(n, v, f);
        case Delete(n) => result := store.Delete(n, f);
      }
      return ResultOf(result);
    }

    method ServeRequest(a: Arrival, who: string, may: Rules, req: Request, w: World)
      requires Valid()
      modifies journal, store`m
      ensures (store.m, journal.events)
              == (Serve(old(store.m), a, who, may, req, w).0,
                  old(journal.events) + Serve(old(store.m), a, who, may, req, w).1)
    {
      if a != Accepted {
        journal.Add(Responded(TurnedAway(a)));
        return;
      }
      var r: Result<Payload, Error>;
      match req {
        case ListAll => r := List(who, may, w);
        case GetSecret(_, _, _) => r := Get(who, may, req, w);
        case GetInfo(name) => r := Info(who, may, name, w);
        case Mutate(op) => r := Mutation(who, may, op, w);
      }
      ghost var d, last := Handle(old(store.m), who, may, req, w), Responded(Respond(r, w.gone));
      assert old(journal.events) + d.effects + [last] == old(journal.events) + (d.effects + [last]);
      journal.Add(Responded(Respond(r, w.gone)));
    }
  }
}
