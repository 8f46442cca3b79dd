/** Exactly what every request is answered, told from the stored record and the rest of the world
    (server/server.go): one response each, last of all. */
module Replies {
  import opened Wrappers
  import opened Records
  import opened Versions
  import opened Effects
  import opened Server
  import R = ReadCache
  import S = Store

  function ReplyTo(m: Secrets, a: Arrival, who: string, may: Rules, req: Request, w: World): Response {
    var es := Serve(m, a, who, may, req, w).1;
    if es != [] && Last(es).Responded? then Last(es).response else Silence
  }

  // Every request is answered exactly once, after everything else it does.
  lemma OneResponse(m: Secrets, a: Arrival, who: string, may: Rules, req: Request, w: World)
    ensures var es := Serve(m, a, who, may, req, w).1;
            && es != [] && Last(es) == Responded(ReplyTo(m, a, who, may, req, w))
            && forall i | 0 <= i < |es| - 1 :: !es[i].Responded?
  {
    if a == Accepted {
      NothingResponds(m, who, may, req, w);
      var es, effects := Serve(m, a, who, may, req, w).1, Handle(m, who, may, req, w).effects;
      assert forall i | 0 <= i < |es| - 1 :: es[i] == effects[i];
    }
  }

  lemma {:induction false} ReadsDoNotRespond(s: S.Scene, names: seq<string>)
    ensures forall e | e in S.ListReads(s, names) :: e.Read?
  {
    if names != [] {
      ReadsDoNotRespond(s, names[1..]);
    }
  }

  lemma NothingResponds(m: Secrets, who: string, may: Rules, req: Request, w: World)
    ensures forall e | e in Handle(m, who, may, req, w).effects :: !e.Responded?
  {
    if req.ListAll? && w.names.Ok? {
      ReadsDoNotRespond(S.Scene(m, n => may(MayInfo, n), w.loads), S.Sort(w.names.value));
    }
  }

  // A request that is not accepted changes nothing, and is told why: a bad form 400, a browser 403, no identity
  // yet 503, none to be had 500; a caller that has gone nothing.
  lemma TurnedAwayIs(m: Secrets, a: Arrival, who: string, may: Rules, req: Request, w: World)
    ensures a != Accepted ==>
              var r := ReplyTo(m, a, who, may, req, w);
              && Serve(m, a, who, may, req, w) == (m, [Responded(r)])
              && (r == Status(400) <==> a == NotPost || a == NotJson || a == BadBody)
              && (r == Status(403) <==> a == FromBrowser)
              && (r == Status(503) <==> a == NoIdentityYet)
              && (r == Status(500) <==> a == Unidentified)
              && (r == Silence <==> a == CallerGone)
  {}

  // --- rights and audit entries ---

  // The right each mutation needs: the deletion of a version takes the same one as that of a secret.
  lemma RightsAre(op: Op)
    ensures ActionFor(op) ==
            if op.Put? then MayPut
            else if op.CreateVersion? then MayCreateVersion
            else if op.Activate? then MayActivate
            else MayDelete
  {}

  // An audit entry, or the attempt at one.
  predicate Attempts(e: Effect) {
    e.Audited? || e.AuditFailed?
  }

  // The one entry that is attempted, and that it is written exactly if the audit log works.
  ghost predicate OneEntry(es: seq<Effect>, w: World, entry: Entry) {
    && (exists i | 0 <= i < |es| :: es[i] == if w.auditWorks then Audited(entry) else AuditFailed(entry))
    && (forall i, j | 0 <= i < j < |es| :: !(Attempts(es[i]) && Attempts(es[j])))
  }

  // A mutation that is not turned down for its form attempts one entry: who asked for what, of which version, and
  // whether they may.
  lemma MutationEntryIs(m: Secrets, who: string, may: Rules, op: Op, w: World)
    ensures var es := Serve(m, Accepted, who, may, Mutate(op), w).1;
            if Misnamed(op) || ZeroCreate(op) then forall e | e in es :: !Attempts(e)
            else
              var action := if op.Put? then MayPut else if op.CreateVersion? then MayCreateVersion
                            else if op.Activate? then MayActivate else MayDelete;
              var version := if op.Put? || op.Delete? then 0 else op.version;
              OneEntry(es, w, Entry(who, action, op.name, version, may(action, op.name)))
  {
    var es, d := Serve(m, Accepted, who, may, Mutate(op), w).1, HandleMutate(m, who, may, op, w);
    assert Handle(m, who, may, Mutate(op), w) == d;
    if !Misnamed(op) && !ZeroCreate(op) {
      assert Attempts(es[0]);
      assert forall i | 1 <= i < |es| :: !Attempts(es[i]);
    }
  }

  // So does every get, except that a conditional one which is allowed records only a fresh value; every info; and
  // every listing, as a listing.
  lemma ReadEntryIs(m: Secrets, who: string, may: Rules, req: Request, w: World)
    requires !req.Mutate?
    ensures var es := Serve(m, Accepted, who, may, req, w).1;
            match req
            case GetSecret(n, v, _) =>
              if Conditional(req) && may(MayGet, n) && !Fresh(m, req, w) then forall e | e in es :: !Attempts(e)
              else OneEntry(es, w, Entry(who, MayGet, n, if Conditional(req) then 0 else v, may(MayGet, n)))
            case GetInfo(n) => OneEntry(es, w, Entry(who, MayInfo, n, 0, may(MayInfo, n)))
            case ListAll => OneEntry(es, w, Entry(who, MayInfo, "", 0, true))
  {
    var es := Serve(m, Accepted, who, may, req, w).1;
    match req
    case GetSecret(_, _, _) =>
      assert Handle(m, who, may, req, w) == HandleGet(m, who, may, req, w);
      assert |es| <= 3;
      if Conditional(req) && may(MayGet, req.name) && Fresh(m, req, w) {
        assert Attempts(es[1]);
      } else {
        assert !Conditional(req) || !may(MayGet, req.name) ==> Attempts(es[0]);
      }
    case GetInfo(_) => assert Attempts(es[0]);
    case ListAll =>
      assert Attempts(es[0]);
      ListAttemptsOnce(m, who, may, w);
  }

  lemma ListAttemptsOnce(m: Secrets, who: string, may: Rules, w: World)
    ensures var es := Serve(m, Accepted, who, may, ListAll, w).1; forall i | 1 <= i < |es| :: !Attempts(es[i])
  {
    if w.names.Ok? {
      var scene := S.Scene(m, n => may(MayInfo, n), w.loads);
      var listed := S.ListReads(scene, S.Sort(w.names.value));
      ReadsDoNotRespond(scene, S.Sort(w.names.value));
      var es := Serve(m, Accepted, who, may, ListAll, w).1;
      assert forall i | 1 <= i < |es| - 1 :: w.auditWorks ==> es[i] == listed[i - 1] && listed[i - 1] in listed;
    }
  }

  // A value the caller lacks is there to be read.
  predicate Fresh(m: Secrets, req: Request, w: World)
    requires req.GetSecret?
  {
    && w.loads(req.name).None? && req.name in m && m[req.name].active != req.version
    && ValueOf(m, req.name, m[req.name].active).Some?
  }

  // --- get ---

  predicate Conditional(req: Request) {
    req.GetSecret? && req.version != 0 && req.ifChanged
  }

  // The caller may, and where an entry must come first it could be written.
  predicate MayRead(req: Request, may: Rules, w: World)
    requires req.GetSecret?
  {
    may(MayGet, req.name) && (Conditional(req) || w.auditWorks)
  }

  // The version a get is about: the one asked for, or the active one.
  function Wanted(m: Secrets, req: Request): Version
    requires req.GetSecret? && req.name in m
  {
    if req.version == 0 || req.ifChanged then m[req.name].active else req.version
  }

  // A get that may read is answered from the record alone: the wanted version's bytes, unless the caller has that
  // version already; not found when the secret, or the version asked for, is absent.
  lemma GetIsAnswered(m: Secrets, who: string, may: Rules, req: Request, w: World)
    requires req.GetSecret?
    ensures var r, n := ReplyTo(m, Accepted, who, may, req, w), req.name;
            var served := MayRead(req, may, w) && w.loads(n).None?;
            && (forall v, b :: r == Sent(Value(SecretValue(b, v))) <==>
                  && served && w.auditWorks && !w.gone && n in m && v == Wanted(m, req) && ValueOf(m, n, v) == Some(b)
                  && (Conditional(req) ==> v != req.version))
            && (r == NotModified <==>
                  served && Conditional(req) && n in m && m[n].active == req.version && ValueOf(m, n, req.version).Some?)
            && (r == Status(404) <==>
                  served && (n !in m || (!Conditional(req) && req.version != 0 && ValueOf(m, n, req.version).None?)))
  {
    assert Handle(m, who, may, req, w) == HandleGet(m, who, may, req, w);
  }

  // The active version of the secret has no bytes, which no well-formed record allows.
  predicate Valueless(m: Secrets, req: Request)
    requires req.GetSecret?
  {
    (req.version == 0 || req.ifChanged) && req.name in m && ValueOf(m, req.name, m[req.name].active).None?
  }

  // A fresh value is found for a conditional get, whose entry then cannot be written.
  predicate Unrecorded(m: Secrets, req: Request, w: World)
    requires req.GetSecret?
  {
    Conditional(req) && !w.auditWorks && Fresh(m, req, w)
  }

  // When a get ends in a failure of the service.
  lemma GetFailsIff(m: Secrets, who: string, may: Rules, req: Request, w: World)
    requires req.GetSecret?
    ensures var r, n := ReplyTo(m, Accepted, who, may, req, w), req.name;
            var served, allowed := MayRead(req, may, w), may(MayGet, n);
            && (r == Status(403) <==> !allowed)
            && (r == Status(503) <==> !w.gone && served && w.loads(n) == Some(R.Unavailable))
            && (r == Status(500) <==>
                  && !w.gone && allowed
                  && (!served || w.loads(n) == Some(R.Broken) || (w.loads(n).None? && Valueless(m, req))
                      || Unrecorded(m, req, w)))
            && r != Status(400) && r != Status(412)
            && (w.gone ==> r == Silence || r == Status(403) || r == Status(404) || r == NotModified)
            && (!w.gone ==> r != Silence)
  {
    assert Handle(m, who, may, req, w) == HandleGet(m, who, may, req, w);
  }

  // --- info and list ---

  // A secret's info is its name, its active version and its live versions in increasing order.
  lemma InfoIsAnswered(m: Secrets, who: string, may: Rules, n: string, w: World)
    ensures var r := ReplyTo(m, Accepted, who, may, GetInfo(n), w);
            var allowed := may(MayInfo, n);
            var served := allowed && w.auditWorks;
            && (r.Sent? <==> served && w.loads(n).None? && n in m && !w.gone)
            && (r.Sent? ==> r.body.Described? && S.Describes(r.body.info, m[n]))
            && (r == Status(403) <==> !allowed)
            && (r == Status(404) <==> served && w.loads(n).None? && n !in m)
            && (r == Status(503) <==> !w.gone && served && w.loads(n) == Some(R.Unavailable))
            && (r == Status(500) <==> !w.gone && allowed && (!w.auditWorks || w.loads(n) == Some(R.Broken)))
            && (!w.gone ==> r != Silence)
  {
    assert Handle(m, who, may, GetInfo(n), w) == HandleInfo(m, who, may, n, w);
    if n in m {
      S.InfoDescribes(m[n]);
    }
  }

  // A name the caller may see that the backend cannot say anything about for now.
  predicate Outage(may: Rules, w: World, n: string) {
    may(MayInfo, n) && w.loads(n) == Some(R.Unavailable)
  }

  // A listing describes exactly the visible secrets in order of their names, unless the backend cannot list or a
  // name the caller may see is unavailable.
  lemma ListIsAnswered(m: Secrets, who: string, may: Rules, w: World)
    ensures var r := ReplyTo(m, Accepted, who, may, ListAll, w);
            var fails := w.names.Ok? && exists n :: n in w.names.value && Outage(may, w, n);
            && (r.Sent? <==> w.auditWorks && w.names.Ok? && !fails && !w.gone)
            && (r.Sent? ==>
                  var scene := S.Scene(m, n => may(MayInfo, n), w.loads);
                  && r.body.Listed? && S.Sorted(S.Sort(w.names.value))
                  && multiset(S.Sort(w.names.value)) == multiset(w.names.value)
                  && S.Shows(scene, S.VisibleNames(scene, S.Sort(w.names.value)), r.body.infos))
            && (r == Status(503) <==> !w.gone && w.auditWorks && (w.names == Err(R.Unavailable) || fails))
            && (r == Status(500) <==> !w.gone && (!w.auditWorks || w.names == Err(R.Broken)))
            && (r == Silence <==> w.gone)
  {
    assert Handle(m, who, may, ListAll, w) == HandleList(m, who, may, w);
    if w.names.Ok? {
      var scene := S.Scene(m, n => may(MayInfo, n), w.loads);
      S.ListingIsStored(scene, w.names.value);
      if n :| n in w.names.value && Outage(may, w, n) {
        assert scene.allow(n) && scene.loads(n) == Some(R.Unavailable);
      }
      if n :| n in w.names.value && scene.allow(n) && scene.loads(n) == Some(R.Unavailable) {
        assert Outage(may, w, n);
      }
    }
  }

  // --- mutations ---

  // Turned down before anybody asks whether the caller may: no name, or version 0 to create.
  predicate Misnamed(op: Op) {
    op.name == "" && (op.Put? || op.CreateVersion? || op.Activate?)
  }

  predicate ZeroCreate(op: Op) {
    op.CreateVersion? && op.version == 0
  }

  // Turned down before the record is loaded.
  predicate Barred(op: Op) {
    || (!op.CreateVersion? && CONFIG_PREFIX <= op.name)
    || ((op.Activate? || op.DeleteVersion?) && op.version == 0)
  }

  predicate InUse(m: Secrets, op: Op) {
    op.DeleteVersion? && op.name in m && m[op.name].active == op.version
  }

  predicate NotThere(m: Secrets, op: Op) {
    (op.Activate? || op.DeleteVersion?) && ValueOf(m, op.name, op.version).None? && !InUse(m, op)
  }

  predicate Taken(m: Secrets, op: Op) {
    op.CreateVersion? && Given(m, op.name, op.version)
  }

  // The store stands already as the request wants it.
  predicate Idle(m: Secrets, op: Op) {
    || (op.Put? && op.name in m && ValueOf(m, op.name, m[op.name].latest) == Some(op.value))
    || (op.Activate? && op.name in m && m[op.name].active == op.version)
  }

  // The handler gets as far as the store's rules.
  predicate Proceeds(may: Rules, op: Op, w: World) {
    !Misnamed(op) && !ZeroCreate(op) && may(ActionFor(op), op.name) && w.auditWorks && !Barred(op)
  }

  predicate Readable(op: Op, w: World) {
    op.Delete? || w.loads(op.name).None?
  }

  predicate Refusable(m: Secrets, op: Op) {
    NotThere(m, op) || InUse(m, op) || Taken(m, op)
  }

  // The rules ask for a backend write.
  predicate Writes(m: Secrets, may: Rules, op: Op, w: World) {
    Proceeds(may, op, w) && Readable(op, w) && !Refusable(m, op) && !Idle(m, op)
  }

  predicate Succeeds(m: Secrets, may: Rules, op: Op, w: World) {
    Proceeds(may, op, w) && Readable(op, w) && !Refusable(m, op) && (Idle(m, op) || w.write.None?)
  }

  // The store after a mutation is as Versions says, exactly when it may go ahead, its record loads, the rules
  // allow it, and the write it needs, if any, works; otherwise it is as before.
  lemma MutationLeaves(m: Secrets, who: string, may: Rules, op: Op, w: World)
    ensures Serve(m, Accepted, who, may, Mutate(op), w).0 == if Succeeds(m, may, op, w) then Exec(m, op).0 else m
  {
    assert Handle(m, who, may, Mutate(op), w) == HandleMutate(m, who, may, op, w);
  }

  lemma RulesAllowIff(m: Secrets, who: string, may: Rules, op: Op, w: World)
    ensures var result := HandleMutate(m, who, may, op, w).result;
            && (result.Ok? <==> Succeeds(m, may, op, w))
            && (result.Ok? ==> result.value == if op.Put? then Number(Exec(m, op).1.version) else Empty)
  {}

  // And exactly then it is acknowledged, if the caller is still there.
  lemma MutationIsAcknowledged(m: Secrets, who: string, may: Rules, op: Op, w: World)
    ensures var r := ReplyTo(m, Accepted, who, may, Mutate(op), w);
            && (r.Sent? <==> Succeeds(m, may, op, w) && !w.gone)
            && (r.Sent? ==> r == Sent(if op.Put? then Number(Exec(m, op).1.version) else Empty))
  {
    RulesAllowIff(m, who, may, op, w);
    assert Handle(m, who, may, Mutate(op), w) == HandleMutate(m, who, may, op, w);
  }

  // A Put is told the version under which its value now reads back, the latest; every other mutation nothing.
  lemma MutationIsAnswered(m: Secrets, who: string, may: Rules, op: Op, w: World)
    ensures var r := ReplyTo(m, Accepted, who, may, Mutate(op), w);
            var m' := Serve(m, Accepted, who, may, Mutate(op), w).0;
            && (r.Sent? <==> Succeeds(m, may, op, w) && !w.gone)
            && (r.Sent? && op.Put? ==>
                  && r.body.Number? && ValueOf(m', op.name, r.body.v) == Some(op.value)
                  && op.name in m' && m'[op.name].latest == r.body.v)
            && (r.Sent? && !op.Put? ==> r == Sent(Empty))
  {
    MutationIsAcknowledged(m, who, may, op, w);
    MutationLeaves(m, who, may, op, w);
    if op.Put? {
      PutLeaves(m, op.name, op.value);
      PutIsReadable(m, op.name, op.value);
    }
  }

  // What a mutation is answered otherwise: turned down for its form or for the caller's rights,
  lemma MutationIsTurnedDown(m: Secrets, who: string, may: Rules, op: Op, w: World)
    ensures var r := ReplyTo(m, Accepted, who, may, Mutate(op), w);
            && (r == Status(400) <==> !Misnamed(op) && ZeroCreate(op))
            && (r == Status(403) <==> !Misnamed(op) && !ZeroCreate(op) && !may(ActionFor(op), op.name))
            && r != NotModified
  {
    assert Handle(m, who, may, Mutate(op), w) == HandleMutate(m, who, may, op, w);
  }

  // or refused by the version rules; and silence is for callers that have gone.
  lemma MutationFailsIff(m: Secrets, who: string, may: Rules, op: Op, w: World)
    ensures var r := ReplyTo(m, Accepted, who, may, Mutate(op), w);
            && (r == Status(404) <==> Proceeds(may, op, w) && Readable(op, w) && NotThere(m, op))
            && (r == Status(412) <==> Proceeds(may, op, w) && Readable(op, w) && Taken(m, op))
            && (w.gone ==> r == Silence || r == Status(400) || r == Status(403) || r == Status(404) || r == Status(412))
            && (!w.gone ==> r != Silence)
  {
    assert Handle(m, who, may, Mutate(op), w) == HandleMutate(m, who, may, op, w);
  }

  // When a mutation ends in a failure of the service: 503 for an outage, 500 for everything else.
  lemma MutationTroubleIff(m: Secrets, who: string, may: Rules, op: Op, w: World)
    ensures var r := ReplyTo(m, Accepted, who, may, Mutate(op), w);
            var valid := !Misnamed(op) && !ZeroCreate(op) && may(ActionFor(op), op.name);
            && (r == Status(503) <==>
                  && !w.gone && Proceeds(may, op, w)
                  && ((!op.Delete? && w.loads(op.name) == Some(R.Unavailable))
                      || (Writes(m, may, op, w) && w.write == Some(R.Unavailable))))
            && (r == Status(500) <==>
                  && !w.gone
                  && (Misnamed(op) || (valid && (!w.auditWorks || Barred(op)))
                      || (Proceeds(may, op, w) && !op.Delete? && w.loads(op.name) == Some(R.Broken))
                      || (Proceeds(may, op, w) && Readable(op, w) && InUse(m, op))
                      || (Writes(m, may, op, w) && w.write == Some(R.Broken))))
  {
    assert Handle(m, who, may, Mutate(op), w) == HandleMutate(m, who, may, op, w);
  }
}
