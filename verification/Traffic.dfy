/** The 1Password backend under many callers at once (backend/onepassword/onepassword.go): Loads and listings run
    beside one another and beside the one write the store lets through, sharing the title memo. Each read or
    write of the memo, under its mutex, and each call into the SDK is one step. */
module Traffic {
  import opened Wrappers
  import opened Records
  import opened Vault
  import opened VaultLaws
  import Meta

  // What an operation answers.
  datatype Out = Read(record: Result<RawRecord,
                      Error>) | Wrote(error: Option<Error>) | Named(names: Result<seq<string>, Error>)

  // A Get that failed.
  datatype Tried = Tried(id: ItemId, error: CallError)

  // Looking: about to look in the memo. Asking: about to list the vault, after a failed Get, if any. Noting: the
  // listing is back, the memo is to be rebuilt from it. Fetching: about to Get an item, for the last time or
  // not. Forgetting: a Get failed, the memo's entry is to go. Making, Writing, Removing: about to create, to
  // write back the item fetched, to delete. Learning, Unlearning: the memo is to learn of it.
  datatype Pc =
    | Looking
    | Asking(tried: Option<Tried>)
    | Noting(listed: seq<Item>, tried: Option<Tried>)
    | Fetching(id: ItemId, last: bool)
    | Forgetting(failed: Tried)
    | Making | Learning(id: ItemId)
    | Writing(item: Item)
    | Removing(id: ItemId) | Unlearning
    | Ended(out: Out)

  datatype Thread = Thread(op: Act, pc: Pc)

  // past: the vault's contents so far, one more for each mutating call. since and until: how many of those calls
  // had been made when an operation began, and when it ended. No step reads these three.
  datatype System = System(v: State, threads: map<nat, Thread>, past: seq<seq<Item>>, since: map<nat, nat>,
                           until: map<nat, nat>)

  datatype Step =
    | Begin(id: nat, op: Act)
    | LookUp(id: nat) | CallList(id: nat, verdict: Verdict) | Note(id: nat)
    | CallGet(id: nat, verdict: Verdict) | Forget(id: nat)
    | CallCreate(id: nat, verdict: Verdict) | Learn(id: nat)
    | CallPut(id: nat, verdict: Verdict)
    | CallDelete(id: nat, verdict: Verdict) | Unlearn(id: nat)

  predicate Mutates(op: Act) {
    op.Saving? || op.Deleting?
  }

  function NameOf(op: Act): string {
    if op.Listing? then "" else op.name
  }

  // A write under way.
  predicate Busy(th: Thread) {
    Mutates(th.op) && !th.pc.Ended?
  }

  // The step is one the operation stands before.
  predicate Ready(th: Thread, step: Step) {
    match step
    case Begin(_, _) => false
    case LookUp(_) => th.pc.Looking?
    case CallList(_, _) => th.pc.Asking?
    case Note(_) => th.pc.Noting?
    case CallGet(_, _) => th.pc.Fetching?
    case Forget(_) => th.pc.Forgetting?
    case CallCreate(_, _) => th.pc.Making? && th.op.Saving?
    case Learn(_) => th.pc.Learning?
    case CallPut(_, _) => th.pc.Writing? && th.op.Saving?
    case CallDelete(_, _) => th.pc.Removing?
    case Unlearn(_) => th.pc.Unlearning?
  }

  // The store lets one write through at a time.
  predicate Enabled(s: System, step: Step) {
    if step.Begin? then
      step.id !in s.threads && (Mutates(step.op) ==> forall i | i in s.threads :: !Busy(s.threads[i]))
    else step.id in s.threads && Ready(s.threads[step.id], step)
  }

  // --- where an operation goes next ---

  function Failing(op: Act, e: Error): Pc {
    match op
    case Loading(_) => Ended(Read(Err(e)))
    case Listing => Ended(Named(Err(e)))
    case _ => Ended(Wrote(Some(e)))
  }

  // A Save is turned away before it looks anything up.
  function First(op: Act): Pc {
    match op
    case Listing => Asking(None)
    case Saving(_, name, r) =>
      if name == "" then Failing(op, EmptyName)
      else if Meta.Encode(r).Err? then Failing(op, BadMeta(Meta.Encode(r).error))
      else if |MetaText(r)| > META_MAX_BYTES then Failing(op, TooLarge)
      else Looking
    case _ => Looking
  }

  // The name has no item.
  function Absent(op: Act): Pc {
    match op
    case Loading(_) => Ended(Read(Err(NotFound)))
    case Saving(_, _, _) => Making
    case Deleting(_) => Ended(Wrote(None))
    case Listing => Asking(None)
  }

  function Present(op: Act, id: ItemId): Pc {
    if op.Deleting? then Removing(id) else Fetching(id, false)
  }

  function Looked(op: Act, ids: map<string, ItemId>): Pc {
    if NameOf(op) == "" then Absent(op)
    else if NameOf(op) in ids then Present(op, ids[NameOf(op)])
    else Asking(None)
  }

  // A listing failed, or showed several items with the title. A Save that listed after a failed Get reports
  // that Get.
  function Unresolved(op: Act, tried: Option<Tried>, e: Error): Pc {
    if op.Saving? && tried.Some? then Failing(op, CallFailed(tried.value.error)) else Failing(op, e)
  }

  function TitleList(items: seq<Item>): seq<string> {
    seq(|items|, i requires 0 <= i < |items| => items[i].title)
  }

  function Resolved(op: Act, listed: seq<Item>, tried: Option<Tried>): Pc {
    var n := Count(listed, NameOf(op));
    if op.Listing? then Ended(Named(Ok(TitleList(listed))))
    else if n > 1 then Unresolved(op, tried, Duplicate)
    else if n == 0 then Absent(op)
    else
      var id := Titled(listed, NameOf(op)).id;
      if tried.None? then Present(op, id)
      else if op.Loading? && id != tried.value.id then Fetching(id, true)
      else Failing(op, CallFailed(tried.value.error))
  }

  function Gotten(op: Act, item: Result<Item, Error>, id: ItemId, last: bool): Pc {
    match item
    case Ok(x) => if op.Loading? then Ended(Read(FromFields(op.name, x.fields))) else Writing(x)
    case Err(e) =>
      if e.CallFailed? && !last then Forgetting(Tried(id, e.error)) else Failing(op, e)
  }

  // --- what the mutating calls do ---

  function NewFields(op: Act): seq<Field>
    requires op.Saving?
  {
    Managed(op.human, MetaText(op.record))
  }

  function Merged(op: Act, x: Item): Item
    requires op.Saving?
  {
    x.(fields := Foreign(x.fields) + NewFields(op))
  }

  function Deleted(s: State, verdict: Verdict, id: ItemId): (Option<Error>, State) {
    var gone := Called(s).(items := Drop(s.items, id));
    match verdict
    case Works => (if Holds(s.items, id) then None else Some(CallFailed(Unavailable)), gone)
    case Fails(e, applied) => (Some(CallFailed(e)), if applied then gone else Called(s))
  }

  predicate IsMutation(step: Step) {
    step.CallCreate? || step.CallPut? || step.CallDelete?
  }

  // The error a mutating call reports, and the vault it leaves; the memo learns later.
  function Mutated(v: State, th: Thread, step: Step): (Option<Error>, State)
    requires Ready(th, step) && IsMutation(step)
  {
    match step
    case CallCreate(_, verdict) =>
      var (err, t) := Created(v, _ => verdict, NameOf(th.op), NewFields(th.op));
      (err, t.(ids := v.ids))
    case CallPut(_, verdict) => Updated(v, _ => verdict, Merged(th.op, th.pc.item))
    case CallDelete(_, verdict) => Deleted(v, verdict, th.pc.id)
  }

  function Settled(v: State, th: Thread, step: Step): Pc
    requires Ready(th, step) && IsMutation(step)
  {
    var err := Mutated(v, th, step).0;
    if err.Some? || step.CallPut? then Ended(Wrote(err))
    else if step.CallCreate? then Learning(v.next)
    else Unlearning
  }

  function PcAfter(v: State, th: Thread, step: Step): Pc
    requires Ready(th, step) && !IsMutation(step)
  {
    var Thread(op, pc) := th;
    match step
    case LookUp(_) => Looked(op, v.ids)
    case CallList(_, verdict) =>
      (match verdict
       case Works => Noting(v.items, pc.tried)
       case Fails(e, _) => Unresolved(op, pc.tried, CallFailed(e)))
    case Note(_) => Resolved(op, pc.listed, pc.tried)
    case CallGet(_, verdict) => Gotten(op, Got(v, _ => verdict, pc.id).0, pc.id, pc.last)
    case Forget(_) => Asking(Some(pc.failed))
    case Learn(_) => Ended(Wrote(None))
    case Unlearn(_) => Ended(Wrote(None))
  }

  // A step that is no mutating call leaves the items alone.
  function MemoAfter(v: State, th: Thread, step: Step): State
    requires Ready(th, step) && !IsMutation(step)
  {
    match step
    case LookUp(_) => v
    case CallList(_, _) => Called(v)
    case Note(_) => v.(ids := MemoOf(th.pc.listed))
    case CallGet(_, _) => Called(v)
    case Forget(_) => Forgot(v, NameOf(th.op))
    case Learn(_) => v.(ids := v.ids[NameOf(th.op) := th.pc.id])
    case Unlearn(_) => Forgot(v, NameOf(th.op))
  }

  function Moved(s: System, id: nat, th: Thread): System {
    s.(threads := s.threads[id := th], until := if th.pc.Ended? then s.until[id := |s.past|] else s.until)
  }

  function Next(s: System, step: Step): System
    requires Enabled(s, step)
  {
    if step.Begin? then
      Moved(s.(since := s.since[step.id := |s.past|]), step.id, Thread(step.op, First(step.op)))
    else
      var th := s.threads[step.id];
      if IsMutation(step) then
        var v := Mutated(s.v, th, step).1;
        Moved(s.(v := v, past := s.past + [v.items]), step.id, th.(pc := Settled(s.v, th, step)))
      else Moved(s.(v := MemoAfter(s.v, th, step)), step.id, th.(pc := PcAfter(s.v, th, step)))
  }

  // The vault a mutating call leaves.
  function VaultLeft(s: System, step: Step): State
    requires Enabled(s, step) && IsMutation(step)
  {
    Mutated(s.v, s.threads[step.id], step).1
  }

  function Start(v: State): System {
    System(v, map[], [v.items], map[], map[])
  }

  predicate Possible(s: System, steps: seq<Step>)
    decreases |steps|
  {
    steps == [] || (Enabled(s, steps[0]) && Possible(Next(s, steps[0]), steps[1..]))
  }

  function Run(s: System, steps: seq<Step>): System
    requires Possible(s, steps)
    decreases |steps|
  {
    if steps == [] then s else Run(Next(s, steps[0]), steps[1..])
  }

  // --- what every run keeps, from any vault and any memo ---

  // Each place belongs to its operations, and past the first look the name is not empty.
  predicate PcFits(th: Thread) {
    var Thread(op, pc) := th;
    && (!pc.Looking? && !pc.Ended? && !op.Listing? ==> NameOf(op) != "")
    && (op.Saving? && !pc.Ended? ==> op.name != "" && Meta.Consistent(op.record))
    && match pc
       case Looking => !op.Listing?
       case Asking(tried) => tried.Some? ==> op.Loading? || op.Saving?
       case Noting(_, tried) => tried.Some? ==> op.Loading? || op.Saving?
       case Fetching(_, _) => op.Loading? || op.Saving?
       case Forgetting(_) => op.Loading? || op.Saving?
       case Removing(_) => op.Deleting?
       case Unlearning => op.Deleting?
       case Ended(out) => (op.Loading? <==> out.Read?) && (op.Listing? <==> out.Named?)
       case _ => op.Saving?
  }

  // What the write under way has learned about the vault still holds, since nobody else writes.
  predicate WriterFits(v: State, th: Thread) {
    match th.pc
    case Noting(listed, _) => listed == v.items
    case Making => Count(v.items, NameOf(th.op)) == 0
    case Writing(x) => x in v.items
    case _ => true
  }

  predicate OneWriter(s: System) {
    forall a, b | a in s.threads && b in s.threads :: Busy(s.threads[a]) && Busy(s.threads[b]) ==> a == b
  }

  predicate ThreadsFit(s: System) {
    forall id | id in s.threads :: PcFits(s.threads[id]) && (Busy(s.threads[id]) ==> WriterFits(s.v, s.threads[id]))
  }

  predicate Base(s: System) {
    Issued(s.v) && OneWriter(s) && ThreadsFit(s)
  }

  // The effect is the vault's step to t, and one that the thread's mutating call may have.
  predicate Causes(v: State, th: Thread, e: Effect, t: State) {
    && Fits(v, e) && t.items == Apply(v, e) && t.next == v.next + (if e.New? then 1 else 0) && t.ids == v.ids
    && match e
       case Nothing => true
       case New(x) => th.op.Saving? && x == Item(v.next, NameOf(th.op), NewFields(th.op))
       case Replaced(i, fields) =>
         && th.op.Saving? && th.pc.Writing? && v.items[i] == th.pc.item
         && fields == Foreign(v.items[i].fields) + NewFields(th.op)
       case Gone(i) => th.op.Deleting? && th.pc.Removing? && v.items[i].id == th.pc.id
  }

  lemma CreateCauses(v: State, th: Thread, o: Oracle) returns (e: Effect)
    requires th.op.Saving? && Count(v.items, NameOf(th.op)) == 0
    ensures var (err, t) := Created(v, o, NameOf(th.op), NewFields(th.op));
            Causes(v, th, e, t.(ids := v.ids)) && (err.None? ==> e != Nothing)
  {
    e := CreatedEffect(v, v, o, NameOf(th.op), NewFields(th.op));
  }

  lemma PutCauses(v: State, th: Thread, o: Oracle) returns (e: Effect)
    requires DistinctIds(v.items) && th.op.Saving? && th.pc.Writing? && th.pc.item in v.items
    ensures var (err, t) := Updated(v, o, Merged(th.op, th.pc.item));
            Causes(v, th, e, t) && (err.None? ==> e != Nothing)
  {
    e := UpdatedEffect(v, v, o, NameOf(th.op), th.pc.item, Merged(th.op, th.pc.item).fields);
  }

  lemma DeleteCauses(v: State, th: Thread, verdict: Verdict) returns (e: Effect)
    requires DistinctIds(v.items) && th.op.Deleting? && th.pc.Removing?
    ensures var (err, t) := Deleted(v, verdict, th.pc.id);
            Causes(v, th, e, t) && (err.None? ==> e != Nothing)
  {
    if verdict.Works? || verdict.applied {
      e := DropEffect(v, th.pc.id);
    } else {
      e := Nothing;
    }
  }

  // What a mutating call does to the vault, and when it reports success.
  lemma MutationEffect(s: System, step: Step) returns (e: Effect)
    requires Base(s) && Enabled(s, step) && IsMutation(step)
    ensures Causes(s.v, s.threads[step.id], e, VaultLeft(s, step))
    ensures Mutated(s.v, s.threads[step.id], step).0.None? ==> e != Nothing
  {
    var th := s.threads[step.id];
    assert PcFits(th) && Busy(th);
    match step
    case CallCreate(_, verdict) => e := CreateCauses(s.v, th, _ => verdict);
    case CallPut(_, verdict) => e := PutCauses(s.v, th, _ => verdict);
    case CallDelete(_, verdict) => e := DeleteCauses(s.v, th, verdict);
  }

  lemma FirstFits(op: Act)
    ensures PcFits(Thread(op, First(op)))
  {}

  lemma MoveFits(s: System, step: Step)
    requires Base(s) && Enabled(s, step) && !step.Begin? && !IsMutation(step)
    ensures var th := s.threads[step.id].(pc := PcAfter(s.v, s.threads[step.id], step));
            PcFits(th) && (Busy(th) ==> Busy(s.threads[step.id]) && WriterFits(s.v, th))
  {
    assert PcFits(s.threads[step.id]);
  }

  lemma MutationFits(s: System, step: Step)
    requires Base(s) && Enabled(s, step) && IsMutation(step)
    ensures var th := s.threads[step.id].(pc := Settled(s.v, s.threads[step.id], step));
            PcFits(th) && WriterFits(VaultLeft(s, step), th)
    ensures Busy(s.threads[step.id])
  {
    assert PcFits(s.threads[step.id]);
  }

  lemma BeginKeepsBase(s: System, step: Step)
    requires Base(s) && Enabled(s, step) && step.Begin?
    ensures Base(Next(s, step))
  {
    FirstFits(step.op);
  }

  lemma MovedKeepsBase(s: System, t: System, id: nat)
    requires Base(s) && id in s.threads && t.v.items == s.v.items && t.v.next == s.v.next
    requires t.threads.Keys == s.threads.Keys && forall i | i in s.threads && i != id :: t.threads[i] == s.threads[i]
    requires PcFits(t.threads[id])
    requires Busy(t.threads[id]) ==> Busy(s.threads[id]) && WriterFits(s.v, t.threads[id])
    ensures Base(t)
  {
    assert forall i | i in t.threads :: Busy(t.threads[i]) ==> Busy(s.threads[i]);
  }

  lemma MoveKeepsBase(s: System, step: Step)
    requires Base(s) && Enabled(s, step) && !step.Begin? && !IsMutation(step)
    ensures Base(Next(s, step))
  {
    MoveFits(s, step);
    MovedKeepsBase(s, Next(s, step), step.id);
  }

  lemma MutationKeepsBase(s: System, step: Step)
    requires Base(s) && Enabled(s, step) && IsMutation(step)
    ensures Base(Next(s, step))
  {
    var e := MutationEffect(s, step);
    MutationFits(s, step);
    EffectKeepsIds(s.v, e);
  }

  lemma StepKeepsBase(s: System, step: Step)
    requires Base(s) && Enabled(s, step)
    ensures Base(Next(s, step))
  {
    if step.Begin? {
      BeginKeepsBase(s, step);
    } else if IsMutation(step) {
      MutationKeepsBase(s, step);
    } else {
      MoveKeepsBase(s, step);
    }
  }

  lemma StepCounts(s: System, step: Step, title: string)
    requires Base(s) && Enabled(s, step)
    ensures Count(Next(s, step).v.items, title) <= AtLeastOne(Count(s.v.items, title))
  {
    if IsMutation(step) {
      var e := MutationEffect(s, step);
      EffectCounts(s.v, e, title);
    }
  }

  lemma {:induction false} RunCounts(s: System, steps: seq<Step>, title: string)
    requires Base(s) && Possible(s, steps)
    ensures Count(Run(s, steps).v.items, title) <= AtLeastOne(Count(s.v.items, title))
    decreases |steps|
  {
    if steps != [] {
      StepKeepsBase(s, steps[0]);
      StepCounts(s, steps[0], title);
      RunCounts(Next(s, steps[0]), steps[1..], title);
    }
  }

  // For any vault and any memo, and however Loads, listings and the write under way interleave on the memo and
  // whatever fails, no run ever makes another item with an existing title.
  lemma NeverDuplicatesShared(v: State, steps: seq<Step>, title: string)
    requires Issued(v) && Possible(Start(v), steps)
    ensures Count(Run(Start(v), steps).v.items, title) <= AtLeastOne(Count(v.items, title))
  {
    RunCounts(Start(v), steps, title);
  }

  // --- what every run keeps from a memo that is not wrong; the vault's titles may be anything ---

  // The ID, if live, is that of an item with this title.
  predicate Right(v: State, name: string, id: ItemId) {
    id < v.next && forall i | 0 <= i < |v.items| :: v.items[i].id == id ==> v.items[i].title == name
  }

  // An earlier vault, as a listing may have shown it: its titles still belong to their IDs.
  predicate Former(v: State, listed: seq<Item>) {
    && DistinctIds(listed)
    && forall i | 0 <= i < |listed| :: Right(v, listed[i].title, listed[i].id)
  }

  ghost predicate PastFits(s: System) {
    && |s.past| > 0 && s.past[|s.past| - 1] == s.v.items
    && forall j | 0 <= j < |s.past| :: Former(s.v, s.past[j])
  }

  // The name's title was not duplicated at first.
  predicate Single(s: System, name: string) {
    s.past == [] || Count(s.past[0], name) <= 1
  }

  // It never is, then.
  ghost predicate SinglesStay(s: System) {
    forall name, j: nat | Single(s, name) && j < |s.past| :: Count(s.past[j], name) <= 1
  }

  // Vault j of the past is one that stood at some moment of the operation.
  predicate During(s: System, id: nat, j: nat) {
    && id in s.since && s.since[id] <= j + 1 && j < |s.past|
    && (id in s.until ==> j < s.until[id])
  }

  // A vault of the past by itself.
  function Bare(items: seq<Item>): State {
    State(items, 0, map[], 0)
  }

  // The write's effect on an earlier vault: no other name's answer changes, and if its own title is not
  // duplicated, the name then answers with what was saved, or not at all.
  ghost predicate Did(op: Act, a: seq<Item>, b: seq<Item>)
    requires Mutates(op)
  {
    && OthersStay(Bare(a), Bare(b), op.name)
    && (Count(a, op.name) <= 1 ==>
          && (op.Saving? && op.record.name == op.name ==> Holding(Bare(a), Bare(b), op.name, op.record))
          && (op.Deleting? ==> Answer(b, op.name) == Err(NotFound)))
  }

  // A read of a title that is not duplicated answers what some vault of its time answers, or reports a failed
  // call.
  ghost predicate ReadTrue(s: System, id: nat, name: string, r: Result<RawRecord, Error>) {
    Single(s, name) ==>
      (r.Err? && r.error.CallFailed?) || exists j: nat :: During(s, id, j) && r == Answer(s.past[j], name)
  }

  ghost predicate NamedTrue(s: System, id: nat, names: Result<seq<string>, Error>) {
    (names.Err? && names.error.CallFailed?) || exists j: nat :: During(s, id, j) && names == Ok(TitleList(s.past[j]))
  }

  // A write makes at most one mutating call, which does what was asked for or nothing; a successful one has done
  // it, but for a Delete of a name that a vault of its time lacked.
  ghost predicate WriteTrue(s: System, id: nat, op: Act, err: Option<Error>)
    requires Mutates(op) && id in s.since && id in s.until
  {
    var a, b := s.since[id], s.until[id];
    && 1 <= a <= b <= a + 1 && b <= |s.past|
    && (b == a + 1 ==> Did(op, s.past[a - 1], s.past[a]) || (err.Some? && s.past[a] == s.past[a - 1]))
    && (b == a && err.None? ==> op.Deleting? && Answer(s.past[a - 1], op.name) == Err(NotFound))
  }

  ghost predicate ThreadTrue(s: System, id: nat)
    requires id in s.threads
  {
    var Thread(op, pc) := s.threads[id];
    && id in s.since && 1 <= s.since[id] <= |s.past|
    && (pc.Ended? <==> id in s.until)
    && match pc
       case Noting(listed, _) => exists j: nat :: During(s, id, j) && s.past[j] == listed
       case Fetching(i, _) => Right(s.v, NameOf(op), i)
       case Removing(i) => Right(s.v, NameOf(op), i)
       case Writing(x) => x.title == NameOf(op)
       case Learning(i) => Right(s.v, NameOf(op), i)
       case Ended(Read(r)) => ReadTrue(s, id, NameOf(op), r)
       case Ended(Named(names)) => NamedTrue(s, id, names)
       case Ended(Wrote(err)) => Mutates(op) && WriteTrue(s, id, op, err)
       case _ => true
  }

  // The write under way has made its mutating call, or nobody has since it began.
  ghost predicate BusyTrue(s: System, id: nat)
    requires id in s.threads && Mutates(s.threads[id].op) && id in s.since
  {
    var Thread(op, pc) := s.threads[id];
    var a := s.since[id];
    if pc.Learning? || pc.Unlearning? then 1 <= a && |s.past| == a + 1 && Did(op, s.past[a - 1], s.past[a])
    else |s.past| == a
  }

  // Mutating call k was made by this write, and did what was asked for, or nothing.
  ghost predicate Makes(s: System, id: nat, k: nat)
    requires 1 <= k < |s.past|
  {
    && id in s.threads && Mutates(s.threads[id].op) && id in s.since && s.since[id] == k
    && (Did(s.threads[id].op, s.past[k - 1], s.past[k]) || s.past[k] == s.past[k - 1])
  }

  ghost predicate Made(s: System, k: nat)
    requires 1 <= k < |s.past|
  {
    exists id :: Makes(s, id, k)
  }

  ghost predicate True(s: System) {
    && Base(s) && Sane(s.v) && PastFits(s) && SinglesStay(s)
    && s.since.Keys <= s.threads.Keys && s.until.Keys <= s.threads.Keys
    && (forall k: nat | 1 <= k < |s.past| :: Made(s, k))
    && (forall id | id in s.threads :: ThreadTrue(s, id) && (Busy(s.threads[id]) ==> BusyTrue(s, id)))
  }

  // --- the vault and the memo ---

  lemma EffectKeepsRight(v: State, e: Effect, t: State, name: string, id: ItemId)
    requires Fits(v, e) && t.items == Apply(v, e) && t.next == v.next + (if e.New? then 1 else 0) && Right(v, name, id)
    ensures Right(t, name, id)
  {
    forall i | 0 <= i < |t.items| && t.items[i].id == id
      ensures t.items[i].title == name
    {
      EffectItem(v, e, i);
    }
  }

  lemma EffectKeepsFormer(v: State, e: Effect, t: State, listed: seq<Item>)
    requires Fits(v, e) && t.items == Apply(v, e) && t.next == v.next + (if e.New? then 1 else 0) && Former(v, listed)
    ensures Former(t, listed)
  {
    forall i | 0 <= i < |listed|
      ensures Right(t, listed[i].title, listed[i].id)
    {
      EffectKeepsRight(v, e, t, listed[i].title, listed[i].id);
    }
  }

  lemma PresentIsFormer(v: State)
    requires Sane(v)
    ensures Former(v, v.items)
  {
    forall i | 0 <= i < |v.items|
      ensures Right(v, v.items[i].title, v.items[i].id)
    {
      forall k | 0 <= k < |v.items| && v.items[k].id == v.items[i].id
        ensures v.items[k].title == v.items[i].title
      {
        assert k == i;
      }
    }
  }

  lemma TitledIsRight(v: State, listed: seq<Item>, name: string)
    requires Former(v, listed) && Count(listed, name) == 1
    ensures Right(v, name, Titled(listed, name).id)
  {
    var i := IndexOfTitled(listed, name);
  }

  // A memo rebuilt from an earlier vault may be stale, but is not wrong.
  lemma FormerMemoIsRight(v: State, listed: seq<Item>)
    requires Sane(v) && Former(v, listed)
    ensures Sane(v.(ids := MemoOf(listed)))
  {
    var m := MemoOf(listed);
    forall t | t in m
      ensures m[t] < v.next
      ensures forall i | 0 <= i < |v.items| :: v.items[i].id == m[t] ==> v.items[i].title == t
    {
      TitledIsRight(v, listed, t);
    }
  }

  lemma MemoIsRight(v: State, name: string)
    requires Sane(v) && name in v.ids
    ensures Right(v, name, v.ids[name])
  {}

  lemma IdsStaySane(s: System, step: Step)
    requires True(s) && Enabled(s, step) && !step.Begin? && !IsMutation(step)
    ensures Sane(MemoAfter(s.v, s.threads[step.id], step))
  {
    var id := step.id;
    assert ThreadTrue(s, id);
    if step.Note? {
      var j: nat :| During(s, id, j) && s.past[j] == s.threads[id].pc.listed;
      FormerMemoIsRight(s.v, s.threads[id].pc.listed);
    } else if step.Learn? {
      assert Right(s.v, NameOf(s.threads[id].op), s.threads[id].pc.id);
    }
  }

  lemma MutationStaysSane(s: System, step: Step, e: Effect)
    requires True(s) && Enabled(s, step) && IsMutation(step)
    requires Causes(s.v, s.threads[step.id], e, VaultLeft(s, step))
    ensures Sane(VaultLeft(s, step)) && PastFits(Next(s, step))
  {
    var t, u := VaultLeft(s, step), Next(s, step);
    EffectKeepsMemo(s.v, t, e, NameOf(s.threads[step.id].op));
    PresentIsFormer(t);
    forall j | 0 <= j < |u.past|
      ensures Former(u.v, u.past[j])
    {
      if j < |s.past| {
        EffectKeepsFormer(s.v, e, t, s.past[j]);
      }
    }
  }

  lemma SaveDoes(v: State, th: Thread, e: Effect, t: State)
    requires Sane(v) && Causes(v, th, e, t) && e != Nothing && th.op.Saving? && PcFits(th) && !th.pc.Ended?
    requires th.pc.Writing? ==> th.pc.item.title == th.op.name
    ensures Did(th.op, v.items, t.items)
  {
    var op := th.op;
    EffectSparesOthers(v, t, e, op.name);
    if op.record.name == op.name && Count(v.items, op.name) <= 1 {
      if e.Replaced? {
        AnswerAt(v.items, e.at);
      }
      WrittenAnswer(v, t, e, op.human, op.name, op.record);
    }
  }

  lemma DeleteDoes(v: State, th: Thread, e: Effect, t: State)
    requires Sane(v) && Causes(v, th, e, t) && e != Nothing && th.op.Deleting?
    requires th.pc.Removing? ==> Right(v, th.op.name, th.pc.id)
    ensures Did(th.op, v.items, t.items)
  {
    EffectSparesOthers(v, t, e, th.op.name);
    if Count(v.items, th.op.name) <= 1 {
      AnswerAt(v.items, e.at);
      GoneAnswer(v, e, th.op.name);
    }
  }

  // The mutating call of a write does what was asked for, or nothing.
  lemma MutationDoes(s: System, step: Step, e: Effect)
    requires True(s) && Enabled(s, step) && IsMutation(step) && e != Nothing
    requires Causes(s.v, s.threads[step.id], e, VaultLeft(s, step))
    ensures Mutates(s.threads[step.id].op) && Did(s.threads[step.id].op, s.v.items, VaultLeft(s, step).items)
  {
    var th := s.threads[step.id];
    assert ThreadTrue(s, step.id) && PcFits(th);
    if th.op.Saving? {
      SaveDoes(s.v, th, e, VaultLeft(s, step));
    } else {
      DeleteDoes(s.v, th, e, VaultLeft(s, step));
    }
  }

  // --- one operation's step leaves the others' truths alone ---

  ghost predicate RightStays(v: State, t: State) {
    forall name, id | Right(v, name, id) :: Right(t, name, id)
  }

  predicate SameTimes(s: System, t: System, id: nat) {
    && s.past <= t.past && (id in s.since ==> id in t.since && t.since[id] == s.since[id])
    && (id in t.until <==> id in s.until) && (id in s.until ==> t.until[id] == s.until[id])
  }

  lemma StillDuring(s: System, t: System, id: nat)
    requires SameTimes(s, t, id)
    ensures forall j: nat | During(s, id, j) :: During(t, id, j) && t.past[j] == s.past[j]
  {}

  lemma OtherStaysTrue(s: System, t: System, id: nat)
    requires id in s.threads && ThreadTrue(s, id) && id in t.threads && t.threads[id] == s.threads[id]
    requires SameTimes(s, t, id) && RightStays(s.v, t.v)
    ensures ThreadTrue(t, id)
  {
    StillDuring(s, t, id);
    var Thread(op, pc) := s.threads[id];
    match pc
    case Ended(Wrote(err)) => assert WriteTrue(t, id, op, err);
    case _ =>
  }

  lemma StepKeepsRight(s: System, step: Step)
    requires True(s) && Enabled(s, step)
    ensures RightStays(s.v, Next(s, step).v)
  {
    if IsMutation(step) {
      var e := MutationEffect(s, step);
      forall name, id | Right(s.v, name, id)
        ensures Right(Next(s, step).v, name, id)
      {
        EffectKeepsRight(s.v, e, Next(s, step).v, name, id);
      }
    }
  }

  // A step of operation id changes nobody else's place, and adds to the past only by a mutating call.
  ghost predicate Framed(s: System, t: System, id: nat, calls: nat) {
    && s.past <= t.past && |t.past| == |s.past| + calls && calls <= 1
    && t.threads.Keys == s.threads.Keys + {id}
    && (forall i | i in s.threads && i != id :: t.threads[i] == s.threads[i] && SameTimes(s, t, i))
    && t.since.Keys <= s.since.Keys + {id} && t.until.Keys <= s.until.Keys + {id}
    && (id in s.since ==> id in t.since && t.since[id] == s.since[id])
    && (id in s.threads ==> t.threads[id].op == s.threads[id].op)
  }

  lemma MovedIsFramed(s: System, u: System, id: nat, th: Thread, calls: nat)
    requires u.threads == s.threads && u.until == s.until && s.past <= u.past
    requires |u.past| == |s.past| + calls && calls <= 1
    requires u.since == s.since || (id !in s.threads && s.since.Keys <= s.threads.Keys && u.since == s.since[id := |s.past|])
    requires id in s.threads ==> th.op == s.threads[id].op
    ensures Framed(s, Moved(u, id, th), id, calls)
  {}

  lemma StepIsFramed(s: System, step: Step)
    requires Enabled(s, step) && s.since.Keys <= s.threads.Keys
    ensures Framed(s, Next(s, step), step.id, if IsMutation(step) then 1 else 0)
  {
    if step.Begin? {
      MovedIsFramed(s, s.(since := s.since[step.id := |s.past|]), step.id, Thread(step.op, First(step.op)), 0);
    } else if IsMutation(step) {
      var v, th := VaultLeft(s, step), s.threads[step.id];
      MovedIsFramed(s, s.(v := v, past := s.past + [v.items]), step.id, th.(pc := Settled(s.v, th, step)), 1);
    } else {
      var v := MemoAfter(s.v, s.threads[step.id], step);
      MovedIsFramed(s, s.(v := v), step.id, s.threads[step.id].(pc := PcAfter(s.v, s.threads[step.id], step)), 0);
    }
  }

  lemma BusyStays(s: System, t: System, id: nat)
    requires id in s.threads && Mutates(s.threads[id].op) && id in s.since && BusyTrue(s, id)
    requires id in t.threads && t.threads[id] == s.threads[id] && SameTimes(s, t, id) && t.past == s.past
    ensures BusyTrue(t, id)
  {}

  lemma OthersKept(s: System, t: System, id: nat, calls: nat, i: nat)
    requires Framed(s, t, id, calls) && RightStays(s.v, t.v) && i in s.threads && i != id
    requires ThreadTrue(s, i) && (Busy(s.threads[i]) ==> BusyTrue(s, i) && calls == 0)
    ensures OwnKept(t, i)
  {
    OtherStaysTrue(s, t, i);
    if Busy(s.threads[i]) {
      assert t.past == s.past;
      BusyStays(s, t, i);
    }
  }

  lemma StepKeepsOthers(s: System, step: Step, id: nat)
    requires True(s) && Enabled(s, step) && id in s.threads && id != step.id
    ensures OwnKept(Next(s, step), id)
  {
    StepKeepsRight(s, step);
    StepIsFramed(s, step);
    if IsMutation(step) {
      MutationFits(s, step);
    }
    OthersKept(s, Next(s, step), step.id, if IsMutation(step) then 1 else 0, id);
  }

  // --- and keeps its own ---

  // What the operation has just answered is true of the vault as it is.
  lemma EndsNow(s: System, id: nat)
    requires |s.past| > 0 && id in s.since && s.since[id] <= |s.past| && (id in s.until ==> s.until[id] == |s.past|)
    ensures During(s, id, |s.past| - 1)
  {}

  lemma BeginsTrue(s: System, step: Step)
    requires True(s) && Enabled(s, step) && step.Begin?
    ensures OwnKept(Next(s, step), step.id)
  {
    FirstFits(step.op);
  }

  // What is true of one operation under way, and of the vault as it is.
  ghost predicate Own(s: System, id: nat) {
    && id in s.threads && PcFits(s.threads[id]) && ThreadTrue(s, id)
    && (Busy(s.threads[id]) ==> BusyTrue(s, id))
    && |s.past| > 0 && s.past[|s.past| - 1] == s.v.items
  }

  ghost predicate OwnKept(t: System, id: nat)
    requires id in t.threads
  {
    ThreadTrue(t, id) && (Busy(t.threads[id]) ==> BusyTrue(t, id))
  }

  lemma LookUpTrue(s: System, step: Step)
    requires Own(s, step.id) && Sane(s.v) && Enabled(s, step) && step.LookUp?
    ensures OwnKept(Next(s, step), step.id)
  {
    var t, op := Next(s, step), s.threads[step.id].op;
    EndsNow(t, step.id);
    if NameOf(op) in s.v.ids {
      MemoIsRight(s.v, NameOf(op));
    }
  }

  lemma CallListTrue(s: System, step: Step)
    requires Own(s, step.id) && Enabled(s, step) && step.CallList?
    ensures OwnKept(Next(s, step), step.id)
  {
    EndsNow(Next(s, step), step.id);
  }

  // What the item under a right ID holds is what its title answers, if that is not duplicated.
  lemma GotIsAnswer(v: State, name: string, id: ItemId)
    requires Right(v, name, id) && Holds(v.items, id) && Count(v.items, name) <= 1 && name != ""
    ensures FromFields(name, At(v.items, id).fields) == Answer(v.items, name) && At(v.items, id).title == name
  {
    var i := IndexOfId(v.items, id);
    AnswerAt(v.items, i);
  }

  lemma GetAnswers(s: System, t: System, id: nat)
    requires Own(s, id) && Single(s, NameOf(s.threads[id].op)) && SinglesStay(s) && s.threads[id].pc.Fetching?
    requires Holds(s.v.items, s.threads[id].pc.id) && t.past == s.past && During(t, id, |s.past| - 1)
    ensures var Thread(op, pc) := s.threads[id]; ReadTrue(t, id, NameOf(op), FromFields(NameOf(op), At(s.v.items, pc.id).fields))
  {
    GotIsAnswer(s.v, NameOf(s.threads[id].op), s.threads[id].pc.id);
    assert t.past[|s.past| - 1] == s.v.items;
  }

  lemma CallGetTrue(s: System, step: Step)
    requires Own(s, step.id) && SinglesStay(s) && Enabled(s, step) && step.CallGet?
    ensures OwnKept(Next(s, step), step.id)
  {
    var th := s.threads[step.id];
    EndsNow(Next(s, step), step.id);
    if Holds(s.v.items, th.pc.id) && Single(s, NameOf(th.op)) {
      GetAnswers(s, Next(s, step), step.id);
      GotIsAnswer(s.v, NameOf(th.op), th.pc.id);
    }
  }

  lemma ForgetTrue(s: System, step: Step)
    requires Own(s, step.id) && Enabled(s, step) && step.Forget?
    ensures OwnKept(Next(s, step), step.id)
  {}

  // The call was made before; the memo has learned of it now.
  lemma LearnedTrue(s: System, t: System, id: nat)
    requires Own(s, id) && (s.threads[id].pc.Learning? || s.threads[id].pc.Unlearning?)
    requires id in t.threads && t.threads[id] == s.threads[id].(pc := Ended(Wrote(None)))
    requires t.past == s.past && id in t.since && t.since[id] == s.since[id] && id in t.until && t.until[id] == |t.past|
    ensures OwnKept(t, id)
  {
    assert BusyTrue(s, id);
    assert WriteTrue(t, id, s.threads[id].op, None);
  }

  lemma LearnTrue(s: System, step: Step)
    requires Own(s, step.id) && Enabled(s, step) && (step.Learn? || step.Unlearn?)
    ensures OwnKept(Next(s, step), step.id)
  {
    LearnedTrue(s, Next(s, step), step.id);
  }

  lemma NoteTrue(s: System, step: Step)
    requires Own(s, step.id) && Enabled(s, step) && step.Note?
    requires forall j | 0 <= j < |s.past| :: Former(s.v, s.past[j])
    ensures OwnKept(Next(s, step), step.id)
  {
    var t, th := Next(s, step), s.threads[step.id];
    var j: nat :| During(s, step.id, j) && s.past[j] == th.pc.listed;
    assert During(t, step.id, j) && t.past[j] == th.pc.listed;
    NotedTrue(s, t, step.id, j);
  }

  // What an operation makes of a listing from its time.
  lemma NotedTrue(s: System, t: System, id: nat, j: nat)
    requires Own(s, id) && s.threads[id].pc.Noting? && id in t.threads && |t.past| == |s.past|
    requires id in t.since && t.since[id] == s.since[id]
    requires t.v == s.v.(ids := t.v.ids) && During(t, id, j)
    requires t.past[j] == s.threads[id].pc.listed && Former(s.v, t.past[j])
    requires var Thread(op, Noting(listed, tried)) := s.threads[id];
             t.threads[id] == Thread(op, Resolved(op, listed, tried))
    requires if t.threads[id].pc.Ended? then id in t.until && t.until[id] == |t.past| else id !in t.until
    requires Mutates(s.threads[id].op) ==> t.past[|t.past| - 1] == s.threads[id].pc.listed
    ensures OwnKept(t, id)
  {
    var Thread(op, Noting(listed, tried)) := s.threads[id];
    if Count(listed, NameOf(op)) == 1 {
      TitledIsRight(s.v, listed, NameOf(op));
      assert Right(t.v, NameOf(op), Titled(listed, NameOf(op)).id);
    }
  }

  // The mutating call has just been made: it did what was asked for, or failed and did nothing.
  lemma CalledTrue(s: System, t: System, id: nat)
    requires Own(s, id) && Busy(s.threads[id]) && !s.threads[id].pc.Learning? && !s.threads[id].pc.Unlearning?
    requires id in t.threads && t.threads[id].op == s.threads[id].op && t.past == s.past + [t.v.items]
    requires id in t.since && t.since[id] == s.since[id]
    requires match t.threads[id].pc
             case Learning(i) => id !in t.until && Right(t.v, NameOf(s.threads[id].op), i)
             case Unlearning => id !in t.until
             case Ended(out) => out.Wrote? && id in t.until && t.until[id] == |t.past|
             case _ => false
    requires || Did(s.threads[id].op, s.v.items, t.v.items)
             || (t.v.items == s.v.items && t.threads[id].pc.Ended? && t.threads[id].pc.out.error.Some?)
    ensures OwnKept(t, id)
  {
    var Thread(op, pc) := t.threads[id];
    assert BusyTrue(s, id);
    assert pc.Ended? ==> WriteTrue(t, id, op, pc.out.error);
  }

  lemma MutationTrue(s: System, step: Step, e: Effect)
    requires Own(s, step.id) && Enabled(s, step) && IsMutation(step) && Busy(s.threads[step.id])
    requires Mutated(s.v, s.threads[step.id], step).0.None? ==> e != Nothing
    requires if e == Nothing then VaultLeft(s, step).items == s.v.items
             else Did(s.threads[step.id].op, s.v.items, VaultLeft(s, step).items)
    requires Settled(s.v, s.threads[step.id], step).Learning? ==>
               Right(VaultLeft(s, step), NameOf(s.threads[step.id].op), s.v.next)
    ensures OwnKept(Next(s, step), step.id)
  {
    CalledTrue(s, Next(s, step), step.id);
  }

  // A new item's ID is new.
  lemma NewIsRight(v: State, th: Thread, e: Effect, t: State)
    requires Issued(v) && Causes(v, th, e, t) && e.New?
    ensures Right(t, NameOf(th.op), v.next)
  {}

  lemma MutatingTrue(s: System, step: Step)
    requires True(s) && Enabled(s, step) && IsMutation(step)
    ensures OwnKept(Next(s, step), step.id)
  {
    MutationFits(s, step);
    var e := MutationEffect(s, step);
    if e != Nothing {
      MutationDoes(s, step, e);
    }
    if e.New? {
      NewIsRight(s.v, s.threads[step.id], e, VaultLeft(s, step));
    }
    MutationTrue(s, step, e);
  }

  lemma MoveTrue(s: System, step: Step)
    requires True(s) && Own(s, step.id) && Enabled(s, step) && !step.Begin? && !IsMutation(step)
    ensures OwnKept(Next(s, step), step.id)
  {
    match step
    case LookUp(_) => LookUpTrue(s, step);
    case CallList(_, _) => CallListTrue(s, step);
    case Note(_) => NoteTrue(s, step);
    case CallGet(_, _) => CallGetTrue(s, step);
    case Forget(_) => ForgetTrue(s, step);
    case Learn(_) => LearnTrue(s, step);
    case Unlearn(_) => LearnTrue(s, step);
  }

  lemma OwnStaysTrue(s: System, step: Step)
    requires True(s) && Enabled(s, step)
    ensures OwnKept(Next(s, step), step.id)
  {
    if step.Begin? {
      BeginsTrue(s, step);
    } else if IsMutation(step) {
      MutatingTrue(s, step);
    } else {
      MoveTrue(s, step);
    }
  }

  lemma MovedKeepsPast(s: System, t: System)
    requires PastFits(s) && t.past == s.past && t.v.items == s.v.items && t.v.next == s.v.next
    ensures PastFits(t)
  {
    forall j | 0 <= j < |t.past|
      ensures Former(t.v, t.past[j])
    {
      assert Former(s.v, s.past[j]);
      forall i | 0 <= i < |t.past[j]|
        ensures Right(t.v, t.past[j][i].title, t.past[j][i].id)
      {
        assert Right(s.v, s.past[j][i].title, s.past[j][i].id);
      }
    }
  }

  lemma StepKeepsVault(s: System, step: Step)
    requires True(s) && Enabled(s, step)
    ensures Sane(Next(s, step).v) && PastFits(Next(s, step))
  {
    if IsMutation(step) {
      var e := MutationEffect(s, step);
      MutationStaysSane(s, step, e);
    } else {
      MovedKeepsPast(s, Next(s, step));
      if !step.Begin? {
        IdsStaySane(s, step);
      }
    }
  }

  lemma StepKeepsSingles(s: System, step: Step)
    requires Base(s) && PastFits(s) && SinglesStay(s) && Enabled(s, step)
    ensures SinglesStay(Next(s, step))
  {
    var t := Next(s, step);
    forall name, j: nat | Single(t, name) && j < |t.past|
      ensures Count(t.past[j], name) <= 1
    {
      assert Single(s, name) && Count(s.past[|s.past| - 1], name) <= 1;
      StepCounts(s, step, name);
    }
  }

  // The write that makes the mutating call at hand.
  lemma CallMakes(s: System, t: System, id: nat)
    requires Own(s, id) && Busy(s.threads[id]) && !s.threads[id].pc.Learning? && !s.threads[id].pc.Unlearning?
    requires id in t.threads && t.threads[id].op == s.threads[id].op && id in t.since && t.since[id] == s.since[id]
    requires t.past == s.past + [t.v.items]
    requires Did(s.threads[id].op, s.v.items, t.v.items) || t.v.items == s.v.items
    ensures Makes(t, id, |s.past|)
  {
    assert BusyTrue(s, id);
  }

  lemma MakesCall(s: System, step: Step)
    requires True(s) && Enabled(s, step) && IsMutation(step)
    ensures var t := Next(s, step); |t.past| == |s.past| + 1 && Makes(t, step.id, |s.past|)
  {
    var e := MutationEffect(s, step);
    MutationFits(s, step);
    assert Own(s, step.id);
    if e != Nothing {
      MutationDoes(s, step, e);
    }
    CallMakes(s, Next(s, step), step.id);
  }

  lemma MakerKept(s: System, t: System, id: nat, calls: nat, k: nat)
    requires Framed(s, t, id, calls) && 1 <= k < |s.past| && Made(s, k)
    ensures Made(t, k)
  {
    var i :| Makes(s, i, k);
    assert Makes(t, i, k);
  }

  lemma StepKeepsMakers(s: System, step: Step, k: nat)
    requires True(s) && Enabled(s, step) && 1 <= k < |Next(s, step).past|
    ensures Made(Next(s, step), k)
  {
    StepIsFramed(s, step);
    if k < |s.past| {
      MakerKept(s, Next(s, step), step.id, if IsMutation(step) then 1 else 0, k);
    } else {
      MakesCall(s, step);
    }
  }

  lemma AllKept(t: System)
    requires Base(t) && Sane(t.v) && PastFits(t) && SinglesStay(t)
    requires t.since.Keys <= t.threads.Keys && t.until.Keys <= t.threads.Keys
    requires forall k: nat | 1 <= k < |t.past| :: Made(t, k)
    requires forall id | id in t.threads :: OwnKept(t, id)
    ensures True(t)
  {}

  lemma StepKeepsTrue(s: System, step: Step)
    requires True(s) && Enabled(s, step)
    ensures True(Next(s, step))
  {
    var t := Next(s, step);
    StepKeepsBase(s, step);
    StepKeepsVault(s, step);
    StepKeepsSingles(s, step);
    StepIsFramed(s, step);
    forall k: nat | 1 <= k < |t.past|
      ensures Made(t, k)
    {
      StepKeepsMakers(s, step, k);
    }
    forall id | id in t.threads
      ensures OwnKept(t, id)
    {
      if id == step.id {
        OwnStaysTrue(s, step);
      } else {
        StepKeepsOthers(s, step, id);
      }
    }
    AllKept(t);
  }

  lemma {:induction false} RunStaysTrue(s: System, steps: seq<Step>)
    requires True(s) && Possible(s, steps)
    ensures True(Run(s, steps))
    decreases |steps|
  {
    if steps != [] {
      StepKeepsTrue(s, steps[0]);
      RunStaysTrue(Next(s, steps[0]), steps[1..]);
    }
  }

  // --- what callers get ---

  lemma RunIsTrue(v: State, steps: seq<Step>)
    requires Sane(v) && Possible(Start(v), steps)
    ensures True(Run(Start(v), steps))
  {
    PresentIsFormer(v);
    RunStaysTrue(Start(v), steps);
  }

  // From unique titles and a memo that is not wrong, every interleaving keeps both, whatever fails.
  lemma SharedRunsStayGood(v: State, steps: seq<Step>)
    requires Good(v) && Possible(Start(v), steps)
    ensures Good(Run(Start(v), steps).v)
  {
    RunIsTrue(v, steps);
    forall title
      ensures Count(Run(Start(v), steps).v.items, title) <= 1
    {
      RunCounts(Start(v), steps, title);
    }
  }

  // The backend behaves as if each operation happened at one moment between its beginning and its end: a read
  // answers with what a vault of its time answers without any memo, or reports a failed call; a write makes at
  // most one mutating call, which does all that was asked for or nothing, and a successful one has done it. The
  // vault changes only so, one write after the other, in the order in which they began. Other items may be
  // anything; how a name whose title was duplicated at first is itself read or written is left open.
  lemma OperationsAreAtomic(v: State, steps: seq<Step>, id: nat)
    requires Sane(v) && Possible(Start(v), steps)
    requires id in Run(Start(v), steps).threads && Run(Start(v), steps).threads[id].pc.Ended?
    ensures var s := Run(Start(v), steps);
            var Thread(op, Ended(out)) := s.threads[id];
            match out
            case Read(r) => op.Loading? && ReadTrue(s, id, op.name, r)
            case Named(names) => op.Listing? && NamedTrue(s, id, names)
            case Wrote(err) => Mutates(op) && id in s.since && id in s.until && WriteTrue(s, id, op, err)
    ensures var s := Run(Start(v), steps);
            && |s.past| > 0 && s.past[0] == v.items && s.past[|s.past| - 1] == s.v.items && SinglesStay(s)
            && forall k: nat | 1 <= k < |s.past| :: Made(s, k)
  {
    var s := Run(Start(v), steps);
    RunIsTrue(v, steps);
    PastGrows(Start(v), steps);
    assert ThreadTrue(s, id) && PcFits(s.threads[id]);
  }

  lemma {:induction false} PastGrows(s: System, steps: seq<Step>)
    requires Possible(s, steps)
    ensures s.past <= Run(s, steps).past
    decreases |steps|
  {
    if steps != [] {
      PastGrows(Next(s, steps[0]), steps[1..]);
    }
  }

  // --- alone, each operation is the sequential one ---

  ghost predicate Leads(a: System, b: System) {
    exists steps :: Possible(a, steps) && Run(a, steps) == b
  }

  lemma {:induction false} RunAppend(a: System, steps: seq<Step>, step: Step)
    requires Possible(a, steps) && Enabled(Run(a, steps), step)
    ensures Possible(a, steps + [step]) && Run(a, steps + [step]) == Next(Run(a, steps), step)
    decreases |steps|
  {
    var all := steps + [step];
    if steps == [] {
      assert all[0] == step && all[1..] == [];
    } else {
      assert all[0] == steps[0] && all[1..] == steps[1..] + [step];
      RunAppend(Next(a, steps[0]), steps[1..], step);
    }
  }

  lemma Advance(a: System, s: System, step: Step) returns (t: System)
    requires Leads(a, s) && Enabled(s, step)
    ensures t == Next(s, step) && Leads(a, t)
  {
    t := Next(s, step);
    var steps :| Possible(a, steps) && Run(a, steps) == s;
    RunAppend(a, steps, step);
  }

  // One operation, by itself, stands here.
  predicate Alone(s: System, op: Act, pc: Pc, v: State) {
    s.threads == map[0 := Thread(op, pc)] && s.v == v
  }

  lemma MoveAlone(s: System, op: Act, pc: Pc, v: State, step: Step)
    requires Alone(s, op, pc, v) && step.id == 0 && Ready(Thread(op, pc), step) && !IsMutation(step)
    ensures Enabled(s, step)
    ensures Alone(Next(s, step), op, PcAfter(v, Thread(op, pc), step), MemoAfter(v, Thread(op, pc), step))
  {}

  lemma CallAlone(s: System, op: Act, pc: Pc, v: State, step: Step)
    requires Alone(s, op, pc, v) && step.id == 0 && Ready(Thread(op, pc), step) && IsMutation(step)
    ensures Enabled(s, step)
    ensures Alone(Next(s, step), op, Settled(v, Thread(op, pc), step), Mutated(v, Thread(op, pc), step).1)
  {}

  lemma Moves(a: System, s: System, op: Act, pc: Pc, v: State, step: Step) returns (t: System)
    requires Leads(a, s) && Alone(s, op, pc, v) && step.id == 0 && Ready(Thread(op, pc), step) && !IsMutation(step)
    ensures Leads(a, t) && Alone(t, op, PcAfter(v, Thread(op, pc), step), MemoAfter(v, Thread(op, pc), step))
  {
    MoveAlone(s, op, pc, v, step);
    t := Advance(a, s, step);
  }

  lemma Calls(a: System, s: System, op: Act, pc: Pc, v: State, step: Step) returns (t: System)
    requires Leads(a, s) && Alone(s, op, pc, v) && step.id == 0 && Ready(Thread(op, pc), step) && IsMutation(step)
    ensures Leads(a, t) && Alone(t, op, Settled(v, Thread(op, pc), step), Mutated(v, Thread(op, pc), step).1)
  {
    CallAlone(s, op, pc, v, step);
    t := Advance(a, s, step);
  }

  // Where a lookup's outcome takes an operation.
  function Concluded(op: Act, r: Result<Option<ItemId>, Error>, tried: Option<Tried>): Pc {
    match r
    case Err(e) => Unresolved(op, tried, e)
    case Ok(None) => Absent(op)
    case Ok(Some(id)) =>
      if tried.None? then Present(op, id)
      else if op.Loading? && id != tried.value.id then Fetching(id, true)
      else Failing(op, CallFailed(tried.value.error))
  }

  lemma AloneResolves(a: System, s: System, o: Oracle, v: State, op: Act, tried: Option<Tried>) returns (t: System)
    requires Leads(a, s) && Alone(s, op, Asking(tried), v) && !op.Listing?
    ensures var (r, w) := Resolve(v, o, NameOf(op)); Leads(a, t) && Alone(t, op, Concluded(op, r, tried), w)
  {
    t := Moves(a, s, op, Asking(tried), v, CallList(0, o(v.calls)));
    if o(v.calls).Works? {
      assert Resolved(op, v.items, tried) == Concluded(op, Resolve(v, o, NameOf(op)).0, tried);
      t := Moves(a, t, op, Noting(v.items, tried), Called(v), Note(0));
    }
  }

  lemma AloneFinds(a: System, s: System, o: Oracle, v: State, op: Act) returns (t: System)
    requires Leads(a, s) && Alone(s, op, Looking, v) && !op.Listing?
    ensures var (r, w) := Find(v, o, NameOf(op)); Leads(a, t) && Alone(t, op, Concluded(op, r, None), w)
  {
    t := Moves(a, s, op, Looking, v, LookUp(0));
    if NameOf(op) != "" && NameOf(op) !in v.ids {
      t := AloneResolves(a, t, o, v, op, None);
    }
  }

  lemma AloneGets(a: System, s: System, o: Oracle, v: State, op: Act, id: ItemId, last: bool) returns (t: System)
    requires Leads(a, s) && Alone(s, op, Fetching(id, last), v)
    ensures var (item, w) := Got(v, o, id); Leads(a, t) && Alone(t, op, Gotten(op, item, id, last), w)
  {
    t := Moves(a, s, op, Fetching(id, last), v, CallGet(0, o(v.calls)));
  }

  lemma AloneRetries(a: System, s: System, o: Oracle, v: State, op: Act, failed: Tried) returns (t: System)
    requires Leads(a, s) && Alone(s, op, Forgetting(failed), v) && !op.Listing?
    ensures var (r, w) := Resolve(Forgot(v, NameOf(op)), o, NameOf(op));
            Leads(a, t) && Alone(t, op, Concluded(op, r, Some(failed)), w)
  {
    t := Moves(a, s, op, Forgetting(failed), v, Forget(0));
    t := AloneResolves(a, t, o, Forgot(v, NameOf(op)), op, Some(failed));
  }

  lemma LoadConcludes(op: Act, r: Result<Option<ItemId>, Error>, failed: Tried)
    requires op.Loading?
    ensures Concluded(op, r, Some(failed)) ==
            if r.Err? then Ended(Read(Err(r.error)))
            else if r.value.None? then Ended(Read(Err(NotFound)))
            else if r.value.value == failed.id then Ended(Read(Err(CallFailed(failed.error))))
            else Fetching(r.value.value, true)
  {}

  // Where the second half of a Load stands once the vault is listed again.
  lemma RetriedIs(v: State, o: Oracle, name: string, failed: Tried)
    ensures var (again, w) := Resolve(Forgot(v, name), o, name);
            Retried(v, o, name, failed.id, CallFailed(failed.error)) ==
            if again.Err? then (Err(again.error), w)
            else if again.value.None? then (Err(NotFound), w)
            else if again.value.value == failed.id then (Err(CallFailed(failed.error)), w)
            else
              var (item, u) := Got(w, o, again.value.value);
              (if item.Ok? then FromFields(name, item.value.fields) else Err(item.error), u)
  {}

  lemma LastGetAlone(a: System, s: System, o: Oracle, v: State, op: Act, id: ItemId) returns (t: System)
    requires Leads(a, s) && Alone(s, op, Fetching(id, true), v) && op.Loading?
    ensures var (item, w) := Got(v, o, id);
            && Leads(a, t)
            && Alone(t, op, Ended(Read(if item.Ok? then FromFields(op.name, item.value.fields) else Err(item.error))), w)
  {
    t := AloneGets(a, s, o, v, op, id, true);
  }

  lemma RetryAlone(a: System, s: System, o: Oracle, v: State, op: Act, failed: Tried) returns (t: System)
    requires Leads(a, s) && Alone(s, op, Forgetting(failed), v) && op.Loading?
    ensures var (r, w) := Retried(v, o, op.name, failed.id, CallFailed(failed.error));
            Leads(a, t) && Alone(t, op, Ended(Read(r)), w)
  {
    t := AloneRetries(a, s, o, v, op, failed);
    var (again, w) := Resolve(Forgot(v, op.name), o, op.name);
    LoadConcludes(op, again, failed);
    RetriedIs(v, o, op.name, failed);
    if again.Ok? && again.value.Some? && again.value.value != failed.id {
      t := LastGetAlone(a, t, o, w, op, again.value.value);
    }
  }

  lemma LoadAlone(a: System, s: System, o: Oracle, v: State, op: Act) returns (t: System)
    requires Leads(a, s) && Alone(s, op, Looking, v) && op.Loading?
    ensures var (r, w) := Load(v, o, op.name); Leads(a, t) && Alone(t, op, Ended(Read(r)), w)
  {
    t := AloneFinds(a, s, o, v, op);
    var (id, s1) := Find(v, o, op.name);
    if id.Ok? && id.value.Some? {
      t := AloneGets(a, t, o, s1, op, id.value.value, false);
      var (item, s2) := Got(s1, o, id.value.value);
      LoadHalves(v, o, op.name);
      if item.Err? {
        t := RetryAlone(a, t, o, s2, op, Tried(id.value.value, item.error.error));
      }
    }
  }

  lemma CreateAlone(a: System, s: System, o: Oracle, v: State, op: Act) returns (t: System)
    requires Leads(a, s) && Alone(s, op, Making, v) && op.Saving?
    ensures var (err, w) := Created(v, o, op.name, NewFields(op)); Leads(a, t) && Alone(t, op, Ended(Wrote(err)), w)
  {
    var step := CallCreate(0, o(v.calls));
    t := Calls(a, s, op, Making, v, step);
    if o(v.calls).Works? {
      t := Moves(a, t, op, Learning(v.next), Mutated(v, Thread(op, Making), step).1, Learn(0));
    }
  }

  // The lookup half of a Save ends at a place where it is to create or write back, or with an error.
  function Located(item: Result<Option<Item>, Error>): Pc {
    match item
    case Err(e) => Ended(Wrote(Some(e)))
    case Ok(None) => Making
    case Ok(Some(x)) => Writing(x)
  }

  // The second half of that, after the Get failed.
  function Relocated(v: State, o: Oracle, name: string, failed: Tried): (Result<Option<Item>, Error>, State) {
    var (again, w) := Resolve(Forgot(v, name), o, name);
    (if again == Ok(None) then Ok(None) else Err(CallFailed(failed.error)), w)
  }

  lemma SaveConcludes(op: Act, r: Result<Option<ItemId>, Error>, failed: Tried)
    requires op.Saving?
    ensures Concluded(op, r, Some(failed)) == if r == Ok(None) then Making else Ended(Wrote(Some(CallFailed(failed.error))))
  {}

  lemma RelocateAlone(a: System, s: System, o: Oracle, v: State, op: Act, failed: Tried) returns (t: System)
    requires Leads(a, s) && Alone(s, op, Forgetting(failed), v) && op.Saving?
    ensures var (item, w) := Relocated(v, o, op.name, failed); Leads(a, t) && Alone(t, op, Located(item), w)
  {
    t := AloneRetries(a, s, o, v, op, failed);
    SaveConcludes(op, Resolve(Forgot(v, op.name), o, op.name).0, failed);
  }

  lemma LocateAlone(a: System, s: System, o: Oracle, v: State, op: Act) returns (t: System)
    requires Leads(a, s) && Alone(s, op, Looking, v) && op.Saving?
    ensures var (item, w) := Locate(v, o, op.name); Leads(a, t) && Alone(t, op, Located(item), w)
  {
    t := AloneFinds(a, s, o, v, op);
    var (id, s1) := Find(v, o, op.name);
    if id.Ok? && id.value.Some? {
      t := AloneGets(a, t, o, s1, op, id.value.value, false);
      var (item, s2) := Got(s1, o, id.value.value);
      if item.Ok? {
        assert Locate(v, o, op.name) == (Ok(Some(item.value)), s2);
      } else {
        var failed := Tried(id.value.value, item.error.error);
        assert Locate(v, o, op.name) == Relocated(s2, o, op.name, failed);
        t := RelocateAlone(a, t, o, s2, op, failed);
      }
    }
  }

  lemma PutAlone(a: System, s: System, o: Oracle, v: State, op: Act, x: Item) returns (t: System)
    requires Leads(a, s) && Alone(s, op, Writing(x), v) && op.Saving?
    ensures var (err, w) := Updated(v, o, Merged(op, x)); Leads(a, t) && Alone(t, op, Ended(Wrote(err)), w)
  {
    t := Calls(a, s, op, Writing(x), v, CallPut(0, o(v.calls)));
  }

  // The deleting half of a Delete: the memo learns only of a success.
  lemma RemoveAlone(a: System, s: System, o: Oracle, v: State, op: Act, id: ItemId) returns (t: System)
    requires Leads(a, s) && Alone(s, op, Removing(id), v) && op.Deleting?
    ensures var (err, w) := Deleted(v, o(v.calls), id);
            Leads(a, t) && Alone(t, op, Ended(Wrote(err)), if err.None? then Forgot(w, op.name) else w)
  {
    t := Calls(a, s, op, Removing(id), v, CallDelete(0, o(v.calls)));
    if Deleted(v, o(v.calls), id).0.None? {
      t := Moves(a, t, op, Unlearning, Deleted(v, o(v.calls), id).1, Unlearn(0));
    }
  }

  lemma SaveAlone(a: System, s: System, o: Oracle, v: State, op: Act) returns (t: System)
    requires Leads(a, s) && Alone(s, op, First(op), v) && op.Saving?
    ensures var (err, w) := Save(v, o, op.human, op.name, op.record); Leads(a, t) && Alone(t, op, Ended(Wrote(err)), w)
  {
    t := s;
    if First(op).Looking? {
      t := LocateAlone(a, s, o, v, op);
      var (item, w) := Locate(v, o, op.name);
      if item.Ok? && item.value.None? {
        t := CreateAlone(a, t, o, w, op);
      } else if item.Ok? {
        t := PutAlone(a, t, o, w, op, item.value.value);
      }
    }
  }

  lemma DeleteAlone(a: System, s: System, o: Oracle, v: State, op: Act) returns (t: System)
    requires Leads(a, s) && Alone(s, op, Looking, v) && op.Deleting?
    ensures var (err, w) := Delete(v, o, op.name); Leads(a, t) && Alone(t, op, Ended(Wrote(err)), w)
  {
    t := AloneFinds(a, s, o, v, op);
    var (id, s1) := Find(v, o, op.name);
    if id.Ok? && id.value.Some? {
      var (err, w) := Deleted(s1, o(s1.calls), id.value.value);
      assert Delete(v, o, op.name) == (err, if err.None? then Forgot(w, op.name) else w);
      t := RemoveAlone(a, t, o, s1, op, id.value.value);
    }
  }

  // What the sequential operation answers.
  function Answers(v: State, o: Oracle, op: Act): Out {
    match op
    case Loading(name) => Read(Load(v, o, name).0)
    case Saving(human, name, r) => Wrote(Save(v, o, human, name, r).0)
    case Deleting(name) => Wrote(Delete(v, o, name).0)
    case Listing =>
      var l := Listed(v, o).0;
      Named(if l.Ok? then Ok(TitleList(l.value)) else Err(l.error))
  }

  // Left alone, an operation can go step by step exactly as the sequential one does: the same answer, the same
  // vault, the same memo.
  lemma AloneIsSequential(v: State, o: Oracle, op: Act) returns (t: System)
    ensures Leads(Start(v), t) && Alone(t, op, Ended(Answers(v, o, op)), Do(v, o, op))
  {
    var a := Start(v);
    assert Possible(a, []) && Run(a, []) == a;
    var s := Advance(a, a, Begin(0, op));
    match op
    case Loading(_) => t := LoadAlone(a, s, o, v, op);
    case Saving(_, _, _) => t := SaveAlone(a, s, o, v, op);
    case Deleting(_) => t := DeleteAlone(a, s, o, v, op);
    case Listing =>
      t := Moves(a, s, op, Asking(None), v, CallList(0, o(v.calls)));
      if o(v.calls).Works? {
        t := Moves(a, t, op, Noting(v.items, None), Called(v), Note(0));
      }
  }
}
