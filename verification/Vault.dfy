/** The 1Password backend over a vault of items (backend/onepassword/onepassword.go). Each call into
    the SDK is given its verdict by an oracle; an update that fails may have taken effect all the same.
    `State` and the functions on it say what each operation does; the class `Backend` does it in place. */
module Vault {
  import opened Wrappers
  import opened Records
  import Meta

  const META := "ts1p-meta"
  const VALUE := "value"
  const META_MAX_BYTES := 0x10_0000

  type ItemId = nat

  datatype Field = Field(id: string, title: string, concealed: bool, value: string)

  datatype Item = Item(id: ItemId, title: string, fields: seq<Field>)

  datatype CallError = Unavailable | RateLimited | Canceled

  // One call into the SDK: it works, or it fails having taken effect or not.
  datatype Verdict = Works | Fails(error: CallError, applied: bool)

  type Oracle = nat -> Verdict

  datatype Error = CallFailed(error: CallError) | NotFound | EmptyName | Duplicate | TooLarge | BadMeta(error': Meta.MetaError)

  // The vault in listing order, the next item ID, the title memo and the calls made so far.
  datatype State = State(items: seq<Item>, next: ItemId, ids: map<string, ItemId>, calls: nat)

  // --- looking things up ---

  function Count(items: seq<Item>, title: string): nat {
    if items == [] then 0 else (if items[0].title == title then 1 else 0) + Count(items[1..], title)
  }

  // The last item with a title.
  function Titled(items: seq<Item>, title: string): (i: Item)
    requires Count(items, title) > 0
    ensures i in items && i.title == title
  {
    if Count(items[1..], title) > 0 then Titled(items[1..], title) else items[0]
  }

  function Titles(items: seq<Item>): set<string> {
    set i | i in items :: i.title
  }

  // Each title that exactly one listed item has.
  function MemoOf(items: seq<Item>): map<string, ItemId> {
    map t | t in Titles(items) && Count(items, t) == 1 :: Titled(items, t).id
  }

  predicate Holds(items: seq<Item>, id: ItemId) {
    exists i | i in items :: i.id == id
  }

  function At(items: seq<Item>, id: ItemId): (i: Item)
    requires Holds(items, id)
    ensures i in items && i.id == id
  {
    if items[0].id == id then items[0] else At(items[1..], id)
  }

  predicate IsMeta(f: Field) {
    f.title == META || f.id == META
  }

  predicate IsManaged(f: Field) {
    f.title == META || f.title == VALUE || f.id == META || f.id == VALUE
  }

  function FromFields(name: string, fields: seq<Field>): Result<RawRecord, Error> {
    if fields == [] then Err(NotFound)
    else if IsMeta(fields[0]) then
      match Meta.Decode(name, fields[0].value)
      case Ok(r) => Ok(r)
      case Err(e) => Err(BadMeta(e))
    else FromFields(name, fields[1..])
  }

  // --- one call each ---

  function Called(s: State): State {
    s.(calls := s.calls + 1)
  }

  function Listed(s: State, o: Oracle): (Result<seq<Item>, Error>, State) {
    match o(s.calls)
    case Fails(e, _) => (Err(CallFailed(e)), Called(s))
    case Works => (Ok(s.items), Called(s).(ids := MemoOf(s.items)))
  }

  function Resolve(s: State, o: Oracle, name: string): (Result<Option<ItemId>, Error>, State) {
    var (l, s') := Listed(s, o);
    if l.Err? then (Err(l.error), s')
    else if Count(s.items, name) > 1 then (Err(Duplicate), s')
    else if Count(s.items, name) == 0 then (Ok(None), s')
    else (Ok(Some(Titled(s.items, name).id)), s')
  }

  function Find(s: State, o: Oracle, name: string): (Result<Option<ItemId>, Error>, State) {
    if name == "" then (Ok(None), s)
    else if name in s.ids then (Ok(Some(s.ids[name])), s)
    else Resolve(s, o, name)
  }

  // A Get of an item that is gone fails, whatever the oracle says.
  function Got(s: State, o: Oracle, id: ItemId): (Result<Item, Error>, State) {
    match o(s.calls)
    case Fails(e, _) => (Err(CallFailed(e)), Called(s))
    case Works => (if Holds(s.items, id) then Ok(At(s.items, id)) else Err(CallFailed(Unavailable)), Called(s))
  }

  function Forgot(s: State, name: string): State {
    s.(ids := s.ids - {name})
  }

  function Load(s: State, o: Oracle, name: string): (Result<RawRecord, Error>, State) {
    var (id, s1) := Find(s, o, name);
    if id.Err? then (Err(id.error), s1)
    else if id.value.None? then (Err(NotFound), s1)
    else
      var (item, s2) := Got(s1, o, id.value.value);
      if item.Ok? then (FromFields(name, item.value.fields), s2)
      else
        var (again, s3) := Resolve(Forgot(s2, name), o, name);
        if again.Err? then (Err(again.error), s3)
        else if again.value.None? then (Err(NotFound), s3)
        else if again.value == id.value then (Err(item.error), s3)
        else
          var (item2, s4) := Got(s3, o, again.value.value);
          (if item2.Ok? then FromFields(name, item2.value.fields) else Err(item2.error), s4)
  }

  function Foreign(fields: seq<Field>): seq<Field> {
    if fields == [] then []
    else (if IsManaged(fields[0]) then [] else [fields[0]]) + Foreign(fields[1..])
  }

  function Managed(human: string, meta: string): seq<Field> {
    [Field(VALUE, VALUE, true, human), Field(META, META, true, meta)]
  }

  function Put(items: seq<Item>, item: Item): seq<Item> {
    if items == [] then []
    else if items[0].id == item.id then [item] + items[1..]
    else [items[0]] + Put(items[1..], item)
  }

  function Drop(items: seq<Item>, id: ItemId): seq<Item> {
    if items == [] then [] else if items[0].id == id then items[1..] else [items[0]] + Drop(items[1..], id)
  }

  function Created(s: State, o: Oracle, name: string, fields: seq<Field>): (Option<Error>, State) {
    var made := Called(s).(items := s.items + [Item(s.next, name, fields)], next := s.next + 1);
    match o(s.calls)
    case Works => (None, made.(ids := made.ids[name := s.next]))
    case Fails(e, applied) => (Some(CallFailed(e)), if applied then made else Called(s))
  }

  function Updated(s: State, o: Oracle, item: Item): (Option<Error>, State) {
    var made := Called(s).(items := Put(s.items, item));
    match o(s.calls)
    case Works => (if Holds(s.items, item.id) then None else Some(CallFailed(Unavailable)), made)
    case Fails(e, applied) => (Some(CallFailed(e)), if applied then made else Called(s))
  }

  // The lookup half of a Save: the item to update, or None when a listing in this call showed none.
  function Locate(s: State, o: Oracle, name: string): (Result<Option<Item>, Error>, State) {
    var (id, s1) := Find(s, o, name);
    if id.Err? then (Err(id.error), s1)
    else if id.value.None? then (Ok(None), s1)
    else
      var (item, s2) := Got(s1, o, id.value.value);
      if item.Ok? then (Ok(Some(item.value)), s2)
      else
        var (again, s3) := Resolve(Forgot(s2, name), o, name);
        (if again == Ok(None) then Ok(None) else Err(item.error), s3)
  }

  function Save(s: State, o: Oracle, human: string, name: string, r: RawRecord): (Option<Error>, State) {
    if name == "" then (Some(EmptyName), s)
    else
      var meta := Meta.Encode(r);
      if meta.Err? then (Some(BadMeta(meta.error)), s)
      else if |meta.value| > META_MAX_BYTES then (Some(TooLarge), s)
      else
        var fields := Managed(human, meta.value);
        var (item, s1) := Locate(s, o, name);
        if item.Err? then (Some(item.error), s1)
        else if item.value.None? then Created(s1, o, name, fields)
        else Updated(s1, o, item.value.value.(fields := Foreign(item.value.value.fields) + fields))
  }

  function Delete(s: State, o: Oracle, name: string): (Option<Error>, State) {
    var (id, s1) := Find(s, o, name);
    if id.Err? then (Some(id.error), s1)
    else if id.value.None? then (None, s1)
    else
      var gone := Called(s1).(items := Drop(s1.items, id.value.value));
      match o(s1.calls)
      case Works =>
        if Holds(s1.items, id.value.value) then (None, Forgot(gone, name)) else (Some(CallFailed(Unavailable)), gone)
      case Fails(e, applied) => (Some(CallFailed(e)), if applied then gone else Called(s1))
  }
}
