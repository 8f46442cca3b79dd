/** What the 1Password backend promises: it behaves as a map from names to records, whatever its title
    memo remembers and whichever calls fail. */
module VaultLaws {
  import opened Wrappers
  import opened Records
  import opened Vault
  import Meta

  // --- the vault ---

  predicate DistinctIds(items: seq<Item>) {
    forall i, j | 0 <= i < j < |items| :: items[i].id != items[j].id
  }

  // Item IDs are never reused: all that exist or are remembered have been issued.
  predicate Issued(s: State) {
    DistinctIds(s.items) && forall i | 0 <= i < |s.items| :: s.items[i].id < s.next
  }

  predicate Valid(s: State) {
    Issued(s) && forall t | t in s.ids :: s.ids[t] < s.next
  }

  ghost predicate Unique(items: seq<Item>) {
    forall t :: Count(items, t) <= 1
  }

  // A remembered ID that is still live belongs to an item with the right title; it may be dead.
  predicate LiveRight(s: State) {
    forall t | t in s.ids :: forall i | 0 <= i < |s.items| :: s.items[i].id == s.ids[t] ==> s.items[i].title == t
  }

  // The memo may be stale but is not wrong. The titles of the vault may be anything.
  predicate Sane(s: State) {
    Valid(s) && LiveRight(s)
  }

  ghost predicate Good(s: State) {
    Sane(s) && Unique(s.items)
  }

  // The memo-free answer of a vault whose calls all work.
  function Answer(items: seq<Item>, name: string): Result<RawRecord, Error> {
    if name == "" || Count(items, name) == 0 then Err(NotFound)
    else if Count(items, name) > 1 then Err(Duplicate)
    else FromFields(name, Titled(items, name).fields)
  }

  lemma {:induction false} CountPositive(items: seq<Item>, i: nat)
    requires i < |items|
    ensures Count(items, items[i].title) > 0
  {
    if i > 0 {
      CountPositive(items[1..], i - 1);
    }
  }

  lemma {:induction false} OnlyOne(items: seq<Item>, i: nat)
    requires i < |items| && Count(items, items[i].title) == 1
    ensures Titled(items, items[i].title) == items[i]
  {
    if i > 0 {
      CountPositive(items[1..], i - 1);
      OnlyOne(items[1..], i - 1);
    }
  }

  lemma {:induction false} OnlyAt(items: seq<Item>, i: nat)
    requires i < |items| && DistinctIds(items)
    ensures Holds(items, items[i].id) && At(items, items[i].id) == items[i]
  {
    if i > 0 {
      assert items[0].id != items[i].id;
      OnlyAt(items[1..], i - 1);
    }
  }

  lemma {:induction false} CountAppend(items: seq<Item>, x: Item, t: string)
    ensures Count(items + [x], t) == Count(items, t) + if x.title == t then 1 else 0
  {
    if items == [] {
      assert items + [x] == [x];
    } else {
      assert (items + [x])[1..] == items[1..] + [x];
      CountAppend(items[1..], x, t);
    }
  }

  lemma {:induction false} PutIsUpdate(items: seq<Item>, i: nat, x: Item)
    requires i < |items| && DistinctIds(items) && x.id == items[i].id
    ensures Put(items, x) == items[i := x]
  {
    if i > 0 {
      assert items[0].id != items[i].id;
      PutIsUpdate(items[1..], i - 1, x);
    }
  }

  lemma {:induction false} PutElsewhere(items: seq<Item>, x: Item)
    requires !Holds(items, x.id)
    ensures Put(items, x) == items
  {
    if items != [] {
      assert items[0] in items;
      forall y | y in items[1..]
        ensures y in items
      {}
      PutElsewhere(items[1..], x);
    }
  }

  lemma {:induction false} CountUpdate(items: seq<Item>, i: nat, x: Item, t: string)
    requires i < |items| && x.title == items[i].title
    ensures Count(items[i := x], t) == Count(items, t)
  {
    if i == 0 {
      assert items[i := x][1..] == items[1..];
    } else {
      assert items[i := x][1..] == items[1..][i - 1 := x];
      CountUpdate(items[1..], i - 1, x, t);
    }
  }

  lemma {:induction false} DropIsCut(items: seq<Item>, i: nat)
    requires i < |items| && DistinctIds(items)
    ensures Drop(items, items[i].id) == items[..i] + items[i + 1..]
  {
    if i == 0 {
      assert items[..0] + items[1..] == items[1..];
    } else {
      var rest := items[1..];
      assert items[0].id != items[i].id && rest[i - 1] == items[i];
      DropIsCut(rest, i - 1);
      assert items[..i] == [items[0]] + rest[..i - 1] && items[i + 1..] == rest[i..];
    }
  }

  lemma {:induction false} DropElsewhere(items: seq<Item>, id: ItemId)
    requires !Holds(items, id)
    ensures Drop(items, id) == items
  {
    if items != [] {
      assert items[0] in items;
      forall y | y in items[1..]
        ensures y in items
      {}
      DropElsewhere(items[1..], id);
    }
  }

  lemma {:induction false} CountCut(items: seq<Item>, i: nat, t: string)
    requires i < |items|
    ensures Count(items[..i] + items[i + 1..], t) == Count(items, t) - if items[i].title == t then 1 else 0
  {
    if i == 0 {
      assert items[..i] + items[i + 1..] == items[1..];
    } else {
      assert (items[..i] + items[i + 1..])[1..] == items[1..][..i - 1] + items[1..][i..];
      CountCut(items[1..], i - 1, t);
    }
  }

  lemma IndexOfTitled(items: seq<Item>, t: string) returns (i: nat)
    requires Count(items, t) > 0
    ensures i < |items| && items[i] == Titled(items, t)
  {
    i :| 0 <= i < |items| && items[i] == Titled(items, t);
  }

  lemma IndexOfId(items: seq<Item>, id: ItemId) returns (i: nat)
    requires Holds(items, id)
    ensures i < |items| && items[i] == At(items, id) && items[i].id == id
  {
    i :| 0 <= i < |items| && items[i] == At(items, id);
  }

  // --- the memo ---

  // The memo made from any listing remembers a title exactly when one listed item has it, and then that
  // item's ID: three or more duplicates included.
  lemma {:induction false} MemoIsExact(items: seq<Item>, t: string)
    ensures t in MemoOf(items) <==> Count(items, t) == 1
    ensures t in MemoOf(items) ==> forall i | 0 <= i < |items| :: items[i].title == t ==> items[i].id == MemoOf(items)[t]
  {
    if Count(items, t) == 1 {
      assert Titled(items, t) in items;
      forall i | 0 <= i < |items| && items[i].title == t
        ensures items[i].id == MemoOf(items)[t]
      {
        OnlyOne(items, i);
      }
    }
  }

  lemma FreshMemoIsRight(s: State)
    requires Valid(s)
    ensures Valid(s.(ids := MemoOf(s.items))) && LiveRight(s.(ids := MemoOf(s.items)))
  {
    var m := MemoOf(s.items);
    forall t | t in m
      ensures m[t] < s.next
      ensures forall i | 0 <= i < |s.items| :: s.items[i].id == m[t] ==> s.items[i].title == t
    {
      var k := IndexOfTitled(s.items, t);
    }
  }

  // --- Load ---

  predicate AllWork(o: Oracle, from: nat, to: nat) {
    forall i | from <= i < to :: o(i).Works?
  }

  // A remembered ID is the titled item's, or dead.
  lemma MemoHit(s: State, name: string)
    requires Valid(s) && LiveRight(s) && name in s.ids
    ensures Holds(s.items, s.ids[name]) ==>
              Count(s.items, name) > 0 && At(s.items, s.ids[name]).title == name
              && (Count(s.items, name) == 1 ==> At(s.items, s.ids[name]) == Titled(s.items, name))
  {
    if Holds(s.items, s.ids[name]) {
      var i := IndexOfId(s.items, s.ids[name]);
      CountPositive(s.items, i);
      if Count(s.items, name) == 1 {
        OnlyOne(s.items, i);
      }
    }
  }

  lemma TitledIsHeld(items: seq<Item>, name: string)
    requires DistinctIds(items) && Count(items, name) > 0
    ensures Holds(items, Titled(items, name).id) && At(items, Titled(items, name).id) == Titled(items, name)
  {
    var i := IndexOfTitled(items, name);
    OnlyAt(items, i);
  }

  lemma LoadWithoutMemo(s: State, o: Oracle, name: string)
    requires Valid(s) && name != "" && name !in s.ids && Count(s.items, name) <= 1
    requires AllWork(o, s.calls, Load(s, o, name).1.calls)
    ensures Load(s, o, name).0 == Answer(s.items, name)
  {
    assert o(s.calls).Works?;
    if Count(s.items, name) == 1 {
      TitledIsHeld(s.items, name);
      assert o(s.calls + 1).Works?;
    }
  }

  // Every call of this Load works, but for the Get of a remembered item that is gone, which cannot.
  predicate LiveWork(s: State, o: Oracle, name: string) {
    var dead := name in s.ids && !Holds(s.items, s.ids[name]);
    AllWork(o, if dead then s.calls + 1 else s.calls, Load(s, o, name).1.calls)
  }

  lemma LoadByDeadMemo(s: State, o: Oracle, name: string)
    requires Valid(s) && name != "" && name in s.ids && !Holds(s.items, s.ids[name]) && Count(s.items, name) <= 1
    requires AllWork(o, s.calls + 1, Load(s, o, name).1.calls)
    ensures Load(s, o, name).0 == Answer(s.items, name)
  {
    assert o(s.calls + 1).Works?;
    if Count(s.items, name) == 1 {
      TitledIsHeld(s.items, name);
      assert o(s.calls + 2).Works?;
    }
  }

  // However stale the memo, a Load whose listings and whose Gets of live items work answers as if there were
  // no memo.
  lemma StaleMemoIsHarmless(s: State, o: Oracle, name: string)
    requires Sane(s) && Count(s.items, name) <= 1 && LiveWork(s, o, name)
    ensures Load(s, o, name).0 == Answer(s.items, name)
  {
    if name != "" {
      if name !in s.ids {
        LoadWithoutMemo(s, o, name);
      } else if !Holds(s.items, s.ids[name]) {
        LoadByDeadMemo(s, o, name);
      } else {
        MemoHit(s, name);
        assert o(s.calls).Works?;
      }
    }
  }

  // The item with this ID can be fetched and has no meta field.
  predicate Metaless(items: seq<Item>, id: ItemId) {
    Holds(items, id) && forall f | f in At(items, id).fields :: !IsMeta(f)
  }

  lemma EmptyGet(s: State, o: Oracle, id: ItemId, name: string)
    requires FromGet(s, o, id, name) == Err(NotFound)
    ensures Metaless(s.items, id) && o(s.calls).Works?
  {
    NoMetaField(name, At(s.items, id).fields);
  }

  // A fresh listing comes back without the title, or with the one item that has it.
  lemma ResolveIsHonest(s: State, o: Oracle, name: string)
    ensures var (id, t) := Resolve(s, o, name);
            && t.items == s.items && t.calls == s.calls + 1
            && (id.Ok? ==> o(s.calls).Works?)
            && (id == Ok(None) ==> Count(s.items, name) == 0)
            && (id.Ok? && id.value.Some? ==> Count(s.items, name) == 1 && id.value.value == Titled(s.items, name).id)
  {}

  // The call with which a Load of this name lists the vault, if it does.
  function ListingCall(s: State, name: string): nat {
    if name in s.ids then s.calls + 1 else s.calls
  }

  // What a not-found may rest on: an empty name; the listing made in this very call, which worked and lacked
  // the title; or an item without a meta field that was fetched, under the ID remembered or the one listed.
  predicate Honest(s: State, o: Oracle, name: string) {
    var listing := ListingCall(s, name);
    || name == ""
    || (o(listing).Works? && Count(s.items, name) == 0)
    || (name in s.ids && o(s.calls).Works? && Metaless(s.items, s.ids[name]))
    || (o(listing).Works? && Count(s.items, name) == 1 && o(listing + 1).Works?
        && Metaless(s.items, Titled(s.items, name).id))
  }

  // The second half of a Load, after the Get of a remembered or listed ID failed.
  lemma RetryIsHonest(s: State, o: Oracle, name: string)
    requires var (again, t) := Resolve(s, o, name);
             again.Ok? && (again.value.None? || FromGet(t, o, again.value.value, name) == Err(NotFound))
    ensures || (o(s.calls).Works? && Count(s.items, name) == 0)
            || (o(s.calls).Works? && o(s.calls + 1).Works? && Count(s.items, name) == 1
                && Metaless(s.items, Titled(s.items, name).id))
  {
    ResolveIsHonest(s, o, name);
    var (again, t) := Resolve(s, o, name);
    if again.value.Some? {
      EmptyGet(t, o, again.value.value, name);
    }
  }

  // What the item under an ID reads as, once fetched.
  function FromGet(s: State, o: Oracle, id: ItemId, name: string): Result<RawRecord, Error> {
    var item := Got(s, o, id).0;
    if item.Ok? then FromFields(name, item.value.fields) else Err(item.error)
  }

  // A Get of an ID that a listing has just named fails only for good: listing again finds the same ID.
  lemma ListedGet(s: State, o: Oracle, name: string)
    requires name != "" && name !in s.ids && Load(s, o, name).0 == Err(NotFound)
    ensures Honest(s, o, name)
  {
    ResolveIsHonest(s, o, name);
    var (id, s1) := Resolve(s, o, name);
    if id.value.Some? {
      var (item, s2) := Got(s1, o, id.value.value);
      if item.Ok? {
        EmptyGet(s1, o, id.value.value, name);
      } else {
        ResolveIsHonest(Forgot(s2, name), o, name);
      }
    }
  }

  lemma RememberedGet(s: State, o: Oracle, name: string)
    requires name != "" && name in s.ids && Load(s, o, name).0 == Err(NotFound)
    ensures Honest(s, o, name)
  {
    var (item, s2) := Got(s, o, s.ids[name]);
    if item.Ok? {
      EmptyGet(s, o, s.ids[name], name);
    } else {
      RetryIsHonest(Forgot(s2, name), o, name);
    }
  }

  // Even when calls fail, and for any vault and memo, not-found is reported only for an empty name, when the
  // listing made in this very call worked and lacked the title, or when the item fetched, under the ID
  // remembered or the one listed, has no meta field.
  lemma NotFoundIsHonest(s: State, o: Oracle, name: string)
    requires Load(s, o, name).0 == Err(NotFound)
    ensures Honest(s, o, name)
  {
    if name != "" {
      if name in s.ids {
        RememberedGet(s, o, name);
      } else {
        ListedGet(s, o, name);
      }
    }
  }

  lemma {:induction false} NoMetaField(name: string, fields: seq<Field>)
    requires FromFields(name, fields) == Err(NotFound)
    ensures forall f | f in fields :: !IsMeta(f)
  {
    if fields != [] {
      NoMetaField(name, fields[1..]);
      forall f | f in fields
        ensures !IsMeta(f)
      {
        assert f == fields[0] || f in fields[1..];
      }
    }
  }

  // --- Save and Delete ---

  // Looking something up changes no item; what the memo holds afterwards it held before or learned from
  // a listing.
  predicate OnlyLooked(s: State, t: State) {
    && t.items == s.items && t.next == s.next
    && forall n | n in t.ids :: || (n in s.ids && t.ids[n] == s.ids[n])
                                || (n in MemoOf(s.items) && t.ids[n] == MemoOf(s.items)[n])
  }

  lemma FindOnlyLooks(s: State, o: Oracle, name: string)
    ensures OnlyLooked(s, Find(s, o, name).1)
    ensures var id := Find(s, o, name).0;
            && (id == Ok(None) ==> name == "" || Count(s.items, name) == 0)
            && (id.Ok? && id.value.Some? ==> || (name in s.ids && id.value.value == s.ids[name])
                                             || (Count(s.items, name) == 1 && id.value.value == Titled(s.items, name).id))
  {}

  lemma ResolveOnlyLooks(s: State, t: State, o: Oracle, name: string)
    requires OnlyLooked(s, t)
    ensures OnlyLooked(s, Resolve(t, o, name).1)
    ensures Resolve(t, o, name).0 == Ok(None) ==> Count(s.items, name) == 0
  {}

  // A Save creates only when no item has the title, and updates only an item its memo or a listing named.
  lemma LocateOnlyLooks(s: State, o: Oracle, name: string)
    requires name != ""
    ensures OnlyLooked(s, Locate(s, o, name).1)
    ensures var item := Locate(s, o, name).0;
            && (item == Ok(None) ==> Count(s.items, name) == 0)
            && (item.Ok? && item.value.Some? ==>
                  var x := item.value.value;
                  && Holds(s.items, x.id) && x == At(s.items, x.id)
                  && ((name in s.ids && x.id == s.ids[name])
                      || (Count(s.items, name) == 1 && x.id == Titled(s.items, name).id)))
  {
    FindOnlyLooks(s, o, name);
    var (id, s1) := Find(s, o, name);
    if id.Ok? && id.value.Some? {
      var (item, s2) := Got(s1, o, id.value.value);
      if item.Err? {
        ResolveOnlyLooks(s, Forgot(s2, name), o, name);
      }
    }
  }

  // Whatever happens to the vault in a Save or Delete, it is one of these.
  datatype Effect = Nothing | New(item: Item) | Replaced(at: nat, fields: seq<Field>) | Gone(at: nat)

  predicate Fits(s: State, e: Effect) {
    match e
    case Nothing => true
    case New(x) => x.id == s.next && Count(s.items, x.title) == 0
    case Replaced(i, _) => i < |s.items|
    case Gone(i) => i < |s.items|
  }

  function Apply(s: State, e: Effect): seq<Item>
    requires Fits(s, e)
  {
    match e
    case Nothing => s.items
    case New(x) => s.items + [x]
    case Replaced(i, fields) => s.items[i := s.items[i].(fields := fields)]
    case Gone(i) => s.items[..i] + s.items[i + 1..]
  }

  function MetaText(r: RawRecord): string {
    var m := Meta.Encode(r);
    if m.Ok? then m.value else ""
  }

  // The effect a completed Save has.
  ghost predicate Wanted(s: State, e: Effect, human: string, name: string, r: RawRecord)
    requires Fits(s, e)
  {
    match e
    case New(x) => x == Item(s.next, name, Managed(human, MetaText(r)))
    case Replaced(i, fields) =>
      && fields == Foreign(s.items[i].fields) + Managed(human, MetaText(r))
      && ((name in s.ids && s.items[i].id == s.ids[name])
          || (Count(s.items, name) == 1 && s.items[i] == Titled(s.items, name)))
    case _ => false
  }

  predicate MemoStep(s: State, t: State, name: string) {
    forall n | n in t.ids :: || (n in s.ids && t.ids[n] == s.ids[n])
                             || (n in MemoOf(s.items) && t.ids[n] == MemoOf(s.items)[n])
                             || (n == name && t.next == s.next + 1 && t.ids[n] == s.next)
  }

  // The two ways a Save ends, from the vault its lookup left.
  lemma CreatedEffect(s: State, t: State, o: Oracle, name: string, fields: seq<Field>) returns (e: Effect)
    requires OnlyLooked(s, t) && Count(s.items, name) == 0
    ensures var (err, u) := Created(t, o, name, fields);
            && Fits(s, e) && (e == Nothing || e == New(Item(s.next, name, fields)))
            && u.items == Apply(s, e) && u.next == s.next + (if e.New? then 1 else 0) && MemoStep(s, u, name)
            && (err.None? ==> e != Nothing)
  {
    e := if o(t.calls).Works? || o(t.calls).applied then New(Item(s.next, name, fields)) else Nothing;
  }

  lemma UpdatedEffect(s: State, t: State, o: Oracle, name: string, x: Item, fields: seq<Field>) returns (e: Effect)
    requires OnlyLooked(s, t) && DistinctIds(s.items) && x in s.items
    ensures var (err, u) := Updated(t, o, x.(fields := fields));
            && Fits(s, e) && (e == Nothing || (e.Replaced? && s.items[e.at] == x && e.fields == fields))
            && u.items == Apply(s, e) && u.next == s.next && MemoStep(s, u, name)
            && (err.None? ==> e != Nothing)
  {
    var i :| 0 <= i < |s.items| && s.items[i] == x;
    PutIsUpdate(s.items, i, x.(fields := fields));
    e := if o(t.calls).Works? || o(t.calls).applied then Replaced(i, fields) else Nothing;
  }

  lemma SaveEffect(s: State, o: Oracle, human: string, name: string, r: RawRecord) returns (e: Effect)
    requires DistinctIds(s.items)
    ensures Fits(s, e) && (e == Nothing || Wanted(s, e, human, name, r))
    ensures var (err, t) := Save(s, o, human, name, r);
            && t.items == Apply(s, e) && t.next == s.next + (if e.New? then 1 else 0) && MemoStep(s, t, name)
            && (err.None? ==> e != Nothing) && (e != Nothing ==> name != "" && Meta.Consistent(r))
  {
    e := Nothing;
    if name != "" && Meta.Consistent(r) && |MetaText(r)| <= META_MAX_BYTES {
      LocateOnlyLooks(s, o, name);
      var (item, s1) := Locate(s, o, name);
      if item.Ok? && item.value.None? {
        e := CreatedEffect(s, s1, o, name, Managed(human, MetaText(r)));
      } else if item.Ok? {
        var x := item.value.value;
        e := UpdatedEffect(s, s1, o, name, x, Foreign(x.fields) + Managed(human, MetaText(r)));
      }
    }
  }

  lemma EffectCounts(s: State, e: Effect, t: string)
    requires Fits(s, e)
    ensures Count(Apply(s, e), t) == Count(s.items, t) + (if e.New? && e.item.title == t then 1 else 0)
                                                       - (if e.Gone? && s.items[e.at].title == t then 1 else 0)
  {
    match e
    case Nothing =>
    case New(x) => CountAppend(s.items, x, t);
    case Replaced(i, fields) => CountUpdate(s.items, i, s.items[i].(fields := fields), t);
    case Gone(i) => CountCut(s.items, i, t);
  }

  // Where an item of the new vault stood in the old one.
  function Before(e: Effect, i: nat): nat {
    if e.Gone? && i >= e.at then i + 1 else i
  }

  lemma EffectItem(s: State, e: Effect, i: nat)
    requires Fits(s, e) && i < |Apply(s, e)|
    ensures || (e.New? && i == |s.items| && Apply(s, e)[i] == e.item)
            || (Before(e, i) < |s.items| && Apply(s, e)[i].id == s.items[Before(e, i)].id
                && Apply(s, e)[i].title == s.items[Before(e, i)].title)
  {}

  lemma EffectKeepsIds(s: State, e: Effect)
    requires Issued(s) && Fits(s, e)
    ensures DistinctIds(Apply(s, e))
    ensures forall i | 0 <= i < |Apply(s, e)| :: Apply(s, e)[i].id < s.next + if e.New? then 1 else 0
  {
    var items := Apply(s, e);
    forall i, j | 0 <= i < j < |items|
      ensures items[i].id != items[j].id
    {
      EffectItem(s, e, i);
      EffectItem(s, e, j);
    }
    forall i | 0 <= i < |items|
      ensures items[i].id < s.next + if e.New? then 1 else 0
    {
      EffectItem(s, e, i);
    }
  }

  lemma MemoEntryKept(s: State, t: State, e: Effect, name: string, n: string)
    requires Valid(s) && LiveRight(s) && Fits(s, e) && (e.New? ==> e.item.title == name)
    requires t.items == Apply(s, e) && t.next == s.next + (if e.New? then 1 else 0) && MemoStep(s, t, name) && n in t.ids
    ensures t.ids[n] < t.next
    ensures forall i | 0 <= i < |t.items| :: t.items[i].id == t.ids[n] ==> t.items[i].title == n
  {
    FreshMemoIsRight(s);
    var relisted := s.(ids := MemoOf(s.items));
    assert n in MemoOf(s.items) ==> relisted.ids[n] < s.next;
    forall i | 0 <= i < |t.items| && t.items[i].id == t.ids[n]
      ensures t.items[i].title == n
    {
      EffectItem(s, e, i);
    }
  }

  lemma EffectKeepsMemo(s: State, t: State, e: Effect, name: string)
    requires Valid(s) && LiveRight(s) && Fits(s, e) && (e.New? ==> e.item.title == name)
    requires t.items == Apply(s, e) && t.next == s.next + (if e.New? then 1 else 0) && MemoStep(s, t, name)
    ensures Valid(t) && LiveRight(t)
  {
    EffectKeepsIds(s, e);
    forall n | n in t.ids
      ensures t.ids[n] < t.next
      ensures forall i | 0 <= i < |t.items| :: t.items[i].id == t.ids[n] ==> t.items[i].title == n
    {
      MemoEntryKept(s, t, e, name, n);
    }
  }

  lemma EffectKeepsGood(s: State, t: State, e: Effect, name: string)
    requires Good(s) && Fits(s, e) && (e.New? ==> e.item.title == name)
    requires t.items == Apply(s, e) && t.next == s.next + (if e.New? then 1 else 0) && MemoStep(s, t, name)
    ensures Good(t)
  {
    EffectKeepsMemo(s, t, e, name);
    forall x
      ensures Count(t.items, x) <= 1
    {
      EffectCounts(s, e, x);
    }
  }

  // What a title that occurs once answers is what its item holds.
  lemma AnswerAt(items: seq<Item>, i: nat)
    requires i < |items| && Count(items, items[i].title) <= 1
    ensures Answer(items, items[i].title) ==
            if items[i].title == "" then Err(NotFound) else FromFields(items[i].title, items[i].fields)
    ensures Count(items, items[i].title) == 1 && Titled(items, items[i].title) == items[i]
  {
    CountPositive(items, i);
    OnlyOne(items, i);
  }

  // The effect is on an item titled name.
  predicate Concerns(s: State, e: Effect, name: string)
    requires Fits(s, e)
  {
    match e
    case Nothing => true
    case New(x) => x.title == name
    case Replaced(i, _) => s.items[i].title == name
    case Gone(i) => s.items[i].title == name
  }

  // An effect on one title leaves every other answer alone, duplicated titles included.
  lemma OtherAnswers(s: State, e: Effect, name: string, n: string)
    requires Fits(s, e) && n != name && Concerns(s, e, name)
    ensures Answer(Apply(s, e), n) == Answer(s.items, n) && Count(Apply(s, e), n) == Count(s.items, n)
  {
    EffectCounts(s, e, n);
    if Count(s.items, n) == 1 {
      var k := IndexOfTitled(s.items, n);
      AnswerAt(s.items, k);
      var items := Apply(s, e);
      var k' := if e.Gone? && e.at < k then k - 1 else k;
      assert items[k'] == s.items[k];
      AnswerAt(items, k');
    }
  }

  predicate AllForeign(fields: seq<Field>) {
    forall i | 0 <= i < |fields| :: !IsManaged(fields[i])
  }

  lemma {:induction false} ForeignIsForeign(fields: seq<Field>)
    ensures AllForeign(Foreign(fields))
  {
    if fields != [] {
      ForeignIsForeign(fields[1..]);
    }
  }

  lemma {:induction false} ReadsWritten(name: string, foreign: seq<Field>, human: string, text: string)
    requires AllForeign(foreign)
    ensures FromFields(name, foreign + Managed(human, text)) ==
            match Meta.Decode(name, text) case Ok(r) => Ok(r) case Err(e) => Err(BadMeta(e))
  {
    var fields := foreign + Managed(human, text);
    if foreign == [] {
      assert fields == Managed(human, text);
      assert fields[1..][0] == Managed(human, text)[1];
    } else {
      assert fields[0] == foreign[0] && fields[1..] == foreign[1..] + Managed(human, text);
      ReadsWritten(name, foreign[1..], human, text);
    }
  }

  // How many fields hold the record.
  function MetaFields(fields: seq<Field>): nat {
    if fields == [] then 0 else (if IsMeta(fields[0]) then 1 else 0) + MetaFields(fields[1..])
  }

  lemma {:induction false} OneMetaField(foreign: seq<Field>, human: string, text: string)
    requires AllForeign(foreign)
    ensures MetaFields(foreign + Managed(human, text)) == 1
    ensures Foreign(foreign + Managed(human, text)) == foreign
  {
    var fields := foreign + Managed(human, text);
    if foreign == [] {
      var value, meta := Managed(human, text)[0], Managed(human, text)[1];
      assert fields == [value, meta] && fields[1..] == [meta] && fields[1..][1..] == [];
      assert |VALUE| != |META|;
      assert !IsMeta(value) && IsMeta(meta) && IsManaged(value) && IsManaged(meta);
      assert MetaFields([meta]) == 1 + MetaFields([]) && Foreign([meta]) == Foreign([]);
    } else {
      assert fields[0] == foreign[0] && fields[1..] == foreign[1..] + Managed(human, text);
      OneMetaField(foreign[1..], human, text);
      assert foreign == [foreign[0]] + foreign[1..];
    }
  }

  // The fields a human put on the titled item, or none when there is no such item.
  function ForeignOn(items: seq<Item>, name: string): seq<Field> {
    if Count(items, name) == 0 then [] else Foreign(Titled(items, name).fields)
  }

  // The vault after a completed Save of r under name.
  ghost predicate Holding(s: State, t: State, name: string, r: RawRecord) {
    && Count(t.items, name) == 1
    && Answer(t.items, name) == Ok(Meta.Normal(r)) && Equal(Meta.Normal(r), r)
    && MetaFields(Titled(t.items, name).fields) == 1
    && Foreign(Titled(t.items, name).fields) == ForeignOn(s.items, name)
  }

  lemma WantedIsAt(s: State, e: Effect, human: string, name: string, r: RawRecord)
    requires Sane(s) && Fits(s, e) && Wanted(s, e, human, name, r)
    ensures Concerns(s, e, name)
  {}

  lemma WrittenAnswer(s: State, t: State, e: Effect, human: string, name: string, r: RawRecord)
    requires Sane(s) && Fits(s, e) && Wanted(s, e, human, name, r) && t.items == Apply(s, e)
    requires name != "" && r.name == name && Meta.Consistent(r) && Count(s.items, name) <= 1
    ensures Holding(s, t, name, r)
  {
    WantedIsAt(s, e, human, name, r);
    EffectCounts(s, e, name);
    var i := if e.New? then |s.items| else e.at;
    var foreign := if e.New? then [] else Foreign(s.items[i].fields);
    if e.Replaced? {
      ForeignIsForeign(s.items[i].fields);
      CountPositive(s.items, i);
      AnswerAt(s.items, i);
    }
    assert t.items[i].fields == foreign + Managed(human, MetaText(r));
    AnswerAt(t.items, i);
    ReadsWritten(name, foreign, human, MetaText(r));
    OneMetaField(foreign, human, MetaText(r));
    Meta.RoundTrip(r);
    CountPositive(t.items, i);
  }

  // Every other name is answered as before, and borne by as many items.
  ghost predicate OthersStay(s: State, t: State, name: string) {
    forall n | n != name :: Answer(t.items, n) == Answer(s.items, n) && Count(t.items, n) == Count(s.items, n)
  }

  lemma EffectSparesOthers(s: State, t: State, e: Effect, name: string)
    requires Fits(s, e) && Concerns(s, e, name) && t.items == Apply(s, e)
    ensures OthersStay(s, t, name) && (Count(s.items, name) <= 1 ==> Count(t.items, name) <= 1)
  {
    EffectCounts(s, e, name);
    forall n | n != name
      ensures Answer(t.items, n) == Answer(s.items, n) && Count(t.items, n) == Count(s.items, n)
    {
      OtherAnswers(s, e, name, n);
    }
  }

  // What a Save that may have failed must have done: whatever else is in the vault, no other name's answer
  // changes; and if the name's title is not duplicated, Load(name) is Equal to what was saved, or the Save
  // failed and changed nothing.
  ghost predicate SavedOrNot(s: State, t: State, err: Option<Error>, name: string, r: RawRecord) {
    && Sane(t) && OthersStay(s, t, name)
    && (Count(s.items, name) <= 1 ==> Count(t.items, name) <= 1)
    && (Count(s.items, name) <= 1 && r.name == name ==> Holding(s, t, name, r) || (err.Some? && t.items == s.items))
  }

  // With a memo that may be stale but is not wrong, a completed Save makes Load(name) Equal to what was saved
  // and changes no other answer; a failed Save has done that or nothing. The non-managed fields survive in
  // order, with exactly one meta field present. Other items may be anything.
  lemma {:induction false} SaveRefinesMap(s: State, o: Oracle, human: string, name: string, r: RawRecord)
    requires Sane(s)
    ensures var (err, t) := Save(s, o, human, name, r); SavedOrNot(s, t, err, name, r)
  {
    var (err, t) := Save(s, o, human, name, r);
    var e := SaveEffect(s, o, human, name, r);
    EffectKeepsMemo(s, t, e, name);
    if e != Nothing {
      WantedIsAt(s, e, human, name, r);
      if Count(s.items, name) <= 1 && r.name == name {
        WrittenAnswer(s, t, e, human, name, r);
      }
    }
    EffectSparesOthers(s, t, e, name);
  }

  lemma DeleteEffect(s: State, o: Oracle, name: string) returns (e: Effect)
    requires DistinctIds(s.items)
    ensures Fits(s, e) && (e.Nothing? || e.Gone?)
    ensures e.Gone? ==> || (name in s.ids && s.items[e.at].id == s.ids[name])
                        || (Count(s.items, name) == 1 && s.items[e.at] == Titled(s.items, name))
    ensures var (err, t) := Delete(s, o, name);
            && t.items == Apply(s, e) && t.next == s.next && MemoStep(s, t, name)
            && (err.None? ==> e.Gone? || name == "" || Count(s.items, name) == 0)
  {
    FindOnlyLooks(s, o, name);
    var (id, s1) := Find(s, o, name);
    e := Nothing;
    if id.Ok? && id.value.Some? && (o(s1.calls).Works? || o(s1.calls).applied) {
      e := DropEffect(s, id.value.value);
      if Count(s.items, name) == 1 {
        TitledIsHeld(s.items, name);
      }
    }
  }

  lemma DropEffect(s: State, id: ItemId) returns (e: Effect)
    requires DistinctIds(s.items)
    ensures Fits(s, e) && (e.Nothing? || e.Gone?) && Drop(s.items, id) == Apply(s, e)
    ensures e.Gone? <==> Holds(s.items, id)
    ensures e.Gone? ==> s.items[e.at] == At(s.items, id)
  {
    if Holds(s.items, id) {
      var i := IndexOfId(s.items, id);
      DropIsCut(s.items, i);
      e := Gone(i);
    } else {
      DropElsewhere(s.items, id);
      e := Nothing;
    }
  }

  lemma GoneAnswer(s: State, e: Effect, name: string)
    requires Sane(s) && Fits(s, e) && e.Gone?
    requires (name in s.ids && s.items[e.at].id == s.ids[name])
             || (Count(s.items, name) == 1 && s.items[e.at] == Titled(s.items, name))
    ensures Concerns(s, e, name)
    ensures Count(s.items, name) <= 1 ==> Answer(Apply(s, e), name) == Err(NotFound)
  {
    assert s.items[e.at].title == name;
    CountPositive(s.items, e.at);
    EffectCounts(s, e, name);
  }

  // A completed Delete leaves a name whose title is not duplicated absent, and every other answer alone,
  // whatever else is in the vault; a failed one has done that or nothing.
  lemma {:induction false} DeleteRefinesMap(s: State, o: Oracle, name: string)
    requires Sane(s)
    ensures var (err, t) := Delete(s, o, name);
            && Sane(t) && OthersStay(s, t, name) && (Count(s.items, name) <= 1 ==> Count(t.items, name) <= 1)
            && (Count(s.items, name) <= 1 ==> Answer(t.items, name) == Err(NotFound) || (err.Some? && t.items == s.items))
  {
    var (err, t) := Delete(s, o, name);
    var e := DeleteEffect(s, o, name);
    EffectKeepsMemo(s, t, e, name);
    if e.Gone? {
      GoneAnswer(s, e, name);
    } else {
      assert Apply(s, e) == s.items;
    }
    EffectSparesOthers(s, t, e, name);
  }

  // The backend contract has deleting a missing secret succeed. Here it does so, with every call working,
  // exactly when the memo holds no ID for the name: a stale one turns it into an error, as after a Delete
  // whose failed call had taken effect.
  lemma DeleteMissingIff(s: State, o: Oracle, name: string)
    requires Sane(s) && name != "" && Count(s.items, name) == 0
    requires AllWork(o, s.calls, Delete(s, o, name).1.calls)
    ensures Delete(s, o, name).0.None? <==> name !in s.ids
  {
    if name in s.ids {
      MemoHit(s, name);
      assert o(s.calls).Works?;
    } else {
      assert o(s.calls).Works?;
    }
  }

  lemma StaleAfterFailedDelete(name: string, o: Oracle)
    requires name != "" && o(0) == Fails(Unavailable, true) && o(1).Works?
    ensures var s := State([Item(0, name, [])], 1, map[name := 0], 0);
            var (err, t) := Delete(s, o, name);
            Good(s) && err.Some? && t.items == [] && Delete(t, o, name).0.Some?
  {
    var s := State([Item(0, name, [])], 1, map[name := 0], 0);
    assert s.items[1..] == [];
    assert Holds(s.items, 0) by {
      assert s.items[0] in s.items;
    }
  }

  // --- runs ---

  datatype Act =
    | Saving(human: string, name: string, record: RawRecord) | Deleting(name: string) | Loading(name: string) | Listing

  function Do(s: State, o: Oracle, act: Act): State {
    match act
    case Saving(human, name, r) => Save(s, o, human, name, r).1
    case Deleting(name) => Delete(s, o, name).1
    case Loading(name) => Load(s, o, name).1
    case Listing => Listed(s, o).1
  }

  function Run(s: State, o: Oracle, acts: seq<Act>): State
    decreases |acts|
  {
    if acts == [] then s else Run(Do(s, o, acts[0]), o, acts[1..])
  }

  // The second half of a Load, after the Get of an item failed.
  function Retried(s: State, o: Oracle, name: string, id: ItemId, e: Error): (Result<RawRecord, Error>, State) {
    var (again, t) := Resolve(Forgot(s, name), o, name);
    if again.Err? then (Err(again.error), t)
    else if again.value.None? then (Err(NotFound), t)
    else if again.value.value == id then (Err(e), t)
    else
      var (item, u) := Got(t, o, again.value.value);
      (if item.Ok? then FromFields(name, item.value.fields) else Err(item.error), u)
  }

  lemma LoadHalves(s: State, o: Oracle, name: string)
    requires var (id, s1) := Find(s, o, name); id.Ok? && id.value.Some?
    ensures var (id, s1) := Find(s, o, name);
            var (item, s2) := Got(s1, o, id.value.value);
            Load(s, o, name) == if item.Ok? then (FromFields(name, item.value.fields), s2)
                                else Retried(s2, o, name, id.value.value, item.error)
  {}

  lemma ForgetOnlyLooks(s: State, t: State, name: string)
    requires OnlyLooked(s, t)
    ensures OnlyLooked(s, Forgot(t, name))
  {}

  lemma RetryOnlyLooks(s: State, t: State, o: Oracle, name: string, id: ItemId, e: Error)
    requires OnlyLooked(s, t)
    ensures OnlyLooked(s, Retried(t, o, name, id, e).1)
  {
    ForgetOnlyLooks(s, t, name);
    ResolveOnlyLooks(s, Forgot(t, name), o, name);
    var u, w := Resolve(Forgot(t, name), o, name).1, Retried(t, o, name, id, e).1;
    assert w.items == u.items && w.next == u.next && w.ids == u.ids;
  }

  lemma LoadOnlyLooks(s: State, o: Oracle, name: string)
    ensures OnlyLooked(s, Load(s, o, name).1)
  {
    FindOnlyLooks(s, o, name);
    var (id, s1) := Find(s, o, name);
    if id.Ok? && id.value.Some? {
      var (item, s2) := Got(s1, o, id.value.value);
      LoadHalves(s, o, name);
      if item.Err? {
        RetryOnlyLooks(s, s2, o, name, id.value.value, item.error);
      }
    }
  }

  lemma ActEffect(s: State, o: Oracle, act: Act) returns (e: Effect, name: string)
    requires DistinctIds(s.items)
    ensures Fits(s, e) && (e.New? ==> e.item.title == name)
    ensures var t := Do(s, o, act);
            t.items == Apply(s, e) && t.next == s.next + (if e.New? then 1 else 0) && MemoStep(s, t, name)
  {
    match act
    case Saving(human, n, r) =>
      e := SaveEffect(s, o, human, n, r);
      name := n;
    case Deleting(n) =>
      e := DeleteEffect(s, o, n);
      name := n;
    case Loading(n) =>
      LoadOnlyLooks(s, o, n);
      e, name := Nothing, n;
    case Listing =>
      e, name := Nothing, "";
  }

  // From unique titles and a memo that is not wrong, every run keeps both, whatever fails.
  lemma {:induction false} RunsStayGood(s: State, o: Oracle, acts: seq<Act>)
    requires Good(s)
    ensures Good(Run(s, o, acts))
    decreases |acts|
  {
    if acts != [] {
      var e, name := ActEffect(s, o, acts[0]);
      EffectKeepsGood(s, Do(s, o, acts[0]), e, name);
      RunsStayGood(Do(s, o, acts[0]), o, acts[1..]);
    }
  }

  function AtLeastOne(n: nat): nat {
    if n == 0 then 1 else n
  }

  // For any vault and any memo at all, no run ever makes another item with an existing title.
  lemma {:induction false} NeverDuplicates(s: State, o: Oracle, acts: seq<Act>, title: string)
    requires Issued(s)
    ensures Count(Run(s, o, acts).items, title) <= AtLeastOne(Count(s.items, title))
    decreases |acts|
  {
    if acts != [] {
      var e, name := ActEffect(s, o, acts[0]);
      EffectKeepsIds(s, e);
      EffectCounts(s, e, title);
      NeverDuplicates(Do(s, o, acts[0]), o, acts[1..], title);
    }
  }

  // --- the size ceiling ---

  lemma MetaTextSize(r: RawRecord)
    requires Meta.Consistent(r)
    ensures |MetaText(r)| == Meta.Size(r)
  {}

  lemma SmallIsNotTooLarge(s: State, o: Oracle, human: string, name: string, r: RawRecord)
    requires |MetaText(r)| <= META_MAX_BYTES
    ensures Save(s, o, human, name, r).0 != Some(TooLarge)
  {
    LocateNeverTooLarge(s, o, name);
  }

  lemma LocateNeverTooLarge(s: State, o: Oracle, name: string)
    ensures Locate(s, o, name).0 != Err(TooLarge)
  {
    assert Find(s, o, name).0 != Err(TooLarge);
    var (id, s1) := Find(s, o, name);
    if id.Ok? && id.value.Some? {
      assert Got(s1, o, id.value.value).0 != Err(TooLarge);
    }
  }

  // A save is refused for size exactly when the record's text is too long.
  lemma TooLargeIff(s: State, o: Oracle, human: string, name: string, r: RawRecord)
    requires Meta.Consistent(r) && name != ""
    ensures Save(s, o, human, name, r).0 == Some(TooLarge) <==> |MetaText(r)| > META_MAX_BYTES
  {
    if |MetaText(r)| <= META_MAX_BYTES {
      SmallIsNotTooLarge(s, o, human, name, r);
    }
  }

  // Exactly when a record without one of its versions is refused for size: by what the ceiling allows, and what
  // the removed value gives back, less what the first deleted version costs.
  lemma ShrinkingIsTooLargeIff(s: State, o: Oracle, human: string, name: string, r: RawRecord, v: Version)
    requires Meta.Consistent(r) && v in Entries(r) && v != r.active && v !in DeletedOf(r) && name != ""
    ensures Save(s, o, human, name, Meta.Without(r, v)).0 == Some(TooLarge) <==>
            |MetaText(r)| + (if DeletedOf(r) == {} then 9 else -3) - Meta.ValueSize(Entries(r)[v]) > META_MAX_BYTES
  {
    Meta.WithoutIsConsistent(r, v);
    Meta.DeleteVersionSize(r, v);
    MetaTextSize(r);
    MetaTextSize(Meta.Without(r, v));
    TooLargeIff(s, o, human, name, Meta.Without(r, v));
  }

  // A record that fits can be shrunk by delete-version without being refused for size, whenever some
  // version is already deleted or the removed value has at least four bytes.
  lemma {:induction false} ShrinkingIsNeverTooLarge(s: State, o: Oracle, human: string, name: string, r: RawRecord,
                                                    v: Version)
    requires Meta.Consistent(r) && v in Entries(r) && v != r.active && v !in DeletedOf(r)
    requires |MetaText(r)| <= META_MAX_BYTES
    requires DeletedOf(r) != {} || |BytesOf(Entries(r)[v])| >= 4
    ensures Save(s, o, human, name, Meta.Without(r, v)).0 != Some(TooLarge)
    ensures |MetaText(Meta.Without(r, v))| < |MetaText(r)|
  {
    Meta.DeleteVersionShrinksIff(r, v);
    MetaTextSize(r);
    MetaTextSize(Meta.Without(r, v));
    SmallIsNotTooLarge(s, o, human, name, Meta.Without(r, v));
  }
}
