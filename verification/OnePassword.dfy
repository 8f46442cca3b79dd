/** The 1Password backend's operations, carried out in place over its memo and the vault
    (backend/onepassword/onepassword.go). Each does exactly what Vault.dfy says; VaultLaws.dfy proves
    what that amounts to. */
module OnePassword {
  import opened Wrappers
  import opened Records
  import opened Vault
  import VaultLaws
  import Meta

  class Backend {
    const oracle: Oracle
    const human: RawRecord -> string
    var items: seq<Item>
    var next: ItemId
    var ids: map<string, ItemId>
    var calls: nat

    constructor (oracle: Oracle, human: RawRecord -> string, items: seq<Item>, next: ItemId)
      ensures this.oracle == oracle && this.human == human && Contents() == State(items, next, map[], 0)
    {
      this.oracle, this.human, this.items, this.next, ids, calls := oracle, human, items, next, map[], 0;
    }

    function Contents(): State
      reads this
    {
      State(items, next, ids, calls)
    }

    // Rebuilds the memo from a listing: every title is entered, the last one wins, and the titles met
    // twice are taken out again.
    method RememberIDs(overviews: seq<Item>)
      modifies this`ids
      ensures ids == MemoOf(overviews)
    {
      var built: map<string, ItemId> := map[];
      var dup: set<string> := {};
      for i := 0 to |overviews|
        invariant Entered(overviews[..i], built, dup)
      {
        var o := overviews[i];
        EnterNext(overviews[..i], o, built, dup);
        assert overviews[..i + 1] == overviews[..i] + [o];
        if o.title in built {
          dup := dup + {o.title};
        }
        built := built[o.title := o.id];
      }
      assert overviews[..|overviews|] == overviews;
      EnteredIsMemo(overviews, built, dup);
      ids := Without(built, dup);
    }

    // The second loop: duplicated titles are taken out again.
    method Without(built: map<string, ItemId>, dup: set<string>) returns (r: map<string, ItemId>)
      ensures r == built - dup
    {
      r := built;
      var left := dup;
      while left != {}
        invariant left <= dup && r == built - (dup - left)
        decreases left
      {
        var t :| t in left;
        r := r - {t};
        left := left - {t};
      }
    }

    method ListItems() returns (r: Result<seq<Item>, Error>)
      modifies this`calls
      ensures r == Listed(old(Contents()), oracle).0 && Contents() == Called(old(Contents()))
    {
      calls := calls + 1;
      match oracle(calls - 1)
      case Works => r := Ok(items);
      case Fails(e, _) => r := Err(CallFailed(e));
    }

    method ResolveID(name: string) returns (r: Result<Option<ItemId>, Error>)
      modifies this`calls, this`ids
      ensures (r, Contents()) == Resolve(old(Contents()), oracle, name)
    {
      var overviews := ListItems();
      if overviews.Err? {
        return Err(overviews.error);
      }
      RememberIDs(overviews.value);
      var id: ItemId, n: nat := 0, 0;
      for i := 0 to |items|
        invariant Contents() == Listed(old(Contents()), oracle).1
        invariant n == Count(items[..i], name)
        invariant n > 0 ==> id == Titled(items[..i], name).id
      {
        VaultLaws.CountAppend(items[..i], items[i], name);
        if Count(items[..i] + [items[i]], name) > 0 {
          LastOne(items[..i], items[i], name);
        }
        assert items[..i + 1] == items[..i] + [items[i]];
        if items[i].title == name {
          id := items[i].id;
          n := n + 1;
        }
      }
      assert items[..|items|] == items;
      if n > 1 {
        return Err(Duplicate);
      }
      r := Ok(if n == 1 then Some(id) else None);
    }

    method FindID(name: string) returns (r: Result<Option<ItemId>, Error>)
      modifies this`calls, this`ids
      ensures (r, Contents()) == Find(old(Contents()), oracle, name)
    {
      if name == "" {
        return Ok(None);
      }
      if name in ids {
        return Ok(Some(ids[name]));
      }
      r := ResolveID(name);
    }

    method GetItem(id: ItemId) returns (r: Result<Item, Error>)
      modifies this`calls
      ensures (r, Contents()) == Got(old(Contents()), oracle, id)
    {
      calls := calls + 1;
      match oracle(calls - 1)
      case Works => r := if Holds(items, id) then Ok(At(items, id)) else Err(CallFailed(Unavailable));
      case Fails(e, _) => r := Err(CallFailed(e));
    }

    // The first meta field decides.
    method RecordFromItem(name: string, item: Item) returns (r: Result<RawRecord, Error>)
      ensures r == FromFields(name, item.fields)
    {
      for i := 0 to |item.fields|
        invariant FromFields(name, item.fields) == FromFields(name, item.fields[i..])
      {
        var f := item.fields[i];
        if f.title == META || f.id == META {
          var decoded := Meta.Decode(name, f.value);
          return if decoded.Ok? then Ok(decoded.value) else Err(BadMeta(decoded.error));
        }
        assert item.fields[i..][1..] == item.fields[i + 1..];
      }
      r := Err(NotFound);
    }

    method Load(name: string) returns (r: Result<RawRecord, Error>)
      modifies this`calls, this`ids
      ensures (r, Contents()) == Vault.Load(old(Contents()), oracle, name)
    {
      var id := FindID(name);
      if id.Err? {
        return Err(id.error);
      }
      if id.value.None? {
        return Err(NotFound);
      }
      var item := GetItem(id.value.value);
      if item.Err? {
        ids := ids - {name};
        var again := ResolveID(name);
        if again.Err? {
          return Err(again.error);
        }
        if again.value.None? {
          return Err(NotFound);
        }
        if again.value == id.value {
          return Err(item.error);
        }
        item := GetItem(again.value.value);
        if item.Err? {
          return Err(item.error);
        }
      }
      r := RecordFromItem(name, item.value);
    }

    method Create(name: string, fields: seq<Field>) returns (err: Option<Error>)
      modifies this`calls, this`items, this`next, this`ids
      ensures (err, Contents()) == Created(old(Contents()), oracle, name, fields)
    {
      var id := next;
      calls := calls + 1;
      match oracle(calls - 1)
      case Works =>
        items, next := items + [Item(id, name, fields)], next + 1;
        ids := ids[name := id];
        err := None;
      case Fails(e, applied) =>
        if applied {
          items, next := items + [Item(id, name, fields)], next + 1;
        }
        err := Some(CallFailed(e));
    }

    method Save(name: string, r: RawRecord) returns (err: Option<Error>)
      modifies this`calls, this`items, this`next, this`ids
      ensures (err, Contents()) == Vault.Save(old(Contents()), oracle, human(r), name, r)
    {
      if name == "" {
        return Some(EmptyName);
      }
      var meta := Meta.Encode(r);
      if meta.Err? {
        return Some(BadMeta(meta.error));
      }
      if |meta.value| > META_MAX_BYTES {
        return Some(TooLarge);
      }
      var fields := Managed(human(r), meta.value);
      var id := FindID(name);
      if id.Err? {
        return Some(id.error);
      }
      if id.value.None? {
        err := Create(name, fields);
        return;
      }
      var item := GetItem(id.value.value);
      if item.Err? {
        ids := ids - {name};
        var again := ResolveID(name);
        if again == Ok(None) {
          err := Create(name, fields);
          return;
        }
        return Some(item.error);
      }
      err := Update(item.value, fields);
    }

    // Keeps the fields a human added and replaces the managed ones.
    method Update(item: Item, fields: seq<Field>) returns (err: Option<Error>)
      modifies this`calls, this`items
      ensures (err, Contents()) == Updated(old(Contents()), oracle, item.(fields := Foreign(item.fields) + fields))
    {
      var merged := [];
      for i := 0 to |item.fields|
        invariant Contents() == old(Contents()) && merged == Foreign(item.fields[..i])
      {
        var f := item.fields[i];
        ForeignLast(item.fields[..i], f);
        assert item.fields[..i + 1] == item.fields[..i] + [f];
        if !IsManaged(f) {
          merged := merged + [f];
        }
      }
      assert item.fields[..|item.fields|] == item.fields;
      merged := merged + fields;
      var changed := item.(fields := merged);
      assert changed == item.(fields := Foreign(item.fields) + fields);
      var held := Holds(items, changed.id);
      calls := calls + 1;
      match oracle(calls - 1)
      case Works =>
        items := Put(items, changed);
        err := if held then None else Some(CallFailed(Unavailable));
      case Fails(e, applied) =>
        if applied {
          items := Put(items, changed);
        }
        err := Some(CallFailed(e));
    }

    method List() returns (r: Result<seq<string>, Error>)
      modifies this`calls, this`ids
      ensures Contents() == Listed(old(Contents()), oracle).1
      ensures r.Ok? <==> oracle(old(calls)).Works?
      ensures r.Err? ==> r.error == CallFailed(oracle(old(calls)).error)
      ensures r.Ok? ==> |r.value| == |items| && forall i | 0 <= i < |items| :: r.value[i] == items[i].title
    {
      var overviews := ListItems();
      if overviews.Err? {
        return Err(overviews.error);
      }
      RememberIDs(overviews.value);
      var names := [];
      for i := 0 to |items|
        invariant |names| == i && forall k | 0 <= k < i :: names[k] == items[k].title
      {
        names := names + [items[i].title];
      }
      r := Ok(names);
    }

    method Delete(name: string) returns (err: Option<Error>)
      modifies this`calls, this`items, this`ids
      ensures (err, Contents()) == Vault.Delete(old(Contents()), oracle, name)
    {
      var id := FindID(name);
      if id.Err? {
        return Some(id.error);
      }
      if id.value.None? {
        return None;
      }
      var held := Holds(items, id.value.value);
      calls := calls + 1;
      match oracle(calls - 1)
      case Works =>
        items := Drop(items, id.value.value);
        if held {
          ids := ids - {name};
          err := None;
        } else {
          err := Some(CallFailed(Unavailable));
        }
      case Fails(e, applied) =>
        if applied {
          items := Drop(items, id.value.value);
        }
        err := Some(CallFailed(e));
    }
  }

  lemma {:induction false} LastOne(items: seq<Item>, x: Item, t: string)
    requires Count(items + [x], t) > 0
    ensures x.title != t ==> Count(items, t) > 0
    ensures Titled(items + [x], t) == if x.title == t then x else Titled(items, t)
  {
    VaultLaws.CountAppend(items, x, t);
    if items == [] {
      assert items + [x] == [x];
    } else {
      assert (items + [x])[1..] == items[1..] + [x];
      VaultLaws.CountAppend(items[1..], x, t);
      if Count(items[1..] + [x], t) > 0 {
        LastOne(items[1..], x, t);
      }
    }
  }

  // The half-built memo: every title met so far, with its last ID, and the titles met more than once.
  ghost predicate Entered(items: seq<Item>, built: map<string, ItemId>, dup: set<string>) {
    && (forall t :: t in built <==> Count(items, t) > 0)
    && (forall t | t in built :: built[t] == Titled(items, t).id)
    && (forall t :: t in dup <==> Count(items, t) > 1)
  }

  lemma EnterNext(items: seq<Item>, x: Item, built: map<string, ItemId>, dup: set<string>)
    requires Entered(items, built, dup)
    ensures Entered(items + [x], built[x.title := x.id], if x.title in built then dup + {x.title} else dup)
  {
    forall t
      ensures Count(items + [x], t) == Count(items, t) + if x.title == t then 1 else 0
      ensures Count(items + [x], t) > 0 ==> Titled(items + [x], t) == if x.title == t then x else Titled(items, t)
    {
      VaultLaws.CountAppend(items, x, t);
      if Count(items + [x], t) > 0 {
        LastOne(items, x, t);
      }
    }
  }

  lemma EnteredIsMemo(items: seq<Item>, built: map<string, ItemId>, dup: set<string>)
    requires Entered(items, built, dup)
    ensures built - dup == MemoOf(items)
  {
    forall t
      ensures t in built - dup <==> t in MemoOf(items)
    {
      VaultLaws.MemoIsExact(items, t);
    }
  }

  lemma {:induction false} ForeignLast(fields: seq<Field>, f: Field)
    ensures Foreign(fields + [f]) == Foreign(fields) + if IsManaged(f) then [] else [f]
  {
    if fields == [] {
      assert fields + [f] == [f];
    } else {
      assert (fields + [f])[1..] == fields[1..] + [f];
      ForeignLast(fields[1..], f);
    }
  }
}
