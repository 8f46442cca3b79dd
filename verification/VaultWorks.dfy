/** When the operations of the 1Password backend succeed, and what their errors mean
    (backend/onepassword/onepassword.go): an operation none of whose calls fails does not fail, but for the
    cases named here. */
module VaultWorks {
  import opened Wrappers
  import opened Records
  import opened Vault
  import opened VaultLaws
  import Meta

  // The memo remembers an ID for the name, and no item has it.
  predicate DeadMemo(s: State, name: string) {
    name in s.ids && !Holds(s.items, s.ids[name])
  }

  // Every call up to this count works, but for the Get of an item that is gone, which cannot.
  predicate Undisturbed(s: State, o: Oracle, name: string, upto: nat) {
    AllWork(o, if DeadMemo(s, name) then s.calls + 1 else s.calls, upto)
  }

  // Some call from one count to another failed.
  ghost predicate SomeFails(o: Oracle, from: nat, to: nat) {
    exists k: nat :: from <= k < to && o(k).Fails?
  }

  predicate Storable(r: RawRecord) {
    Meta.Consistent(r) && |MetaText(r)| <= META_MAX_BYTES
  }

  // --- looking things up ---

  // A listing that works finds the one item with the title, or none.
  lemma ResolveWorks(s: State, o: Oracle, name: string)
    requires DistinctIds(s.items) && Count(s.items, name) <= 1 && o(s.calls).Works?
    ensures var (id, t) := Resolve(s, o, name);
            && id == Ok(if Count(s.items, name) == 0 then None else Some(Titled(s.items, name).id))
            && t == s.(calls := s.calls + 1, ids := MemoOf(s.items))
            && (Count(s.items, name) == 1 ==> Holds(s.items, Titled(s.items, name).id))
  {
    if Count(s.items, name) == 1 {
      TitledIsHeld(s.items, name);
    }
  }

  // A memo just rebuilt holds no dead ID.
  lemma FreshMemoIsLive(s: State, name: string)
    requires DistinctIds(s.items)
    ensures !DeadMemo(s.(ids := MemoOf(s.items)), name)
  {
    if name in MemoOf(s.items) {
      TitledIsHeld(s.items, name);
    }
  }

  lemma LoadCalls(s: State, o: Oracle, name: string)
    requires name != ""
    ensures var (id, s1) := Find(s, o, name);
            s.calls <= s1.calls <= Load(s, o, name).1.calls
            && (id.Ok? && id.value.Some? ==> s1.calls + 1 <= Load(s, o, name).1.calls)
  {
    var (id, s1) := Find(s, o, name);
    if id.Ok? && id.value.Some? {
      LoadHalves(s, o, name);
    }
  }

  // The second half of a Load lists the vault again.
  lemma RetryMendsMemo(s: State, o: Oracle, name: string, id: ItemId, e: Error)
    requires DistinctIds(s.items) && o(s.calls).Works?
    ensures Retried(s, o, name, id, e).1.items == s.items && Retried(s, o, name, id, e).1.ids == MemoOf(s.items)
    ensures s.calls + 1 <= Retried(s, o, name, id, e).1.calls
  {}

  lemma DeadLoad(s: State, o: Oracle, name: string)
    requires name != "" && DeadMemo(s, name)
    ensures var e := Got(s, o, s.ids[name]).0.error;
            Load(s, o, name) == Retried(Called(s), o, name, s.ids[name], e)
    ensures s.calls + 2 <= Load(s, o, name).1.calls
  {
    LoadHalves(s, o, name);
    assert Called(s).calls == s.calls + 1;
  }

  // After a Load whose calls work the memo is not dead for that name.
  lemma LoadMendsMemo(s: State, o: Oracle, name: string)
    requires Sane(s) && name != "" && Count(s.items, name) <= 1 && Undisturbed(s, o, name, Load(s, o, name).1.calls)
    ensures !DeadMemo(Load(s, o, name).1, name)
  {
    FreshMemoIsLive(s, name);
    LoadCalls(s, o, name);
    if DeadMemo(s, name) {
      DeadLoad(s, o, name);
      var e := Got(s, o, s.ids[name]).0.error;
      RetryMendsMemo(Called(s), o, name, s.ids[name], e);
    } else if name in s.ids {
      LoadHalves(s, o, name);
      assert o(s.calls).Works?;
    } else {
      FreshLoad(s, o, name);
    }
  }

  // Without a remembered ID a Load begins with a listing.
  lemma FreshLoad(s: State, o: Oracle, name: string)
    requires Sane(s) && name != "" && name !in s.ids && Count(s.items, name) <= 1
    requires Undisturbed(s, o, name, Load(s, o, name).1.calls)
    ensures Load(s, o, name).1.ids == MemoOf(s.items) && Load(s, o, name).1.items == s.items
  {
    assert s.calls < Load(s, o, name).1.calls by {
      var (id, s1) := Find(s, o, name);
      LoadCalls(s, o, name);
      assert s1.calls == s.calls + 1;
    }
    assert o(s.calls).Works?;
    ResolveWorks(s, o, name);
    if Count(s.items, name) == 1 {
      LoadHalves(s, o, name);
      LoadCalls(s, o, name);
      assert o(s.calls + 1).Works?;
    }
  }

  // A remembered ID of a live item saves the listing: the Load makes one call.
  lemma MemoSavesListing(s: State, o: Oracle, name: string)
    requires name != "" && name in s.ids && Holds(s.items, s.ids[name]) && o(s.calls).Works?
    ensures Load(s, o, name).1 == s.(calls := s.calls + 1)
  {}

  // --- Save ---

  // What the lookup of a Save comes to when every call works: the titled item or, when there is none, nothing; but
  // an ID that is dead while another item has the title is an error.
  predicate LocatesWell(s: State, item: Result<Option<Item>, Error>, t: State, name: string) {
    && t.items == s.items && t.next == s.next
    && (item.Err? <==> DeadMemo(s, name) && Count(s.items, name) == 1)
    && (item.Err? ==> item.error.CallFailed? && !DeadMemo(t, name))
    && (item == Ok(None) ==> Count(s.items, name) == 0)
    && (item.Ok? && item.value.Some? ==> Holds(s.items, item.value.value.id))
  }

  lemma FreshLocate(s: State, o: Oracle, name: string)
    requires Sane(s) && name != "" && Count(s.items, name) <= 1 && name !in s.ids
    requires Undisturbed(s, o, name, Locate(s, o, name).1.calls)
    ensures var (item, t) := Locate(s, o, name); LocatesWell(s, item, t, name)
  {
    assert o(s.calls).Works?;
    ResolveWorks(s, o, name);
    if Count(s.items, name) == 1 {
      assert o(s.calls + 1).Works?;
    }
  }

  lemma DeadLocate(s: State, o: Oracle, name: string)
    requires Sane(s) && name != "" && Count(s.items, name) <= 1 && DeadMemo(s, name)
    requires Undisturbed(s, o, name, Locate(s, o, name).1.calls)
    ensures var (item, t) := Locate(s, o, name); LocatesWell(s, item, t, name)
  {
    var t := Forgot(Called(s), name);
    FreshMemoIsLive(s, name);
    assert o(t.calls).Works?;
    ResolveWorks(t, o, name);
  }

  lemma LocateWorks(s: State, o: Oracle, name: string)
    requires Sane(s) && name != "" && Count(s.items, name) <= 1 && Undisturbed(s, o, name, Locate(s, o, name).1.calls)
    ensures var (item, t) := Locate(s, o, name); LocatesWell(s, item, t, name)
  {
    if name !in s.ids {
      FreshLocate(s, o, name);
    } else if DeadMemo(s, name) {
      DeadLocate(s, o, name);
    } else {
      assert o(s.calls).Works?;
      MemoHit(s, name);
    }
  }

  lemma LocateCalls(s: State, o: Oracle, name: string)
    ensures s.calls <= Locate(s, o, name).1.calls
  {
    assert s.calls <= Find(s, o, name).1.calls;
  }

  // After its lookup a Save makes one call, or none when that failed.
  lemma SaveCalls(s: State, o: Oracle, human: string, name: string, r: RawRecord)
    requires name != "" && Storable(r)
    ensures var (item, t) := Locate(s, o, name);
            var (err, u) := Save(s, o, human, name, r);
            && (item.Err? ==> (err, u) == (Some(item.error), t))
            && (item == Ok(None) ==> (err, u) == Created(t, o, name, Managed(human, MetaText(r))))
            && (item.Ok? && item.value.Some? ==>
                  var x := item.value.value;
                  (err, u) == Updated(t, o, x.(fields := Foreign(x.fields) + Managed(human, MetaText(r)))))
            && u.calls == t.calls + if item.Ok? then 1 else 0
  {}

  // A Save of a record that fits, every call working, succeeds, unless the memo remembers an item that is gone
  // while another has taken its title: then it reports the failed Get, and the memo is mended.
  lemma SaveSucceedsIff(s: State, o: Oracle, human: string, name: string, r: RawRecord)
    requires Sane(s) && name != "" && Storable(r) && Count(s.items, name) <= 1
    requires Undisturbed(s, o, name, Save(s, o, human, name, r).1.calls)
    ensures var (err, t) := Save(s, o, human, name, r);
            && (err == None <==> !(DeadMemo(s, name) && Count(s.items, name) == 1))
            && (err != None ==> err.value.CallFailed? && t.items == s.items && !DeadMemo(t, name))
  {
    LocateCalls(s, o, name);
    SaveCalls(s, o, human, name, r);
    LocateWorks(s, o, name);
  }

  // --- Delete ---

  lemma FreshDelete(s: State, o: Oracle, name: string)
    requires Sane(s) && name != "" && name !in s.ids && Count(s.items, name) <= 1
    requires AllWork(o, s.calls, Delete(s, o, name).1.calls)
    ensures Delete(s, o, name).0 == None
  {
    FindCalls(s, o, name);
    assert o(s.calls).Works?;
    ResolveWorks(s, o, name);
    if Count(s.items, name) == 1 {
      assert o(s.calls + 1).Works?;
    }
  }

  // A Delete, every call working but that of an item gone, succeeds unless the memo remembers an item that is gone.
  lemma DeleteSucceedsIff(s: State, o: Oracle, name: string)
    requires Sane(s) && Count(s.items, name) <= 1 && Undisturbed(s, o, name, Delete(s, o, name).1.calls)
    ensures Delete(s, o, name).0 == None <==> name == "" || !DeadMemo(s, name)
  {
    if name != "" {
      if name !in s.ids {
        FreshDelete(s, o, name);
      } else if !DeadMemo(s, name) {
        assert o(s.calls).Works?;
      }
    }
  }

  lemma FindCalls(s: State, o: Oracle, name: string)
    requires name != "" && name !in s.ids
    ensures s.calls + 1 == Find(s, o, name).1.calls <= Delete(s, o, name).1.calls
  {}

  lemma SaveCounts(s: State, o: Oracle, human: string, name: string, r: RawRecord)
    ensures s.calls <= Save(s, o, human, name, r).1.calls
  {
    if name != "" && Storable(r) {
      LocateCalls(s, o, name);
      SaveCalls(s, o, human, name, r);
    }
  }

  // --- what the memo learns ---

  // A listing that works lets the memo remember every title that one item bears, so that a Load of it makes one call.
  lemma ListingSavesCalls(s: State, o: Oracle, name: string)
    requires Valid(s) && o(s.calls).Works? && Count(s.items, name) == 1 && name != "" && o(s.calls + 1).Works?
    ensures var (l, t) := Listed(s, o);
            l == Ok(s.items) && Load(t, o, name).1 == t.(calls := t.calls + 1)
  {
    TitledIsHeld(s.items, name);
    MemoIsExact(s.items, name);
  }

  // A successful Save leaves its item remembered when it made it, and a successful Delete leaves none: so a Delete
  // done again succeeds again.
  lemma CreateIsRemembered(s: State, o: Oracle, name: string, fields: seq<Field>)
    requires Issued(s) && o(s.calls).Works?
    ensures var (err, t) := Created(s, o, name, fields);
            && err == None && t.items == s.items + [Item(s.next, name, fields)]
            && name in t.ids && t.ids[name] == s.next && !DeadMemo(t, name)
  {
    var t := Created(s, o, name, fields).1;
    assert t.items[|s.items|].id == s.next && t.items[|s.items|] in t.items;
  }

  lemma DeleteIsForgotten(s: State, o: Oracle, name: string)
    requires Sane(s) && Count(s.items, name) <= 1 && name != "" && Delete(s, o, name).0 == None
    ensures name !in Delete(s, o, name).1.ids && Count(Delete(s, o, name).1.items, name) == 0
  {
    DeleteRefinesMap(s, o, name);
    var e := DeleteEffect(s, o, name);
    var (err, t) := Delete(s, o, name);
    if e.Gone? {
      EffectCounts(s, e, name);
      CountPositive(s.items, e.at);
      ForgetsGone(s, o, name);
    } else {
      MemoIsExact(s.items, name);
    }
  }

  lemma ForgetsGone(s: State, o: Oracle, name: string)
    requires name != "" && Delete(s, o, name).0 == None
    ensures name in Delete(s, o, name).1.ids ==> Count(s.items, name) == 0 && name in MemoOf(s.items)
  {}

  lemma DeleteTwice(s: State, o: Oracle, name: string)
    requires Sane(s) && Count(s.items, name) <= 1 && Delete(s, o, name).0 == None
    requires var t := Delete(s, o, name).1; AllWork(o, t.calls, Delete(t, o, name).1.calls)
    ensures Delete(Delete(s, o, name).1, o, name).0 == None
  {
    DeleteRefinesMap(s, o, name);
    if name != "" {
      DeleteIsForgotten(s, o, name);
    }
    DeleteSucceedsIff(Delete(s, o, name).1, o, name);
  }

  // --- the fields of an item ---

  // ts1p owns the fields titled or identified by these two names.
  predicate Owned(f: Field) {
    f.title == "ts1p-meta" || f.title == "value" || f.id == "ts1p-meta" || f.id == "value"
  }

  // What is kept of an item's fields is every other one, in order: of any sequence in two parts, what is kept of the
  // one and then of the other; of one field, that field unless ts1p owns it.
  lemma {:induction false} ForeignKeepsOrder(a: seq<Field>, b: seq<Field>)
    ensures Foreign(a + b) == Foreign(a) + Foreign(b)
  {
    if a == [] {
      assert a + b == b;
    } else {
      assert (a + b)[0] == a[0] && (a + b)[1..] == a[1..] + b;
      ForeignKeepsOrder(a[1..], b);
    }
  }

  lemma ForeignIsNotOwned(f: Field)
    ensures Foreign([f]) == if Owned(f) then [] else [f]
  {}

  // The first field titled or identified as the meta field is the record; without one there is none.
  lemma {:induction false} FirstMetaDecides(name: string, fields: seq<Field>, i: nat)
    requires i <= |fields| && forall k | 0 <= k < i :: fields[k].title != "ts1p-meta" && fields[k].id != "ts1p-meta"
    requires i < |fields| ==> fields[i].title == "ts1p-meta" || fields[i].id == "ts1p-meta"
    ensures FromFields(name, fields) ==
            if i == |fields| then Err(NotFound)
            else match Meta.Decode(name, fields[i].value) case Ok(r) => Ok(r) case Err(e) => Err(BadMeta(e))
  {
    if i > 0 {
      FirstMetaDecides(name, fields[1..], i - 1);
    }
  }

  // After a successful Save the titled item holds the fields a human put there, in order, and then just the text
  // shown to humans and the encoded record, both concealed.
  lemma {:induction false} SavedFields(s: State, o: Oracle, human: string, name: string, r: RawRecord)
    requires Sane(s) && Count(s.items, name) <= 1 && Save(s, o, human, name, r).0 == None
    ensures var t := Save(s, o, human, name, r).1;
            && Meta.Encode(r).Ok? && Count(t.items, name) == 1
            && Titled(t.items, name).fields ==
               ForeignOn(s.items, name)
               + [Field("value", "value", true, human), Field("ts1p-meta", "ts1p-meta", true, Meta.Encode(r).value)]
  {
    var e := SaveEffect(s, o, human, name, r);
    var t := Save(s, o, human, name, r).1;
    EffectCounts(s, e, name);
    var i := if e.New? then |s.items| else e.at;
    if e.Replaced? {
      CountPositive(s.items, i);
      AnswerAt(s.items, i);
    }
    assert t.items[i].title == name;
    AnswerAt(t.items, i);
  }

  // --- what an error means ---

  lemma ResolveErrs(s: State, o: Oracle, name: string)
    ensures var (id, t) := Resolve(s, o, name);
            && t.calls == s.calls + 1
            && (id.Err? ==> (id.error == Duplicate && Count(s.items, name) > 1) || (id.error.CallFailed? && o(s.calls).Fails?))
            && (id.Ok? && id.value.Some? ==> Count(s.items, name) == 1 && id.value.value == Titled(s.items, name).id)
  {}

  lemma GotErrs(s: State, o: Oracle, id: ItemId)
    ensures var (item, t) := Got(s, o, id);
            t.calls == s.calls + 1 && (item.Err? ==> item.error.CallFailed? && (o(s.calls).Fails? || !Holds(s.items, id)))
  {}

  // A lookup that fails has seen two items with the title, or a call that failed.
  lemma FindErrs(s: State, o: Oracle, name: string)
    ensures var (id, t) := Find(s, o, name);
            && s.calls <= t.calls
            && (id.Err? ==> (id.error == Duplicate && Count(s.items, name) > 1)
                            || (id.error.CallFailed? && SomeFails(o, s.calls, t.calls)))
  {
    ResolveErrs(s, o, name);
    assert o(s.calls).Fails? ==> SomeFails(o, s.calls, s.calls + 1);
  }

  // A Save is refused for its name, its record or its size, for a duplicated title, or because one of its calls
  // failed: the SDK's failure, or the Get of an item that the memo remembers and that is gone.
  lemma SaveErrs(s: State, o: Oracle, human: string, name: string, r: RawRecord)
    ensures var (err, t) := Save(s, o, human, name, r);
            && (err == Some(EmptyName) <==> name == "")
            && ((err.Some? && err.value.BadMeta?) <==> name != "" && !Meta.Consistent(r))
            && (err == Some(TooLarge) <==> name != "" && Meta.Consistent(r) && |MetaText(r)| > 1_048_576)
            && (err == Some(Duplicate) ==> Count(s.items, name) > 1)
            && err != Some(NotFound)
    ensures var (err, t) := Save(s, o, human, name, r);
            DistinctIds(s.items) && err.Some? && err.value.CallFailed? ==> SomeFails(o, s.calls, t.calls) || DeadMemo(s, name)
  {
    if name != "" && Storable(r) {
      SaveCalls(s, o, human, name, r);
      LocateErrs(s, o, name);
      LocateOnlyLooks(s, o, name);
      var (item, t) := Locate(s, o, name);
      assert o(t.calls).Fails? ==> SomeFails(o, s.calls, t.calls + 1);
    }
  }

  // The lookup of a Save fails for a duplicated title, or with the failure of a call.
  predicate LocateErr(s: State, o: Oracle, name: string) {
    var (item, t) := Locate(s, o, name);
    && s.calls <= t.calls
    && (item.Err? ==> (item.error == Duplicate && Count(s.items, name) > 1) || item.error.CallFailed?)
  }

  lemma LocateErrs(s: State, o: Oracle, name: string)
    requires name != ""
    ensures LocateErr(s, o, name)
    ensures var (item, t) := Locate(s, o, name);
            DistinctIds(s.items) && item.Err? && item.error.CallFailed? ==> SomeFails(o, s.calls, t.calls) || DeadMemo(s, name)
  {
    FindErrs(s, o, name);
    LocateSteps(s, o, name);
    var (id, s1) := Find(s, o, name);
    if id.Ok? && id.value.Some? {
      GotErrs(s1, o, id.value.value);
      if name !in s.ids && DistinctIds(s.items) {
        ResolveErrs(s, o, name);
        TitledIsHeld(s.items, name);
      }
      if o(s1.calls).Fails? {
        assert SomeFails(o, s.calls, s1.calls + 1) && SomeFails(o, s.calls, s1.calls + 2);
      }
    }
  }

  // It is a Find, a Get, and another listing if that failed.
  lemma LocateSteps(s: State, o: Oracle, name: string)
    ensures var (id, s1) := Find(s, o, name);
            var (item, t) := Locate(s, o, name);
            if id.Err? then item == Err(id.error) && t == s1
            else if id.value.None? then item == Ok(None) && t == s1
            else
              var got := Got(s1, o, id.value.value).0;
              && s1.calls + 1 <= t.calls
              && (got.Ok? ==> item == Ok(Some(got.value)) && t.calls == s1.calls + 1)
              && (got.Err? ==> (item == Ok(None) || item == Err(got.error)) && t.calls == s1.calls + 2)
  {}

  // A Delete fails for a duplicated title, or because one of its calls failed, that of an item gone included.
  lemma DeleteErrs(s: State, o: Oracle, name: string)
    requires DistinctIds(s.items)
    ensures var (err, t) := Delete(s, o, name);
            err.Some? ==>
              || (err.value == Duplicate && Count(s.items, name) > 1)
              || (err.value.CallFailed? && (SomeFails(o, s.calls, t.calls) || DeadMemo(s, name)))
  {
    FindErrs(s, o, name);
    var (id, s1) := Find(s, o, name);
    if id.Ok? && id.value.Some? {
      if name !in s.ids {
        ResolveErrs(s, o, name);
        TitledIsHeld(s.items, name);
      }
      assert o(s1.calls).Fails? ==> SomeFails(o, s.calls, s1.calls + 1);
    }
  }

  // A Load that reports a failed call has made one that failed: an ID that is dead is looked up again.
  lemma LoadErrs(s: State, o: Oracle, name: string)
    requires DistinctIds(s.items)
    ensures var (r, t) := Load(s, o, name);
            && (r == Err(Duplicate) ==> Count(s.items, name) > 1)
            && (r.Err? && r.error.CallFailed? ==> SomeFails(o, s.calls, t.calls))
            && r != Err(EmptyName) && r != Err(TooLarge)
  {
    if name != "" {
      FindErrs(s, o, name);
      var (id, s1) := Find(s, o, name);
      if id.Ok? && id.value.Some? {
        LoadHalves(s, o, name);
        GotErrs(s1, o, id.value.value);
        var (item, s2) := Got(s1, o, id.value.value);
        if item.Ok? {
          ReadErrs(name, item.value.fields);
        } else {
          RetryErrs(s2, o, name, id.value.value, item.error.error);
          var t := Load(s, o, name).1;
          if SomeFails(o, s1.calls, t.calls) {
            Earlier(o, s.calls, s1.calls, t.calls);
          }
        }
      }
    }
  }

  lemma Earlier(o: Oracle, from: nat, later: nat, to: nat)
    requires from <= later && SomeFails(o, later, to)
    ensures SomeFails(o, from, to)
  {
    var k: nat :| later <= k < to && o(k).Fails?;
    assert from <= k < to;
  }

  lemma {:induction false} ReadErrs(name: string, fields: seq<Field>)
    ensures FromFields(name, fields).Err? ==> FromFields(name, fields).error == NotFound || FromFields(name, fields).error.BadMeta?
  {
    if fields != [] {
      ReadErrs(name, fields[1..]);
    }
  }

  // The second half, after the Get of this ID failed.
  lemma RetryErrs(s: State, o: Oracle, name: string, id: ItemId, e: CallError)
    requires DistinctIds(s.items) && s.calls > 0 && (o(s.calls - 1).Fails? || !Holds(s.items, id))
    ensures var (r, t) := Retried(s, o, name, id, CallFailed(e));
            && (r == Err(Duplicate) ==> Count(s.items, name) > 1)
            && (r.Err? && r.error.CallFailed? ==> SomeFails(o, s.calls - 1, t.calls))
            && r != Err(EmptyName) && r != Err(TooLarge)
  {
    var (again, t) := Resolve(Forgot(s, name), o, name);
    ResolveErrs(Forgot(s, name), o, name);
    if again.Ok? && again.value.Some? {
      TitledIsHeld(s.items, name);
      GotErrs(t, o, again.value.value);
      var (item, u) := Got(t, o, again.value.value);
      if item.Ok? {
        ReadErrs(name, item.value.fields);
      } else if o(t.calls).Fails? {
        assert SomeFails(o, s.calls - 1, u.calls);
      }
    }
    if o(s.calls - 1).Fails? {
      assert SomeFails(o, s.calls - 1, Retried(s, o, name, id, CallFailed(e)).1.calls);
    } else if o(s.calls).Fails? {
      assert SomeFails(o, s.calls - 1, t.calls);
    }
  }
}
