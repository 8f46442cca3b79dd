/** Records as heap objects (backend/backend.go), and every place a reference to one can live in a cache
    over the in-memory backend (backend/mem/mem.go, backend/cache/cache.go): stored, cached, shared by the
    waiters of one flight, or in a caller's hands. Cloning in and out makes the heap behave like values. */
module Isolation {
  import opened Wrappers
  import opened Records

  // The Go maps and slices a record points to. Any of the references may be nil.
  class Table {
    var cells: map<Version, array?<Byte>>

    constructor ()
      ensures cells == map[]
    {
      cells := map[];
    }

    ghost function Slices(): set<object>
      reads this
    {
      set v | v in cells && cells[v] != null :: cells[v]
    }

    // No two versions share a slice.
    ghost predicate Separate()
      reads this
    {
      forall v, w | v in cells && w in cells && v != w && cells[v] != null :: cells[v] != cells[w]
    }

    ghost function Contents(): map<Version, Nilable<Bytes>>
      reads this, Slices()
    {
      map v | v in cells :: Slice(cells[v])
    }
  }

  class Marks {
    var members: set<Version>

    constructor (members: set<Version>)
      ensures this.members == members
    {
      this.members := members;
    }
  }

  ghost function Slice(a: array?<Byte>): Nilable<Bytes>
    reads a
  {
    if a == null then Nil else Val(a[..])
  }

  method CloneSlice(a: array?<Byte>) returns (b: array?<Byte>)
    ensures Slice(b) == Slice(a) && (b != null ==> fresh(b))
  {
    if a == null {
      return null;
    }
    var c := new Byte[a.Length];
    var i := 0;
    while i < a.Length
      invariant 0 <= i <= a.Length && c[..i] == a[..i]
    {
      c[i] := a[i];
      i := i + 1;
    }
    assert c[..] == a[..];
    return c;
  }

  // One write a caller can make through a record it holds.
  datatype Edit =
    | SetByte(v: Version, i: nat, b: Byte)
    | SetVersion(v: Version, bytes: Bytes)
    | DropVersion(v: Version)
    | MarkDeleted(v: Version)
    | SetActive(v: Version)
    | SetLatest(v: Version)
    | Rename(name: string)

  // Its effect on the value; a nil map is made before it is written to.
  function Edited(r: RawRecord, e: Edit): RawRecord {
    match e
    case SetByte(v, i, b) =>
      if v in Entries(r) && Entries(r)[v].Val? && i < |Entries(r)[v].v| then
        r.(versions := Val(Entries(r)[v := Val(Entries(r)[v].v[i := b])]))
      else r
    case SetVersion(v, bytes) => r.(versions := Val(Entries(r)[v := Val(bytes)]))
    case DropVersion(v) => if r.versions.Nil? then r else r.(versions := Val(Entries(r) - {v}))
    case MarkDeleted(v) => r.(deleted := Val(DeletedOf(r) + {v}))
    case SetActive(v) => r.(active := v)
    case SetLatest(v) => r.(latest := v)
    case Rename(n) => r.(name := n)
  }

  class Rec {
    var name: string
    var versions: Table?
    var active: Version
    var latest: Version
    var deleted: Marks?
    ghost var foot: set<object>

    constructor (name: string, active: Version, latest: Version, versions: Table?, deleted: Marks?)
      requires versions != null ==> versions.Separate()
      ensures this.name == name && this.active == active && this.latest == latest
      ensures this.versions == versions && this.deleted == deleted && Valid()
      ensures forall o | o in foot ::
                o == this || o == deleted || o == versions || (versions != null && o in versions.Slices())
    {
      this.name, this.active, this.latest, this.versions, this.deleted := name, active, latest, versions, deleted;
      new;
      foot := {this};
      if versions != null {
        foot := foot + {versions} + versions.Slices();
      }
      if deleted != null {
        foot := foot + {deleted};
      }
    }

    // foot holds everything reachable, each cell in a slice of its own.
    ghost predicate Valid()
      reads this, foot
    {
      && this in foot
      && (versions != null ==>
            versions in foot && versions.Slices() <= foot && versions.Separate())
      && (deleted != null ==> deleted in foot)
    }

    ghost function Value(): RawRecord
      requires Valid()
      reads this, foot
    {
      RawRecord(name, if versions == null then Nil else Val(versions.Contents()),
                active, latest, if deleted == null then Nil else Val(deleted.members))
    }

    method Apply(e: Edit)
      requires Valid()
      modifies foot
      ensures Valid() && fresh(foot - old(foot)) && Value() == Edited(old(Value()), e)
    {
      match e {
        case SetByte(v, i, b) => PutByte(v, i, b);
        case SetVersion(v, bytes) => PutVersion(v, bytes);
        case DropVersion(v) =>
          if versions != null {
            versions.cells := versions.cells - {v};
            assert versions.Contents() == old(versions.Contents()) - {v};
          }
        case MarkDeleted(v) =>
          if deleted == null {
            deleted := new Marks({});
            foot := foot + {deleted};
          }
          deleted.members := deleted.members + {v};
        case SetActive(v) => active := v;
        case SetLatest(v) => latest := v;
        case Rename(n) => name := n;
      }
    }

    method PutByte(v: Version, i: nat, b: Byte)
      requires Valid()
      modifies foot
      ensures Valid() && foot == old(foot) && Value() == Edited(old(Value()), SetByte(v, i, b))
    {
      if versions == null || v !in versions.cells {
        return;
      }
      var a := versions.cells[v];
      if a == null || i >= a.Length {
        return;
      }
      ghost var before := versions.Contents();
      a[i] := b;
      assert a[..] == before[v].v[i := b];
      assert versions.Contents() == before[v := Val(a[..])];
    }

    method PutVersion(v: Version, bytes: Bytes)
      requires Valid()
      modifies foot
      ensures Valid() && fresh(foot - old(foot)) && Value() == Edited(old(Value()), SetVersion(v, bytes))
    {
      if versions == null {
        versions := new Table();
        foot := foot + {versions};
      }
      var a := new Byte[|bytes|](i requires 0 <= i < |bytes| => bytes[i]);
      ghost var before := versions.Contents();
      assert versions.Slices() <= foot;
      versions.cells := versions.cells[v := a];
      foot := foot + {a};
      assert a[..] == bytes;
      assert versions.Contents() == before[v := Val(bytes)];
    }

    method Clone() returns (c: Rec)
      requires Valid()
      ensures c.Valid() && fresh(c.foot) && c.Value() == Value()
    {
      var t: Table? := null;
      if versions != null {
        t := CloneTable(versions);
      }
      var d: Marks? := null;
      if deleted != null {
        d := new Marks(deleted.members);
      }
      c := new Rec(name, active, latest, t, d);
    }
  }

  // --- every place a reference to a record can live ---

  datatype Slot = Stored(name: string) | Cached(name: string) | Flight(id: nat) | Loan(id: nat)

  type Values = map<Slot, RawRecord>

  // Load answered from the cache; the inner Load of a flight; the flight's fill of the cache; a waiter's own
  // copy of the flight's result; the two copies a Save makes; entries dropped; and a caller's own writes.
  datatype Action =
    | Hit(name: string, caller: nat)
    | Fetch(name: string, flight: nat)
    | Fill(flight: nat, name: string)
    | Deliver(flight: nat, caller: nat)
    | Save(caller: nat, name: string)
    | Delete(name: string)
    | Evict(name: string)
    | Write(caller: nat, edit: Edit)

  // The same on values: what one place holds can only come from another place or from its own edits.
  function Do(v: Values, a: Action): Values {
    match a
    case Hit(n, k) => if Cached(n) in v then v[Loan(k) := v[Cached(n)]] else v
    case Fetch(n, i) => if Stored(n) in v then v[Flight(i) := v[Stored(n)]] else v
    case Fill(i, n) => if Flight(i) in v then v[Cached(n) := v[Flight(i)]] else v
    case Deliver(i, k) => if Flight(i) in v then v[Loan(k) := v[Flight(i)]] else v
    case Save(k, n) => if Loan(k) in v then v[Stored(n) := v[Loan(k)]][Cached(n) := v[Loan(k)]] else v
    case Delete(n) => v - {Stored(n), Cached(n)}
    case Evict(n) => v - {Cached(n)}
    case Write(k, e) => if Loan(k) in v then v[Loan(k) := Edited(v[Loan(k)], e)] else v
  }

  function Run(v: Values, acts: seq<Action>): Values
    decreases |acts|
  {
    if acts == [] then v else Run(Do(v, acts[0]), acts[1..])
  }

  function Holds(v: Values, s: Slot): Option<RawRecord> {
    if s in v then Some(v[s]) else None
  }

  // The same everywhere but in caller k's own record.
  ghost predicate SameButLoan(v: Values, w: Values, k: nat) {
    (forall s | s != Loan(k) :: Holds(v, s) == Holds(w, s)) && (Loan(k) in v <==> Loan(k) in w)
  }

  function WithoutWrites(acts: seq<Action>, k: nat): seq<Action> {
    if acts == [] then []
    else if acts[0].Write? && acts[0].caller == k then WithoutWrites(acts[1..], k)
    else [acts[0]] + WithoutWrites(acts[1..], k)
  }

  lemma SameStep(v: Values, w: Values, a: Action, k: nat)
    requires SameButLoan(v, w, k) && !(a.Save? && a.caller == k)
    ensures SameButLoan(Do(v, a), Do(w, a), k)
    ensures a.Write? && a.caller == k ==> SameButLoan(Do(v, a), w, k)
  {
    forall s | s != Loan(k)
      ensures Holds(Do(v, a), s) == Holds(Do(w, a), s)
      ensures a.Write? && a.caller == k ==> Holds(Do(v, a), s) == Holds(w, s)
    {
      assert Holds(v, s) == Holds(w, s);
      match a
      case Hit(n, _) => assert Holds(v, Cached(n)) == Holds(w, Cached(n));
      case Fetch(n, _) => assert Holds(v, Stored(n)) == Holds(w, Stored(n));
      case Fill(i, _) => assert Holds(v, Flight(i)) == Holds(w, Flight(i));
      case Deliver(i, _) => assert Holds(v, Flight(i)) == Holds(w, Flight(i));
      case Save(j, _) => assert Holds(v, Loan(j)) == Holds(w, Loan(j));
      case Write(j, _) => assert j != k ==> Holds(v, Loan(j)) == Holds(w, Loan(j));
      case _ =>
    }
    match a
    case Hit(n, _) => assert Holds(v, Cached(n)) == Holds(w, Cached(n));
    case Deliver(i, _) => assert Holds(v, Flight(i)) == Holds(w, Flight(i));
    case _ =>
  }

  // However a caller scribbles over the record it was given, as long as it does not save it, every stored,
  // cached, shared and lent-out record is what it would have been without.
  lemma {:induction false} ScribblingIsPrivate(v: Values, w: Values, acts: seq<Action>, k: nat)
    requires SameButLoan(v, w, k) && forall a | a in acts :: !(a.Save? && a.caller == k)
    ensures SameButLoan(Run(v, acts), Run(w, WithoutWrites(acts, k)), k)
    decreases |acts|
  {
    if acts != [] {
      SameStep(v, w, acts[0], k);
      if acts[0].Write? && acts[0].caller == k {
        ScribblingIsPrivate(Do(v, acts[0]), w, acts[1..], k);
      } else {
        ScribblingIsPrivate(Do(v, acts[0]), Do(w, acts[0]), acts[1..], k);
        var rest := WithoutWrites(acts[1..], k);
        assert ([acts[0]] + rest)[1..] == rest;
      }
    }
  }

  // A record a caller goes on writing to after saving it is stored and cached as it was when saved.
  lemma SaveKeepsACopy(v: Values, k: nat, name: string, edits: seq<Edit>)
    requires Loan(k) in v
    ensures var t := Run(Do(v, Save(k, name)), Writes(k, edits));
            Stored(name) in t && Cached(name) in t && t[Stored(name)] == t[Cached(name)] == v[Loan(k)]
  {
    var u := Do(v, Save(k, name));
    WritesStayHome(u, k, edits);
    assert Holds(u, Stored(name)) == Holds(u, Cached(name)) == Some(v[Loan(k)]);
    assert Holds(Run(u, Writes(k, edits)), Stored(name)).Some? && Holds(Run(u, Writes(k, edits)), Cached(name)).Some?;
  }

  function Writes(k: nat, edits: seq<Edit>): seq<Action> {
    if edits == [] then [] else [Write(k, edits[0])] + Writes(k, edits[1..])
  }

  lemma {:induction false} WritesStayHome(v: Values, k: nat, edits: seq<Edit>)
    ensures SameButLoan(Run(v, Writes(k, edits)), v, k)
    decreases |edits|
  {
    if edits != [] {
      var a := Write(k, edits[0]);
      SameStep(v, v, a, k);
      WritesStayHome(Do(v, a), k, edits[1..]);
      assert Writes(k, edits)[1..] == Writes(k, edits[1..]);
    }
  }

  // --- the heap does exactly that ---

  class Service {
    var held: map<Slot, Rec>
    ghost var repr: set<object>

    constructor ()
      ensures Valid() && Contents() == map[] && fresh(repr)
    {
      held, repr := map[], {};
    }

    // No two places share any part of a record.
    ghost predicate Valid()
      reads this, repr
    {
      && this !in repr
      && (forall s | s in held :: held[s] in repr && held[s].foot <= repr && held[s].Valid())
      && Apart()
    }

    // Places do not share objects.
    ghost predicate Apart()
      reads this, set s | s in held :: held[s]
    {
      forall s, t | s in held && t in held && s != t :: held[s].foot !! held[t].foot
    }

    ghost function Contents(): Values
      requires Valid()
      reads this, repr
    {
      map s | s in held :: held[s].Value()
    }

    // An object graph of its own goes in one place.
    method Place(to: Slot, c: Rec)
      requires Valid() && c.Valid() && c.foot !! repr && this !in c.foot
      modifies this
      ensures Valid() && repr == old(repr) + c.foot && held == old(held)[to := c]
      ensures Contents() == old(Contents())[to := c.Value()]
    {
      ghost var before := Contents();
      held := held[to := c];
      repr := repr + c.foot;
      assert forall s | s in held && s != to :: held[s].Value() == before[s];
      ContentsAre(before, to, c.Value());
    }

    // A clone of what is in one place, put in another.
    method Copy(from: Slot, to: Slot)
      requires Valid() && from in held
      modifies this
      ensures Valid() && fresh(repr - old(repr)) && held.Keys == old(held).Keys + {to}
      ensures Contents() == old(Contents())[to := old(Contents())[from]]
    {
      var c := held[from].Clone();
      Place(to, c);
    }

    method Forget(s: Slot)
      requires Valid()
      modifies this
      ensures Valid() && repr == old(repr)
      ensures Contents() == old(Contents()) - {s}
    {
      held := held - {s};
    }

    method Hit(name: string, caller: nat)
      requires Valid()
      modifies this
      ensures Valid() && fresh(repr - old(repr)) && Contents() == Do(old(Contents()), Action.Hit(name, caller))
    {
      if Cached(name) in held {
        Copy(Cached(name), Loan(caller));
      }
    }

    method Fetch(name: string, flight: nat)
      requires Valid()
      modifies this
      ensures Valid() && fresh(repr - old(repr)) && Contents() == Do(old(Contents()), Action.Fetch(name, flight))
    {
      if Stored(name) in held {
        Copy(Stored(name), Flight(flight));
      }
    }

    method Fill(flight: nat, name: string)
      requires Valid()
      modifies this
      ensures Valid() && fresh(repr - old(repr)) && Contents() == Do(old(Contents()), Action.Fill(flight, name))
    {
      if Flight(flight) in held {
        Copy(Flight(flight), Cached(name));
      }
    }

    method Deliver(flight: nat, caller: nat)
      requires Valid()
      modifies this
      ensures Valid() && fresh(repr - old(repr)) && Contents() == Do(old(Contents()), Action.Deliver(flight, caller))
    {
      if Flight(flight) in held {
        Copy(Flight(flight), Loan(caller));
      }
    }

    method Save(caller: nat, name: string)
      requires Valid()
      modifies this
      ensures Valid() && fresh(repr - old(repr)) && Contents() == Do(old(Contents()), Action.Save(caller, name))
    {
      if Loan(caller) in held {
        Copy(Loan(caller), Stored(name));
        Copy(Loan(caller), Cached(name));
      }
    }

    method Delete(name: string)
      requires Valid()
      modifies this
      ensures Valid() && repr == old(repr) && Contents() == Do(old(Contents()), Action.Delete(name))
    {
      ghost var before := Contents();
      Forget(Stored(name));
      Forget(Cached(name));
      assert before - {Stored(name)} - {Cached(name)} == before - {Stored(name), Cached(name)};
    }

    // A caller writes through its own reference; only that record's objects may change.
    method Scribble(caller: nat, e: Edit, ghost before: Values)
      requires Valid() && Loan(caller) in held && before == Contents()
      modifies held[Loan(caller)].foot
      ensures held == old(held) && repr == old(repr) && this !in held[Loan(caller)].foot && Apart()
      ensures var r := held[Loan(caller)];
              r.Valid() && r.Value() == Edited(before[Loan(caller)], e) && fresh(r.foot - old(r.foot))
      ensures forall s | s in held && s != Loan(caller) ::
                held[s].foot == old(held[s].foot) && held[s].Valid() && held[s].Value() == before[s]
    {
      var r := held[Loan(caller)];
      assert forall s | s in held && s != Loan(caller) :: held[s].foot !! r.foot;
      r.Apply(e);
    }

    // The objects a caller added to its record become part of it.
    ghost method Adopt(k: Slot, after: Values)
      requires k in held && this !in repr && this !in held[k].foot && Apart()
      requires forall s | s in held :: held[s] in repr && held[s].Valid() && (s != k ==> held[s].foot <= repr)
      requires after.Keys == held.Keys && forall s | s in held :: held[s].Value() == after[s]
      modifies this`repr
      ensures Valid() && repr == old(repr) + held[k].foot && Contents() == after
    {
      repr := repr + held[k].foot;
      assert forall s | s in held :: held[s].Value() == after[s];
    }

    method Write(caller: nat, e: Edit)
      requires Valid() && Loan(caller) in held
      modifies this`repr, held[Loan(caller)].foot
      ensures Valid() && fresh(repr - old(repr)) && held == old(held)
      ensures Contents() == Do(old(Contents()), Action.Write(caller, e))
    {
      ghost var before := Contents();
      Scribble(caller, e, before);
      Adopt(Loan(caller), before[Loan(caller) := Edited(before[Loan(caller)], e)]);
    }

    lemma ContentsAre(before: Values, to: Slot, x: RawRecord)
      requires Valid() && to in held && before.Keys + {to} == held.Keys && held[to].Value() == x
      requires forall s | s in held && s != to :: held[s].Value() == before[s]
      ensures Contents() == before[to := x]
    {}
  }

  method CloneTable(from: Table) returns (t: Table)
    ensures fresh(t) && fresh(t.Slices()) && t.Separate() && t.Contents() == from.Contents()
  {
    t := new Table();
    var left := from.cells.Keys;
    while left != {}
      invariant left <= from.cells.Keys && t.cells.Keys == from.cells.Keys - left
      invariant forall v | v in t.cells :: Slice(t.cells[v]) == Slice(from.cells[v])
      invariant forall v | v in t.cells && t.cells[v] != null :: fresh(t.cells[v])
      invariant t.Separate()
      decreases |left|
    {
      var v :| v in left;
      left := left - {v};
      var s := CloneSlice(from.cells[v]);
      t.cells := t.cells[v := s];
    }
  }
}
