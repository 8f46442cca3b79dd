/** The ts1p-meta field: a record as JSON text and back (backend/onepassword/onepassword.go). */

module Order {
  import opened Records
  import Decimal

  // The deleted list is sorted by number; encoding/json sorts map keys as text.
  datatype Ordering = ByNumber | ByText

  predicate TextLeq(a: string, b: string) {
    a == [] || (b != [] && (a[0] < b[0] || (a[0] == b[0] && TextLeq(a[1..], b[1..]))))
  }

  predicate Leq(o: Ordering, a: Version, b: Version) {
    match o
    case ByNumber => a <= b
    case ByText => TextLeq(Decimal.Print(a), Decimal.Print(b))
  }

  lemma {:induction false} TextTotal(a: string, b: string)
    ensures TextLeq(a, b) || TextLeq(b, a)
    ensures TextLeq(a, b) && TextLeq(b, a) ==> a == b
  {
    if a != [] && b != [] {
      TextTotal(a[1..], b[1..]);
      assert a == [a[0]] + a[1..] && b == [b[0]] + b[1..];
    }
  }

  lemma {:induction false} TextTransitive(a: string, b: string, c: string)
    requires TextLeq(a, b) && TextLeq(b, c)
    ensures TextLeq(a, c)
  {
    if a != [] && a[0] == b[0] && b[0] == c[0] {
      TextTransitive(a[1..], b[1..], c[1..]);
    }
  }

  lemma Total(o: Ordering, a: Version, b: Version)
    ensures Leq(o, a, b) || Leq(o, b, a)
    ensures Leq(o, a, b) && Leq(o, b, a) ==> a == b
  {
    TextTotal(Decimal.Print(a), Decimal.Print(b));
    if Decimal.Print(a) == Decimal.Print(b) {
      Decimal.Injective(a, b);
    }
  }

  lemma Transitive(o: Ordering, a: Version, b: Version, c: Version)
    requires Leq(o, a, b) && Leq(o, b, c)
    ensures Leq(o, a, c)
  {
    if o.ByText? {
      TextTransitive(Decimal.Print(a), Decimal.Print(b), Decimal.Print(c));
    }
  }

  predicate IsLeast(s: set<Version>, o: Ordering, m: Version) {
    m in s && forall x | x in s :: Leq(o, m, x)
  }

  lemma {:induction false} LeastExists(s: set<Version>, o: Ordering) returns (m: Version)
    requires s != {}
    ensures IsLeast(s, o, m)
  {
    var y :| y in s;
    Total(o, y, y);
    if s == {y} {
      m := y;
    } else {
      var l := LeastExists(s - {y}, o);
      Total(o, l, y);
      m := if Leq(o, l, y) then l else y;
      forall x | x in s
        ensures Leq(o, m, x)
      {
        if x != y && m == y {
          Transitive(o, y, l, x);
        }
      }
    }
  }

  lemma LeastIsUnique(s: set<Version>, o: Ordering)
    ensures forall l, m | IsLeast(s, o, l) && IsLeast(s, o, m) :: l == m
  {
    forall l, m | IsLeast(s, o, l) && IsLeast(s, o, m)
      ensures l == m
    {
      Total(o, l, m);
    }
  }

  function Least(s: set<Version>, o: Ordering): (m: Version)
    requires s != {}
    ensures IsLeast(s, o, m)
  {
    assert exists x :: IsLeast(s, o, x) by {
      var x := LeastExists(s, o);
    }
    LeastIsUnique(s, o);
    var m :| m in s && IsLeast(s, o, m);
    m
  }

  // The members of a set in order.
  function Arrange(s: set<Version>, o: Ordering): (r: seq<Version>)
    ensures forall v :: v in r <==> v in s
  {
    if s == {} then [] else var m := Least(s, o); [m] + Arrange(s - {m}, o)
  }

  lemma ArrangeStep(s: set<Version>, o: Ordering, m: Version)
    requires IsLeast(s, o, m)
    ensures Arrange(s, o) == [m] + Arrange(s - {m}, o)
  {
    LeastIsUnique(s, o);
  }

  lemma SkipsOver(s: set<Version>, o: Ordering, v: Version, m: Version)
    requires IsLeast(s, o, m) && m != v
    ensures Arrange(s - {v}, o) == [m] + Arrange(s - {m} - {v}, o)
  {
    ArrangeStep(s - {v}, o, m);
    assert s - {v} - {m} == s - {m} - {v};
  }

  // The arrangement with v is the one without v, and v in one more place.
  predicate Inserted(whole: seq<Version>, without: seq<Version>, a: seq<Version>, v: Version, b: seq<Version>) {
    whole == a + [v] + b && without == a + b
  }

  lemma InsertedAfter(whole: seq<Version>, without: seq<Version>, a: seq<Version>, v: Version, b: seq<Version>,
                      m: Version)
    requires Inserted(whole, without, a, v, b)
    ensures Inserted([m] + whole, [m] + without, [m] + a, v, b)
  {}

  // Taking one member out of a set takes one place out of its arrangement.
  lemma {:induction false} ArrangeWithout(s: set<Version>, o: Ordering, v: Version) returns (a: seq<Version>,
                                          b: seq<Version>)
    requires v in s
    ensures Inserted(Arrange(s, o), Arrange(s - {v}, o), a, v, b)
  {
    var m := Least(s, o);
    if m == v {
      a, b := [], Arrange(s - {v}, o);
    } else {
      a, b := ArrangeWithout(s - {m}, o, v);
      SkipsOver(s, o, v, m);
      InsertedAfter(Arrange(s - {m}, o), Arrange(s - {m} - {v}, o), a, v, b, m);
      a := [m] + a;
    }
  }

  // The arrangement is strictly sorted, so it is the only one.
  lemma {:induction false} ArrangeIsSorted(s: set<Version>, o: Ordering)
    ensures forall i, j | 0 <= i < j < |Arrange(s, o)| ::
              Leq(o, Arrange(s, o)[i], Arrange(s, o)[j]) && Arrange(s, o)[i] != Arrange(s, o)[j]
  {
    if s != {} {
      ArrangeIsSorted(s - {Least(s, o)}, o);
    }
  }
}

module Meta {
  import opened Wrappers
  import opened Records
  import opened Json
  import opened Order
  import Decimal
  import Base64

  datatype MetaError = Malformed | Inconsistent

  // An empty record is let through; otherwise the active version is live and no version exceeds the latest.
  predicate Consistent(r: RawRecord) {
    |Entries(r)| == 0 || (r.active in Entries(r) && forall v | v in Entries(r) :: v <= r.latest)
  }

  function ValueJson(b: Nilable<Bytes>): Json {
    if b.Nil? then Null else Text(Base64.Encode(b.v))
  }

  function EntryJson(m: map<Version, Nilable<Bytes>>, v: Version): Member
    requires v in m
  {
    Member(Decimal.Print(v), ValueJson(m[v]))
  }

  function EntriesJson(m: map<Version, Nilable<Bytes>>, order: seq<Version>): seq<Member>
    requires forall v | v in order :: v in m
  {
    if order == [] then [] else [EntryJson(m, order[0])] + EntriesJson(m, order[1..])
  }

  function NumbersJson(order: seq<Version>): seq<Json> {
    if order == [] then [] else [Number(order[0])] + NumbersJson(order[1..])
  }

  function VersionsJson(r: RawRecord): Json {
    if r.versions.Nil? then Null else Object(EntriesJson(r.versions.v, Arrange(r.versions.v.Keys, ByText)))
  }

  function DeletedJson(r: RawRecord): Json {
    Array(NumbersJson(Arrange(DeletedOf(r), ByNumber)))
  }

  // The deleted list is omitted when empty.
  function MetaJson(r: RawRecord): Json {
    Object([Member("active", Number(r.active)), Member("latest", Number(r.latest)), Member("versions", VersionsJson(r))]
           + if DeletedOf(r) == {} then [] else [Member("deleted", DeletedJson(r))])
  }

  function Encode(r: RawRecord): Result<string, MetaError> {
    if Consistent(r) then Ok(Print(MetaJson(r))) else Err(Inconsistent)
  }

  // --- reading ---

  // The last member with a given key.
  function Field(ms: seq<Member>, key: string): Option<Json> {
    if ms == [] then None
    else if ms[|ms| - 1].key == key then Some(ms[|ms| - 1].value)
    else Field(ms[..|ms| - 1], key)
  }

  function ReadVersion(j: Option<Json>): Result<Version, MetaError> {
    match j
    case None => Ok(0)
    case Some(Null) => Ok(0)
    case Some(Number(n)) => if n <= MAX_VERSION then Ok(n) else Err(Malformed)
    case _ => Err(Malformed)
  }

  function ReadKey(s: string): Result<Version, MetaError> {
    if s != [] && Decimal.AllDigits(s) && Decimal.Value(s) <= MAX_VERSION then Ok(Decimal.Value(s)) else Err(Malformed)
  }

  function ReadValue(j: Json): Result<Nilable<Bytes>, MetaError> {
    match j
    case Null => Ok(Nil)
    case Text(s) => if Base64.Decode(s).Some? then Ok(Val(Base64.Decode(s).value)) else Err(Malformed)
    case _ => Err(Malformed)
  }

  // A key given twice keeps its last value.
  function ReadEntries(ms: seq<Member>): Result<map<Version, Nilable<Bytes>>, MetaError> {
    if ms == [] then Ok(map[])
    else
      var m := ms[|ms| - 1];
      var k, b, rest := ReadKey(m.key), ReadValue(m.value), ReadEntries(ms[..|ms| - 1]);
      if k.Err? || b.Err? || rest.Err? then Err(Malformed) else Ok(rest.value[k.value := b.value])
  }

  function ReadVersions(j: Option<Json>): Result<Nilable<map<Version, Nilable<Bytes>>>, MetaError> {
    match j
    case None => Ok(Nil)
    case Some(Null) => Ok(Nil)
    case Some(Object(ms)) => var m := ReadEntries(ms); if m.Err? then Err(Malformed) else Ok(Val(m.value))
    case _ => Err(Malformed)
  }

  function ReadNumbers(items: seq<Json>): Result<set<Version>, MetaError> {
    if items == [] then Ok({})
    else
      var v, rest := ReadVersion(Some(items[0])), ReadNumbers(items[1..]);
      if v.Err? || rest.Err? then Err(Malformed) else Ok({v.value} + rest.value)
  }

  function ReadDeleted(j: Option<Json>): Result<set<Version>, MetaError> {
    match j
    case None => Ok({})
    case Some(Null) => Ok({})
    case Some(Array(items)) => ReadNumbers(items)
    case _ => Err(Malformed)
  }

  function FromJson(name: string, j: Json): Result<RawRecord, MetaError> {
    if !j.Object? then Err(Malformed)
    else
      var a, l := ReadVersion(Field(j.members, "active")), ReadVersion(Field(j.members, "latest"));
      var vs, ds := ReadVersions(Field(j.members, "versions")), ReadDeleted(Field(j.members, "deleted"));
      if a.Err? || l.Err? || vs.Err? || ds.Err? then Err(Malformed)
      else
        var live := if vs.value.Nil? then map[] else vs.value.v;
        Ok(RawRecord(name, Val(live), a.value, l.value, if ds.value == {} then Nil else Val(ds.value)))
  }

  function Decode(name: string, text: string): Result<RawRecord, MetaError> {
    var j := ReadAll(text);
    if j.None? then Err(Malformed)
    else
      var r := FromJson(name, j.value);
      if r.Err? then r else if Consistent(r.value) then r else Err(Inconsistent)
  }

  // --- the round trip ---

  // What comes back: every value as it was, nil or empty; the maps no longer nil; no empty deleted set.
  function Normal(r: RawRecord): RawRecord {
    r.(versions := Val(Entries(r)), deleted := if DeletedOf(r) == {} then Nil else Val(DeletedOf(r)))
  }

  lemma NormalIsEqual(r: RawRecord)
    ensures Equal(Normal(r), r)
  {
    EqualIsSameMeaning(Normal(r), r);
  }

  lemma {:induction false} EncodedIsPlain(b: Bytes)
    ensures Plain(Base64.Encode(b))
  {
    Base64.EncodeStaysInAlphabet(b);
    forall i | 0 <= i < |Base64.Encode(b)|
      ensures PlainChar(Base64.Encode(b)[i])
    {
      assert Base64.InAlphabet(Base64.Encode(b)[i]);
    }
  }

  lemma ValueRoundTrip(b: Nilable<Bytes>)
    ensures ReadValue(ValueJson(b)) == Ok(b) && Printable(ValueJson(b))
  {
    if b.Val? {
      Base64.RoundTrip(b.v);
      EncodedIsPlain(b.v);
    }
  }

  lemma KeyRoundTrip(v: Version)
    ensures ReadKey(Decimal.Print(v)) == Ok(v) && Plain(Decimal.Print(v))
  {
    Decimal.RoundTrip(v);
    forall i | 0 <= i < |Decimal.Print(v)|
      ensures PlainChar(Decimal.Print(v)[i])
    {
      assert Decimal.IsDigit(Decimal.Print(v)[i]);
    }
  }

  lemma {:induction false} EntriesLast(m: map<Version, Nilable<Bytes>>, order: seq<Version>, v: Version)
    requires v in m && forall w | w in order :: w in m
    ensures EntriesJson(m, order + [v]) == EntriesJson(m, order) + [EntryJson(m, v)]
  {
    if order != [] {
      assert (order + [v])[1..] == order[1..] + [v];
      EntriesLast(m, order[1..], v);
    }
  }

  lemma {:induction false} EntriesArePrintable(m: map<Version, Nilable<Bytes>>, order: seq<Version>)
    requires forall v | v in order :: v in m
    ensures Printable(Object(EntriesJson(m, order)))
  {
    if order != [] {
      EntriesArePrintable(m, order[1..]);
      KeyRoundTrip(order[0]);
      ValueRoundTrip(m[order[0]]);
    }
  }

  function Only(m: map<Version, Nilable<Bytes>>, order: seq<Version>): map<Version, Nilable<Bytes>>
    requires forall v | v in order :: v in m
  {
    map v | v in order :: m[v]
  }

  function Members(order: seq<Version>): set<Version> {
    set v | v in order
  }

  lemma ReadLastEntry(ms: seq<Member>, m: Member, v: Version, b: Nilable<Bytes>, front: map<Version, Nilable<Bytes>>)
    requires ReadEntries(ms) == Ok(front) && ReadKey(m.key) == Ok(v) && ReadValue(m.value) == Ok(b)
    ensures ReadEntries(ms + [m]) == Ok(front[v := b])
  {
    assert (ms + [m])[..|ms|] == ms;
  }

  lemma {:induction false} EntriesRoundTrip(m: map<Version, Nilable<Bytes>>, order: seq<Version>)
    requires forall v | v in order :: v in m
    ensures ReadEntries(EntriesJson(m, order)) == Ok(Only(m, order))
  {
    if order != [] {
      var front, v := order[..|order| - 1], order[|order| - 1];
      assert order == front + [v];
      EntriesRoundTrip(m, front);
      EntriesLast(m, front, v);
      KeyRoundTrip(v);
      ValueRoundTrip(m[v]);
      ReadLastEntry(EntriesJson(m, front), EntryJson(m, v), v, m[v], Only(m, front));
      assert Only(m, order) == Only(m, front)[v := m[v]];
    }
  }

  lemma {:induction false} NumbersArePrintable(order: seq<Version>)
    ensures Printable(Array(NumbersJson(order)))
  {
    if order != [] {
      NumbersArePrintable(order[1..]);
    }
  }

  lemma {:induction false} NumbersRoundTrip(order: seq<Version>)
    ensures ReadNumbers(NumbersJson(order)) == Ok(Members(order))
  {
    if order == [] {
      assert Members(order) == {};
    } else {
      NumbersRoundTrip(order[1..]);
      assert ReadVersion(Some(Number(order[0]))) == Ok(order[0]);
      assert NumbersJson(order)[0] == Number(order[0]) && NumbersJson(order)[1..] == NumbersJson(order[1..]);
      assert Members(order) == {order[0]} + Members(order[1..]);
    }
  }

  lemma VersionsRoundTrip(r: RawRecord)
    ensures ReadVersions(Some(VersionsJson(r))) == Ok(r.versions) && Printable(VersionsJson(r))
  {
    if r.versions.Val? {
      var m := r.versions.v;
      var order := Arrange(m.Keys, ByText);
      EntriesRoundTrip(m, order);
      EntriesArePrintable(m, order);
      assert Only(m, order) == m;
    }
  }

  lemma DeletedRoundTrip(r: RawRecord)
    ensures ReadDeleted(Some(DeletedJson(r))) == Ok(DeletedOf(r)) && Printable(DeletedJson(r))
  {
    var order := Arrange(DeletedOf(r), ByNumber);
    NumbersRoundTrip(order);
    NumbersArePrintable(order);
    assert Members(order) == DeletedOf(r);
  }

  lemma FieldLast(ms: seq<Member>, m: Member, key: string)
    ensures Field(ms + [m], key) == if m.key == key then Some(m.value) else Field(ms, key)
  {
    assert (ms + [m])[..|ms|] == ms;
  }

  lemma FieldOfMeta(r: RawRecord, key: string)
    ensures Field(MetaJson(r).members, key) ==
            if key == "deleted" && DeletedOf(r) != {} then Some(DeletedJson(r))
            else if key == "versions" then Some(VersionsJson(r))
            else if key == "latest" then Some(Number(r.latest))
            else if key == "active" then Some(Number(r.active)) else None
  {
    var a, l, v := Member("active", Number(r.active)), Member("latest", Number(r.latest)), Member("versions", VersionsJson(r));
    FieldLast([], a, key);
    FieldLast([a], l, key);
    FieldLast([a, l], v, key);
    FieldLast([a, l, v], Member("deleted", DeletedJson(r)), key);
    assert [] + [a] == [a] && [a] + [l] == [a, l] && [a, l] + [v] == [a, l, v];
    assert [a, l, v] + [] == [a, l, v];
  }

  lemma MetaIsPrintable(r: RawRecord)
    ensures Printable(MetaJson(r))
  {
    VersionsRoundTrip(r);
    DeletedRoundTrip(r);
    assert Plain("active") && Plain("latest") && Plain("versions") && Plain("deleted");
  }

  lemma JsonRoundTrip(r: RawRecord)
    ensures FromJson(r.name, MetaJson(r)) == Ok(Normal(r))
  {
    FieldOfMeta(r, "active");
    FieldOfMeta(r, "latest");
    FieldOfMeta(r, "versions");
    FieldOfMeta(r, "deleted");
    VersionsRoundTrip(r);
    DeletedRoundTrip(r);
  }

  // Decoding the encoded text under the record's name gives the record back, equal to what was encoded.
  lemma RoundTrip(r: RawRecord)
    requires Consistent(r)
    ensures Decode(r.name, Encode(r).value) == Ok(Normal(r)) && Equal(Normal(r), r)
  {
    MetaIsPrintable(r);
    TextRoundTrip(MetaJson(r));
    JsonRoundTrip(r);
    NormalIsEqual(r);
  }

  // --- the size of the text ---

  // What one entry of an object, or one item of an array, adds to the text, its separator included.
  function MemberSize(m: Member): nat {
    |m.key| + 4 + |Print(m.value)|
  }

  function MembersSize(ms: seq<Member>): nat {
    if ms == [] then 0 else MemberSize(ms[0]) + MembersSize(ms[1..])
  }

  function ItemsSize(items: seq<Json>): nat {
    if items == [] then 0 else |Print(items[0])| + 1 + ItemsSize(items[1..])
  }

  lemma {:induction false} PrintedMembers(ms: seq<Member>)
    requires ms != []
    ensures |PrintMembers(ms)| == MembersSize(ms)
  {
    if |ms| > 1 {
      PrintedMembers(ms[1..]);
    }
  }

  lemma {:induction false} PrintedItems(items: seq<Json>)
    requires items != []
    ensures |PrintItems(items)| == ItemsSize(items)
  {
    if |items| > 1 {
      PrintedItems(items[1..]);
    }
  }

  lemma {:induction false} EntriesSizeWithout(m: map<Version, Nilable<Bytes>>, a: seq<Version>, v: Version,
                                              b: seq<Version>)
    requires v in m && forall w | w in a + b :: w in m
    ensures MembersSize(EntriesJson(m, a + [v] + b)) == MembersSize(EntriesJson(m, a + b)) + MemberSize(EntryJson(m, v))
  {
    if a == [] {
      assert a + [v] + b == [v] + b && a + b == b;
    } else {
      assert (a + [v] + b)[1..] == a[1..] + [v] + b && (a + b)[1..] == a[1..] + b;
      EntriesSizeWithout(m, a[1..], v, b);
    }
  }

  lemma {:induction false} NumbersSizeWithout(a: seq<Version>, v: Version, b: seq<Version>)
    ensures ItemsSize(NumbersJson(a + [v] + b)) == ItemsSize(NumbersJson(a + b)) + |Decimal.Print(v)| + 1
  {
    if a == [] {
      assert a + [v] + b == [v] + b && a + b == b;
    } else {
      assert (a + [v] + b)[1..] == a[1..] + [v] + b && (a + b)[1..] == a[1..] + b;
      NumbersSizeWithout(a[1..], v, b);
    }
  }

  lemma {:induction false} SameEntries(m: map<Version, Nilable<Bytes>>, n: map<Version, Nilable<Bytes>>,
                                       order: seq<Version>)
    requires forall w | w in order :: w in m && w in n && m[w] == n[w]
    ensures EntriesJson(m, order) == EntriesJson(n, order)
  {
    if order != [] {
      SameEntries(m, n, order[1..]);
    }
  }

  function EntriesSize(m: map<Version, Nilable<Bytes>>): nat {
    MembersSize(EntriesJson(m, Arrange(m.Keys, ByText)))
  }

  function NumbersSize(s: set<Version>): nat {
    ItemsSize(NumbersJson(Arrange(s, ByNumber)))
  }

  lemma EntriesTextSize(m: map<Version, Nilable<Bytes>>, x: Version)
    requires x in m
    ensures |Print(Object(EntriesJson(m, Arrange(m.Keys, ByText))))| == 1 + EntriesSize(m)
  {
    assert x in Arrange(m.Keys, ByText);
    PrintedMembers(EntriesJson(m, Arrange(m.Keys, ByText)));
  }

  lemma NumbersTextSize(s: set<Version>)
    requires s != {}
    ensures |Print(Array(NumbersJson(Arrange(s, ByNumber))))| == 1 + NumbersSize(s)
  {
    var x :| x in s;
    assert x in Arrange(s, ByNumber);
    PrintedItems(NumbersJson(Arrange(s, ByNumber)));
  }

  // The versions object loses exactly v's entry.
  lemma EntriesShrink(m: map<Version, Nilable<Bytes>>, v: Version)
    requires v in m
    ensures EntriesSize(m) == EntriesSize(m - {v}) + MemberSize(EntryJson(m, v))
  {
    var a, b := ArrangeWithout(m.Keys, ByText, v);
    assert (m - {v}).Keys == m.Keys - {v};
    EntriesSizeWithout(m, a, v, b);
    SameEntries(m, m - {v}, a + b);
  }

  // The deleted list gains exactly v.
  lemma NumbersGrow(s: set<Version>, v: Version)
    requires v !in s
    ensures NumbersSize(s + {v}) == NumbersSize(s) + |Decimal.Print(v)| + 1
  {
    var a, b := ArrangeWithout(s + {v}, ByNumber, v);
    assert s + {v} - {v} == s;
    NumbersSizeWithout(a, v, b);
  }

  function Size(r: RawRecord): nat {
    |Print(MetaJson(r))|
  }

  // The record after delete-version.
  function Without(r: RawRecord, v: Version): RawRecord {
    r.(versions := Val(Entries(r) - {v}), deleted := Val(DeletedOf(r) + {v}))
  }

  lemma {:induction false} SizeWithLast(ms: seq<Member>, m: Member)
    ensures MembersSize(ms + [m]) == MembersSize(ms) + MemberSize(m)
  {
    if ms == [] {
      assert ms + [m] == [m];
    } else {
      assert (ms + [m])[1..] == ms[1..] + [m];
      SizeWithLast(ms[1..], m);
    }
  }

  lemma HeadSize(r: RawRecord, x: Version)
    requires x in Entries(r)
    ensures MembersSize(MetaJson(r.(deleted := Nil)).members)
            == 33 + |Decimal.Print(r.active)| + |Decimal.Print(r.latest)| + EntriesSize(Entries(r))
  {
    var a, l, v := Member("active", Number(r.active)), Member("latest", Number(r.latest)), Member("versions", VersionsJson(r));
    EntriesTextSize(Entries(r), x);
    SizeWithLast([], a);
    SizeWithLast([a], l);
    SizeWithLast([a, l], v);
    assert [] + [a] == [a] && [a] + [l] == [a, l] && [a, l] + [v] == [a, l, v];
    assert MetaJson(r.(deleted := Nil)).members == [a, l, v];
  }

  // The text of the whole record, by its parts.
  function TextSize(r: RawRecord): nat {
    34 + |Decimal.Print(r.active)| + |Decimal.Print(r.latest)| + EntriesSize(Entries(r))
    + if DeletedOf(r) == {} then 0 else 12 + NumbersSize(DeletedOf(r))
  }

  lemma DeletedTextSize(r: RawRecord)
    requires DeletedOf(r) != {}
    ensures MemberSize(Member("deleted", DeletedJson(r))) == 12 + NumbersSize(DeletedOf(r))
  {
    NumbersTextSize(DeletedOf(r));
  }

  lemma TopSize(r: RawRecord, x: Version)
    requires x in Entries(r)
    ensures Size(r) == TextSize(r)
  {
    var head, d := MetaJson(r.(deleted := Nil)).members, Member("deleted", DeletedJson(r));
    HeadSize(r, x);
    PrintedMembers(MetaJson(r).members);
    if DeletedOf(r) == {} {
      assert MetaJson(r).members == head;
    } else {
      SizeWithLast(head, d);
      assert MetaJson(r).members == head + [d];
      DeletedTextSize(r);
    }
  }

  // The text of one value: null, or base64 in quotes.
  function ValueSize(b: Nilable<Bytes>): nat {
    if b.Nil? then 4 else (|b.v| + 2) / 3 * 4 + 2
  }

  lemma ValueTextSize(b: Nilable<Bytes>)
    ensures |Print(ValueJson(b))| == ValueSize(b)
  {
    if b.Val? {
      Base64.EncodedLength(b.v);
    }
  }

  // Exactly how deleting a version changes the size of the text: its entry goes, its number appears in
  // the deleted list, and so does the list itself if it was omitted.
  lemma DeleteVersionSize(r: RawRecord, v: Version)
    requires v in Entries(r) && v != r.active && r.active in Entries(r) && v !in DeletedOf(r)
    ensures Size(Without(r, v)) == Size(r) - ValueSize(Entries(r)[v]) - 3 + if DeletedOf(r) == {} then 12 else 0
  {
    var w := Without(r, v);
    assert NumbersSize({}) == 0;
    assert r.active in Entries(w);
    TopSize(r, v);
    TopSize(w, r.active);
    EntriesShrink(Entries(r), v);
    NumbersGrow(DeletedOf(r), v);
    ValueTextSize(Entries(r)[v]);
  }

  lemma WithoutIsConsistent(r: RawRecord, v: Version)
    requires Consistent(r) && v in Entries(r) && v != r.active
    ensures Consistent(Without(r, v)) && r.active in Entries(r)
  {
    assert |Entries(r)| != 0;
    assert r.active in Entries(Without(r, v));
  }

  lemma LongValue(b: Nilable<Bytes>)
    ensures ValueSize(b) > 9 <==> |BytesOf(b)| >= 4
  {}

  // Deleting a version makes the text strictly shorter exactly when some version is already deleted or
  // the removed value has at least four bytes.
  lemma {:induction false} DeleteVersionShrinksIff(r: RawRecord, v: Version)
    requires Consistent(r) && v in Entries(r) && v != r.active && v !in DeletedOf(r)
    ensures Size(Without(r, v)) < Size(r) <==> DeletedOf(r) != {} || |BytesOf(Entries(r)[v])| >= 4
    ensures Consistent(Without(r, v))
  {
    WithoutIsConsistent(r, v);
    DeleteVersionSize(r, v);
    LongValue(Entries(r)[v]);
  }

  // --- the concrete text ---

  lemma One(m: map<Version, Nilable<Bytes>>, v: Version, o: Ordering)
    requires m.Keys == {v}
    ensures Arrange(m.Keys, o) == [v]
  {
    Total(o, v, v);
    ArrangeStep({v}, o, v);
    assert {v} - {v} == {};
  }

  // A record is written, and one read back accepted, only if its active version is live and no live version exceeds
  // the latest, or it has no live version at all.
  lemma OnlySoundRecords(name: string, text: string, r: RawRecord)
    ensures Encode(r).Ok? <==>
              Entries(r) == map[] || (r.active in Entries(r) && forall v | v in Entries(r) :: v <= r.latest)
    ensures Decode(name, text).Ok? ==>
              var d := Decode(name, text).value;
              d.name == name && (Entries(d) == map[] || (d.active in Entries(d) && forall v | v in Entries(d) :: v <= d.latest))
  {}

  lemma ThreeMembers(a: string, l: string, v: string, t: string)
    ensures "{" + (Quote("active") + ":" + a + ("," + (Quote("latest") + ":" + l + ("," + (Quote("versions") + ":" + v + t)))))
            == "{\"active\":" + a + ",\"latest\":" + l + ",\"versions\":" + v + t
  {
    assert "{" + (Quote("active") + ":") == "{\"active\":";
    assert "," + (Quote("latest") + ":") == ",\"latest\":";
    assert "," + (Quote("versions") + ":") == ",\"versions\":";
    var x := "," + (Quote("versions") + ":" + v + t);
    assert x == ",\"versions\":" + v + t;
    var y := "," + (Quote("latest") + ":" + l + x);
    assert y == ",\"latest\":" + l + x;
    assert y == ",\"latest\":" + l + ",\"versions\":" + v + t;
    assert "{" + (Quote("active") + ":" + a + y) == "{\"active\":" + a + y;
  }

  // What follows the versions.
  function Ending(r: RawRecord): string {
    (if DeletedOf(r) == {} then "" else ",\"deleted\":" + Print(DeletedJson(r))) + "}"
  }

  function Deletions(r: RawRecord): seq<Member> {
    if DeletedOf(r) == {} then [] else [Member("deleted", DeletedJson(r))]
  }

  lemma EndingIs(r: RawRecord)
    ensures Ending(r) == if Deletions(r) == [] then "}" else "," + PrintMembers(Deletions(r))
  {
    if DeletedOf(r) == {} {
      assert "" + "}" == "}";
    } else {
      assert "," + (Quote("deleted") + ":") == ",\"deleted\":";
      assert "," + (Quote("deleted") + ":" + Print(DeletedJson(r)) + "}") == ",\"deleted\":" + Print(DeletedJson(r)) + "}";
    }
  }

  // The text of any record: its members in this order, the last one only if something was deleted.
  lemma TextIs(r: RawRecord)
    requires Consistent(r)
    ensures Encode(r) == Ok("{\"active\":" + Decimal.Print(r.active) + ",\"latest\":" + Decimal.Print(r.latest)
                            + ",\"versions\":" + Print(VersionsJson(r)) + Ending(r))
  {
    var a, l, v := Member("active", Number(r.active)), Member("latest", Number(r.latest)), Member("versions", VersionsJson(r));
    var d := Deletions(r);
    EndingIs(r);
    LastMember(v, d);
    LastMember(l, [v] + d);
    LastMember(a, [l] + ([v] + d));
    assert [a, l, v] + d == [a] + ([l] + ([v] + d));
    ThreeMembers(Decimal.Print(r.active), Decimal.Print(r.latest), Print(VersionsJson(r)), Ending(r));
  }

  lemma LastMember(m: Member, rest: seq<Member>)
    ensures PrintMembers([m] + rest) ==
            Quote(m.key) + ":" + Print(m.value) + if rest == [] then "}" else "," + PrintMembers(rest)
  {
    assert ([m] + rest)[1..] == rest;
  }

  // One version's text: its number, and its bytes in base64, both in quotes.
  lemma OneVersionIs(r: RawRecord, v: Version, b: Bytes)
    requires r.versions == Val(map[v := Val(b)])
    ensures Print(VersionsJson(r)) == "{\"" + Decimal.Print(v) + "\":\"" + Base64.Encode(b) + "\"}"
  {
    One(r.versions.v, v, ByText);
    var m := Member(Decimal.Print(v), Text(Base64.Encode(b)));
    assert EntriesJson(r.versions.v, [v]) == [m];
    LastMember(m, []);
    assert [m] + [] == [m];
    assert Print(VersionsJson(r)) == "{" + (Quote(m.key) + ":" + Quote(Base64.Encode(b)) + "}");
  }
}
