/** The persisted form of one secret, and when two records count as equal
    (backend/backend.go). `Record` is the abstract value the version rules work on;
    `RawRecord` is the Go value, in which a slice or map may also be nil. */

module Wrappers {
  datatype Option<+T> = None | Some(value: T)

  datatype Result<+T, +E> = Ok(value: T) | Err(error: E)
}

module Records {
  import opened Wrappers

  // setec's SecretVersion is a 32-bit unsigned integer.
  const MAX_VERSION: nat := 0xFFFF_FFFF

  type Version = v: nat | v <= MAX_VERSION

  type Byte = b: nat | b < 256

  type Bytes = seq<Byte>

  datatype Record = Record(name: string, versions: map<Version, Bytes>, active: Version, latest: Version,
                           deleted: set<Version>)
  {
    // Every version ever assigned, live or deleted.
    function Claimed(): set<Version> {
      versions.Keys + deleted
    }

    predicate IsClaimed(v: Version) {
      v in versions || v in deleted
    }
  }

  // A backend's contents, as the Backend interface shows them.
  type Secrets = map<string, Record>

  // A Go reference that may be nil.
  datatype Nilable<+T> = Nil | Val(v: T)

  datatype RawRecord = RawRecord(name: string, versions: Nilable<map<Version, Nilable<Bytes>>>, active: Version,
                                 latest: Version, deleted: Nilable<set<Version>>)

  function BytesOf(b: Nilable<Bytes>): Bytes {
    if b.Nil? then [] else b.v
  }

  // Reading a nil map finds nothing.
  function Entries(r: RawRecord): map<Version, Nilable<Bytes>> {
    if r.versions.Nil? then map[] else r.versions.v
  }

  function DeletedOf(r: RawRecord): set<Version> {
    if r.deleted.Nil? then {} else r.deleted.v
  }

  // What a Go record means once nil and empty are identified.
  function Meaning(r: RawRecord): Record {
    Record(r.name, map v | v in Entries(r) :: BytesOf(Entries(r)[v]), r.active, r.latest, DeletedOf(r))
  }

  // maps.EqualFunc and maps.Equal compare lengths and then one-sided membership.
  predicate Equal(r: RawRecord, o: RawRecord) {
    && r.name == o.name && r.active == o.active && r.latest == o.latest
    && |Entries(r)| == |Entries(o)|
    && (forall v | v in Entries(r) :: v in Entries(o) && BytesOf(Entries(r)[v]) == BytesOf(Entries(o)[v]))
    && |DeletedOf(r)| == |DeletedOf(o)|
    && (forall v | v in DeletedOf(r) :: v in DeletedOf(o))
  }

  lemma SameSizeSubset<T>(a: set<T>, b: set<T>)
    requires a <= b && |a| == |b|
    ensures a == b
  {
    if a != b {
      var x :| x in b && x !in a;
      assert a <= b - {x};
      Smaller(a, b - {x});
    }
  }

  lemma Smaller<T>(a: set<T>, b: set<T>)
    requires a <= b
    ensures |a| <= |b|
  {
    if a != {} {
      var x :| x in a;
      Smaller(a - {x}, b - {x});
    }
  }

  // The one-sided comparison is exactly equality of meanings; in particular it is an
  // equivalence, and it cannot tell nil from empty anywhere.
  lemma EqualIsSameMeaning(r: RawRecord, o: RawRecord)
    ensures Equal(r, o) <==> Meaning(r) == Meaning(o)
  {
    if Equal(r, o) {
      assert Entries(r).Keys <= Entries(o).Keys;
      SameSizeSubset(Entries(r).Keys, Entries(o).Keys);
      SameSizeSubset(DeletedOf(r), DeletedOf(o));
      assert Meaning(r).versions == Meaning(o).versions;
    }
    if Meaning(r) == Meaning(o) {
      assert Meaning(r).versions.Keys == Entries(r).Keys;
      assert Meaning(o).versions.Keys == Entries(o).Keys;
      forall v | v in Entries(r)
        ensures v in Entries(o) && BytesOf(Entries(r)[v]) == BytesOf(Entries(o)[v])
      {
        assert v in Meaning(o).versions && Meaning(r).versions[v] == Meaning(o).versions[v];
      }
    }
  }
}
