/** The concrete text of a stored record: decimal numbers, base64 (section 4 of RFC 4648) and JSON,
    each with its printer and its reader. The reader works on JSON without insignificant white space
    and without string escapes, which is all the printer produces. */

module Decimal {
  import opened Wrappers

  predicate IsDigit(c: char) {
    '0' <= c <= '9'
  }

  function DigitOf(n: nat): char
    requires n < 10
  {
    ('0' as int + n) as char
  }

  function Print(n: nat): string {
    if n < 10 then [DigitOf(n)] else Print(n / 10) + [DigitOf(n % 10)]
  }

  predicate AllDigits(s: string) {
    forall i | 0 <= i < |s| :: IsDigit(s[i])
  }

  function Value(s: string): nat
    requires AllDigits(s)
  {
    if s == [] then 0 else 10 * Value(s[..|s| - 1]) + (s[|s| - 1] as int - '0' as int)
  }

  // Reading back what was printed; and a printed number has no leading zero.
  lemma {:induction false} RoundTrip(n: nat)
    ensures AllDigits(Print(n)) && Value(Print(n)) == n && 1 <= |Print(n)|
    ensures Print(n)[0] == '0' ==> n == 0 && |Print(n)| == 1
  {
    if n >= 10 {
      RoundTrip(n / 10);
      var s := Print(n);
      assert s[..|s| - 1] == Print(n / 10);
      assert s[0] == Print(n / 10)[0];
    }
  }

  lemma Injective(a: nat, b: nat)
    requires Print(a) == Print(b)
    ensures a == b
  {
    RoundTrip(a);
    RoundTrip(b);
  }

  // How many leading characters are digits.
  function Span(s: string): (k: nat)
    ensures k <= |s| && AllDigits(s[..k]) && (k < |s| ==> !IsDigit(s[k]))
  {
    if s == [] || !IsDigit(s[0]) then 0
    else
      var k := 1 + Span(s[1..]);
      assert forall i | 0 < i < k :: s[i] == s[1..][i - 1];
      k
  }

  lemma {:induction false} SpanOf(a: string, rest: string)
    requires AllDigits(a) && (rest == [] || !IsDigit(rest[0]))
    ensures Span(a + rest) == |a|
  {
    if a == [] {
      assert a + rest == rest;
    } else {
      assert (a + rest)[1..] == a[1..] + rest;
      SpanOf(a[1..], rest);
    }
  }

  // The digits are the usual ones, the first the most significant.
  lemma DigitsAre(n: nat)
    ensures n < 10 ==> Print(n) == ["0123456789"[n]]
    ensures n >= 10 ==> Print(n) == Print(n / 10) + ["0123456789"[n % 10]]
  {}
}

module Base64 {
  import opened Wrappers
  import opened Records

  type Sextet = n: nat | n < 64

  function CharOf(n: Sextet): char {
    if n < 26 then ('A' as int + n) as char
    else if n < 52 then ('a' as int + n - 26) as char
    else if n < 62 then ('0' as int + n - 52) as char
    else if n == 62 then '+' else '/'
  }

  function SextetOf(c: char): Option<Sextet> {
    if 'A' <= c <= 'Z' then Some(c as int - 'A' as int)
    else if 'a' <= c <= 'z' then Some(c as int - 'a' as int + 26)
    else if '0' <= c <= '9' then Some(c as int - '0' as int + 52)
    else if c == '+' then Some(62) else if c == '/' then Some(63) else None
  }

  lemma SextetRoundTrip(n: Sextet)
    ensures SextetOf(CharOf(n)) == Some(n) && CharOf(n) != '='
  {}

  function First(a: Byte): Sextet { a / 4 }
  function Second(a: Byte, b: Byte): Sextet { a % 4 * 16 + b / 16 }
  function Third(b: Byte, c: Byte): Sextet { b % 16 * 4 + c / 64 }
  function Fourth(c: Byte): Sextet { c % 64 }

  // Three bytes make four characters; one or two at the end are padded.
  function Quad(a: Byte, b: Byte, c: Byte): (s: string)
    ensures |s| == 4
  {
    [CharOf(First(a)), CharOf(Second(a, b)), CharOf(Third(b, c)), CharOf(Fourth(c))]
  }

  function Encode(b: Bytes): string {
    if |b| == 0 then ""
    else if |b| == 1 then [CharOf(First(b[0])), CharOf(Second(b[0], 0)), '=', '=']
    else if |b| == 2 then [CharOf(First(b[0])), CharOf(Second(b[0], b[1])), CharOf(Third(b[1], 0)), '=']
    else Quad(b[0], b[1], b[2]) + Encode(b[3..])
  }

  function ByteOne(p: Sextet, q: Sextet): Byte { p * 4 + q / 16 }
  function ByteTwo(q: Sextet, r: Sextet): Byte { q % 16 * 16 + r / 4 }
  function ByteThree(r: Sextet, s: Sextet): Byte { r % 4 * 64 + s }

  // Padding may only end the text; spare low bits are ignored, as the standard decoder does.
  function Decode(s: string): Option<Bytes> {
    if |s| == 0 then Some([])
    else if |s| < 4 then None
    else
      var p, q, r, t := SextetOf(s[0]), SextetOf(s[1]), SextetOf(s[2]), SextetOf(s[3]);
      if p.None? || q.None? then None
      else if |s| == 4 && s[2] == '=' && s[3] == '=' then Some([ByteOne(p.value, q.value)])
      else if r.None? then None
      else if |s| == 4 && s[3] == '=' then Some([ByteOne(p.value, q.value), ByteTwo(q.value, r.value)])
      else if t.None? then None
      else
        var tail := Decode(s[4..]);
        if tail.None? then None
        else Some([ByteOne(p.value, q.value), ByteTwo(q.value, r.value), ByteThree(r.value, t.value)] + tail.value)
  }

  lemma GroupRoundTrip(a: Byte, b: Byte, c: Byte)
    ensures ByteOne(First(a), Second(a, b)) == a
    ensures ByteTwo(Second(a, b), Third(b, c)) == b
    ensures ByteThree(Third(b, c), Fourth(c)) == c
  {}

  // A full group of three bytes, whatever follows it.
  lemma QuadRoundTrip(a: Byte, b: Byte, c: Byte, rest: string)
    ensures Decode(Quad(a, b, c) + rest) == if Decode(rest).None? then None else Some([a, b, c] + Decode(rest).value)
  {
    GroupRoundTrip(a, b, c);
    SextetRoundTrip(First(a));
    SextetRoundTrip(Second(a, b));
    SextetRoundTrip(Third(b, c));
    SextetRoundTrip(Fourth(c));
    assert (Quad(a, b, c) + rest)[4..] == rest;
  }

  lemma ReadPair(p: Sextet, q: Sextet)
    ensures Decode([CharOf(p), CharOf(q), '=', '=']) == Some([ByteOne(p, q)])
  {
    SextetRoundTrip(p);
    SextetRoundTrip(q);
  }

  lemma OneRoundTrip(a: Byte)
    ensures Decode(Encode([a])) == Some([a])
  {
    GroupRoundTrip(a, 0, 0);
    ReadPair(First(a), Second(a, 0));
  }

  lemma TwoRoundTrip(a: Byte, b: Byte)
    ensures Decode(Encode([a, b])) == Some([a, b])
  {
    GroupRoundTrip(a, b, 0);
    SextetRoundTrip(First(a));
    SextetRoundTrip(Second(a, b));
    SextetRoundTrip(Third(b, 0));
    var s := Encode([a, b]);
    assert s[0] == CharOf(First(a)) && s[1] == CharOf(Second(a, b)) && s[2] == CharOf(Third(b, 0)) && s[3] == '=';
  }

  lemma {:induction false} RoundTrip(b: Bytes)
    ensures Decode(Encode(b)) == Some(b)
  {
    if |b| == 1 {
      assert b == [b[0]];
      OneRoundTrip(b[0]);
    } else if |b| == 2 {
      assert b == [b[0], b[1]];
      TwoRoundTrip(b[0], b[1]);
    } else if |b| >= 3 {
      RoundTrip(b[3..]);
      QuadRoundTrip(b[0], b[1], b[2], Encode(b[3..]));
      assert Encode(b) == Quad(b[0], b[1], b[2]) + Encode(b[3..]);
      assert b == [b[0], b[1], b[2]] + b[3..];
    }
  }

  // Four characters for every three bytes begun.
  lemma {:induction false} EncodedLength(b: Bytes)
    ensures |Encode(b)| == (|b| + 2) / 3 * 4
  {
    if |b| >= 3 {
      EncodedLength(b[3..]);
    }
  }

  predicate InAlphabet(c: char) {
    c == '=' || SextetOf(c).Some?
  }

  lemma {:induction false} EncodeStaysInAlphabet(b: Bytes)
    ensures forall i | 0 <= i < |Encode(b)| :: InAlphabet(Encode(b)[i])
  {
    if |b| >= 3 {
      EncodeStaysInAlphabet(b[3..]);
    }
  }

  // The test vectors of section 10 of RFC 4648, and the last two characters of its table.
  lemma StandardVectors()
    ensures Encode([]) == "" && Encode([102]) == "Zg==" && Encode([102, 111]) == "Zm8=" && Encode([102, 111, 111]) == "Zm9v"
    ensures Encode([102, 111, 111, 98, 97, 114]) == "Zm9vYmFy"
    ensures Encode([251, 255]) == "+/8="
  {
    assert [102, 111, 111][3..] == [];
    assert [102, 111, 111, 98, 97, 114][3..] == [98, 97, 114] && [98, 97, 114][3..] == [];
  }
}

module Json {
  import opened Wrappers
  import Decimal

  datatype Json =
    | Null
    | Number(n: nat)
    | Text(s: string)
    | Array(items: seq<Json>)
    | Object(members: seq<Member>)

  datatype Member = Member(key: string, value: Json)

  // Characters that stand for themselves inside a JSON string.
  predicate PlainChar(c: char) {
    ' ' <= c <= '~' && c != '"' && c != '\\'
  }

  predicate Plain(s: string) {
    forall i | 0 <= i < |s| :: PlainChar(s[i])
  }

  predicate Printable(j: Json) {
    match j
    case Null => true
    case Number(_) => true
    case Text(s) => Plain(s)
    case Array(items) => forall i | 0 <= i < |items| :: Printable(items[i])
    case Object(ms) => forall i | 0 <= i < |ms| :: Plain(ms[i].key) && Printable(ms[i].value)
  }

  function Quote(s: string): string {
    "\"" + s + "\""
  }

  function Print(j: Json): string
    decreases j, 1
  {
    match j
    case Null => "null"
    case Number(n) => Decimal.Print(n)
    case Text(s) => Quote(s)
    case Array(items) => "[" + PrintItems(items)
    case Object(ms) => "{" + PrintMembers(ms)
  }

  // The items with their commas and the closing bracket.
  function PrintItems(items: seq<Json>): string
    decreases items, 0
  {
    if items == [] then "]"
    else Print(items[0]) + (if |items| == 1 then "]" else "," + PrintItems(items[1..]))
  }

  function PrintMembers(ms: seq<Member>): string
    decreases ms, 0
  {
    if ms == [] then "}"
    else Quote(ms[0].key) + ":" + Print(ms[0].value) + (if |ms| == 1 then "}" else "," + PrintMembers(ms[1..]))
  }

  // A value and the text that follows it.
  type Parsed<T> = Option<(T, string)>

  function PlainSpan(s: string): (k: nat)
    ensures k <= |s| && Plain(s[..k]) && (k < |s| ==> !PlainChar(s[k]))
  {
    if s == [] || !PlainChar(s[0]) then 0
    else
      var k := 1 + PlainSpan(s[1..]);
      assert forall i | 0 < i < k :: s[i] == s[1..][i - 1];
      k
  }

  function ReadQuoted(s: string): (r: Parsed<string>)
    ensures r.Some? ==> |r.value.1| < |s|
  {
    if s == [] || s[0] != '"' then None
    else
      var k := PlainSpan(s[1..]);
      if k + 1 < |s| && s[k + 1] == '"' then Some((s[1..k + 1], s[k + 2..])) else None
  }

  function ReadNumber(s: string): (r: Parsed<Json>)
    requires s != [] && Decimal.IsDigit(s[0])
    ensures r.Some? ==> |r.value.1| < |s|
  {
    var k := Decimal.Span(s);
    if s[0] == '0' && k > 1 then None else Some((Number(Decimal.Value(s[..k])), s[k..]))
  }

  function Read(s: string): (r: Parsed<Json>)
    ensures r.Some? ==> |r.value.1| < |s|
    decreases |s|, 1
  {
    if s == [] then None
    else if s[0] == 'n' then if "null" <= s then Some((Null, s[4..])) else None
    else if s[0] == '"' then
      var q := ReadQuoted(s);
      if q.None? then None else Some((Text(q.value.0), q.value.1))
    else if s[0] == '[' then ReadArray(s[1..])
    else if s[0] == '{' then ReadObject(s[1..])
    else if Decimal.IsDigit(s[0]) then ReadNumber(s)
    else None
  }

  function ReadArray(s: string): (r: Parsed<Json>)
    ensures r.Some? ==> |r.value.1| < |s| + 1
    decreases |s|, 3
  {
    if s != [] && s[0] == ']' then Some((Array([]), s[1..]))
    else
      var r := ReadItems(s);
      if r.None? then None else Some((Array(r.value.0), r.value.1))
  }

  function ReadObject(s: string): (r: Parsed<Json>)
    ensures r.Some? ==> |r.value.1| < |s| + 1
    decreases |s|, 3
  {
    if s != [] && s[0] == '}' then Some((Object([]), s[1..]))
    else
      var r := ReadMembers(s);
      if r.None? then None else Some((Object(r.value.0), r.value.1))
  }

  function ReadItems(s: string): (r: Parsed<seq<Json>>)
    ensures r.Some? ==> |r.value.1| < |s|
    decreases |s|, 2
  {
    var first := Read(s);
    if first.None? || first.value.1 == [] then None
    else
      var (j, rest) := first.value;
      if rest[0] == ']' then Some(([j], rest[1..]))
      else if rest[0] != ',' then None
      else
        var more := ReadItems(rest[1..]);
        if more.None? then None else Some(([j] + more.value.0, more.value.1))
  }

  function ReadMembers(s: string): (r: Parsed<seq<Member>>)
    ensures r.Some? ==> |r.value.1| < |s|
    decreases |s|, 2
  {
    var key := ReadQuoted(s);
    if key.None? || key.value.1 == [] || key.value.1[0] != ':' then None
    else
      var first := Read(key.value.1[1..]);
      if first.None? || first.value.1 == [] then None
      else
        var m, rest := Member(key.value.0, first.value.0), first.value.1;
        if rest[0] == '}' then Some(([m], rest[1..]))
        else if rest[0] != ',' then None
        else
          var more := ReadMembers(rest[1..]);
          if more.None? then None else Some(([m] + more.value.0, more.value.1))
  }

  // The whole text is one value.
  function ReadAll(s: string): Option<Json> {
    var r := Read(s);
    if r.Some? && r.value.1 == [] then Some(r.value.0) else None
  }

  // --- reading back what was printed ---

  predicate EndsNumber(rest: string) {
    rest == [] || !Decimal.IsDigit(rest[0])
  }

  lemma {:induction false} PlainSpanOf(a: string, rest: string)
    requires Plain(a) && rest != [] && !PlainChar(rest[0])
    ensures PlainSpan(a + rest) == |a|
  {
    if a == [] {
      assert a + rest == rest;
    } else {
      assert (a + rest)[1..] == a[1..] + rest;
      PlainSpanOf(a[1..], rest);
    }
  }

  lemma QuotedRoundTrip(a: string, rest: string)
    requires Plain(a)
    ensures ReadQuoted(Quote(a) + rest) == Some((a, rest))
  {
    var s := Quote(a) + rest;
    assert s[1..] == a + ("\"" + rest);
    PlainSpanOf(a, "\"" + rest);
    assert s[1..|a| + 1] == a && s[|a| + 2..] == rest;
  }

  lemma PrintStarts(j: Json)
    ensures Print(j) != [] && Print(j)[0] != ']'
  {
    if j.Number? {
      Decimal.RoundTrip(j.n);
    }
  }

  lemma NumberRoundTrip(n: nat, rest: string)
    requires EndsNumber(rest)
    ensures Read(Print(Number(n)) + rest) == Some((Number(n), rest))
  {
    var d := Decimal.Print(n);
    Decimal.RoundTrip(n);
    Decimal.SpanOf(d, rest);
    var s := d + rest;
    assert s[..|d|] == d && s[|d|..] == rest && s[0] == d[0];
  }

  lemma {:induction false} RoundTrip(j: Json, rest: string)
    requires Printable(j) && EndsNumber(rest)
    ensures Read(Print(j) + rest) == Some((j, rest))
    decreases j, 1
  {
    var s := Print(j) + rest;
    match j
    case Null => assert s == "null" + rest && s[4..] == rest;
    case Number(n) => NumberRoundTrip(n, rest);
    case Text(t) => QuotedRoundTrip(t, rest);
    case Array(items) => ArrayRoundTrip(items, rest);
    case Object(ms) => ObjectRoundTrip(ms, rest);
  }

  lemma {:induction false} ArrayRoundTrip(items: seq<Json>, rest: string)
    requires forall i | 0 <= i < |items| :: Printable(items[i])
    ensures Read(Print(Array(items)) + rest) == Some((Array(items), rest))
    decreases items, 1
  {
    var body := PrintItems(items) + rest;
    assert Print(Array(items)) + rest == "[" + body && ("[" + body)[1..] == body;
    if items == [] {
      assert body[1..] == rest;
    } else {
      PrintStarts(items[0]);
      assert body[0] == Print(items[0])[0];
      ItemsRoundTrip(items, rest);
    }
  }

  lemma ReadPrintedObject(body: string, ms: seq<Member>, rest: string)
    requires body != [] && body[0] == '"' && ReadMembers(body) == Some((ms, rest))
    ensures Read("{" + body) == Some((Object(ms), rest))
  {
    assert ("{" + body)[1..] == body;
  }

  lemma {:induction false} ObjectRoundTrip(ms: seq<Member>, rest: string)
    requires forall i | 0 <= i < |ms| :: Plain(ms[i].key) && Printable(ms[i].value)
    ensures Read(Print(Object(ms)) + rest) == Some((Object(ms), rest))
    decreases ms, 1
  {
    var body := PrintMembers(ms) + rest;
    assert Print(Object(ms)) + rest == "{" + body;
    if ms == [] {
      assert ("{" + body)[1..] == body && body[1..] == rest;
    } else {
      MembersStart(ms);
      MembersRoundTrip(ms, rest);
      ReadPrintedObject(body, ms, rest);
    }
  }

  lemma ReadLastItem(s: string, j: Json, rest: string)
    requires Read(s) == Some((j, "]" + rest))
    ensures ReadItems(s) == Some(([j], rest))
  {
    assert ("]" + rest)[1..] == rest;
  }

  lemma ReadMoreItems(s: string, j: Json, tail: string, items: seq<Json>, rest: string)
    requires Read(s) == Some((j, "," + tail)) && ReadItems(tail) == Some((items, rest))
    ensures ReadItems(s) == Some(([j] + items, rest))
  {
    assert ("," + tail)[1..] == tail;
  }

  lemma {:induction false} ItemsRoundTrip(items: seq<Json>, rest: string)
    requires items != [] && forall i | 0 <= i < |items| :: Printable(items[i])
    ensures ReadItems(PrintItems(items) + rest) == Some((items, rest))
    decreases items, 0
  {
    var s := PrintItems(items) + rest;
    if |items| == 1 {
      assert s == Print(items[0]) + ("]" + rest);
      RoundTrip(items[0], "]" + rest);
      ReadLastItem(s, items[0], rest);
      assert items == [items[0]];
    } else {
      var tail := PrintItems(items[1..]) + rest;
      assert s == Print(items[0]) + ("," + tail);
      RoundTrip(items[0], "," + tail);
      ItemsRoundTrip(items[1..], rest);
      ReadMoreItems(s, items[0], tail, items[1..], rest);
      assert items == [items[0]] + items[1..];
    }
  }

  lemma ReadLastMember(s: string, m: Member, value: string, rest: string)
    requires ReadQuoted(s) == Some((m.key, ":" + value)) && Read(value) == Some((m.value, "}" + rest))
    ensures ReadMembers(s) == Some(([m], rest))
  {
    assert (":" + value)[1..] == value && ("}" + rest)[1..] == rest;
  }

  lemma ReadMoreMembers(s: string, m: Member, value: string, tail: string, ms: seq<Member>, rest: string)
    requires ReadQuoted(s) == Some((m.key, ":" + value)) && Read(value) == Some((m.value, "," + tail))
    requires ReadMembers(tail) == Some((ms, rest))
    ensures ReadMembers(s) == Some(([m] + ms, rest))
  {
    assert (":" + value)[1..] == value && ("," + tail)[1..] == tail;
  }

  // The text of one member and what follows it, read up to the separator.
  lemma MemberText(m: Member, after: string)
    requires Plain(m.key)
    ensures ReadQuoted((Quote(m.key) + ":" + Print(m.value)) + after) == Some((m.key, ":" + (Print(m.value) + after)))
  {
    QuotedRoundTrip(m.key, ":" + (Print(m.value) + after));
    assert (Quote(m.key) + ":" + Print(m.value)) + after == Quote(m.key) + (":" + (Print(m.value) + after));
  }

  lemma LastMember(m: Member, rest: string)
    requires Plain(m.key) && Read(Print(m.value) + ("}" + rest)) == Some((m.value, "}" + rest))
    ensures ReadMembers(PrintMembers([m]) + rest) == Some(([m], rest))
  {
    var text := Quote(m.key) + ":" + Print(m.value);
    assert PrintMembers([m]) + rest == text + ("}" + rest);
    MemberText(m, "}" + rest);
    ReadLastMember(text + ("}" + rest), m, Print(m.value) + ("}" + rest), rest);
  }

  lemma MoreMembers(m: Member, ms: seq<Member>, rest: string)
    requires Plain(m.key) && ms != []
    requires ReadMembers(PrintMembers(ms) + rest) == Some((ms, rest))
    requires var after := "," + (PrintMembers(ms) + rest); Read(Print(m.value) + after) == Some((m.value, after))
    ensures ReadMembers(PrintMembers([m] + ms) + rest) == Some(([m] + ms, rest))
  {
    var text := Quote(m.key) + ":" + Print(m.value);
    var tail := PrintMembers(ms) + rest;
    assert ([m] + ms)[1..] == ms;
    assert PrintMembers([m] + ms) + rest == text + ("," + tail);
    MemberText(m, "," + tail);
    ReadMoreMembers(text + ("," + tail), m, Print(m.value) + ("," + tail), tail, ms, rest);
  }

  lemma {:induction false} MembersRoundTrip(ms: seq<Member>, rest: string)
    requires ms != [] && forall i | 0 <= i < |ms| :: Plain(ms[i].key) && Printable(ms[i].value)
    ensures ReadMembers(PrintMembers(ms) + rest) == Some((ms, rest))
    decreases ms, 0
  {
    if |ms| == 1 {
      RoundTrip(ms[0].value, "}" + rest);
      LastMember(ms[0], rest);
      assert ms == [ms[0]];
    } else {
      RoundTrip(ms[0].value, "," + (PrintMembers(ms[1..]) + rest));
      MembersRoundTrip(ms[1..], rest);
      MoreMembers(ms[0], ms[1..], rest);
      assert ms == [ms[0]] + ms[1..];
    }
  }

  lemma MembersStart(ms: seq<Member>)
    requires ms != []
    ensures PrintMembers(ms)[0] == '"'
  {}

  lemma TextRoundTrip(j: Json)
    requires Printable(j)
    ensures ReadAll(Print(j)) == Some(j)
  {
    RoundTrip(j, []);
    assert Print(j) + [] == Print(j);
  }
}
