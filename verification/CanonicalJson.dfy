/**
 The canonical JSON text that is stored and hashed: no spaces, members sorted by key, non-ASCII
 characters written as they are. Numbers are integers. Reading back a printed value gives that
 value, so two values with the same text are equal.
 */
module CanonicalJson {

  import opened Wrappers

  datatype Json =
    | Null
    | Bool(b: bool)
    | Num(n: int)
    | Str(s: string)
    | Arr(items: seq<Json>)
    | Obj(members: seq<Member>)

  datatype Member = Member(key: string, value: Json)

  // ---- Order on keys, by code point ----

  /** `a` and `b` agree on their first `k` characters and then `a` ends or is smaller. */
  predicate SmallerAt(a: string, b: string, k: nat) {
    k <= |a| && k < |b| && a[..k] == b[..k] && (k == |a| || a[k] < b[k])
  }

  predicate Less(a: string, b: string) {
    exists k: nat | k < |b| :: SmallerAt(a, b, k)
  }

  lemma LessIsTransitive(a: string, b: string, c: string)
    requires Less(a, b) && Less(b, c)
    ensures Less(a, c)
  {
    var i: nat :| i < |b| && SmallerAt(a, b, i);
    var j: nat :| j < |c| && SmallerAt(b, c, j);
    var k := if i < j then i else j;
    assert a[..k] == b[..i][..k] == b[..k] == b[..j][..k] == c[..k];
    assert b[..j] == c[..j];
    assert i < j ==> b[i] == b[..j][i] == c[..j][i] == c[i];
    assert j < i ==> a[j] == a[..i][j] == b[..i][j] == b[j];
    assert SmallerAt(a, c, k);
  }

  lemma LessIsIrreflexive(a: string)
    ensures !Less(a, a)
  {
  }

  /** Every object in `j` lists its members by strictly increasing key. */
  predicate Sorted(j: Json) {
    match j
    case Arr(items) => forall x | x in items :: Sorted(x)
    case Obj(members) =>
      && (forall i | 0 < i < |members| :: Less(members[i - 1].key, members[i].key))
      && (forall m | m in members :: Sorted(m.value))
    case _ => true
  }

  // ---- Printing ----

  function Digit(d: int): char
    requires 0 <= d < 10
  {
    '0' + d as char
  }

  predicate IsDigit(c: char) { '0' <= c <= '9' }

  function Decimal(n: nat): string {
    if n < 10 then [Digit(n)] else Decimal(n / 10) + [Digit(n % 10)]
  }

  function HexDigit(d: int): char
    requires 0 <= d < 16
  {
    if d < 10 then Digit(d) else 'a' + (d - 10) as char
  }

  /** One character inside a JSON string. */
  function Escape(c: char): string {
    if c == '"' then "\\\""
    else if c == '\\' then "\\\\"
    else if c == '\n' then "\\n"
    else if c == '\r' then "\\r"
    else if c == '\t' then "\\t"
    else if c as int == 8 then "\\b"
    else if c as int == 12 then "\\f"
    else if c as int < 32 then "\\u00" + [HexDigit(c as int / 16), HexDigit(c as int % 16)]
    else [c]
  }

  /** The characters of `s`, escaped, and the closing quote. */
  function PrintString(s: string): string {
    if s == [] then "\"" else Escape(s[0]) + PrintString(s[1..])
  }

  function Print(j: Json): string
    decreases j, 1
  {
    match j
    case Null => "null"
    case Bool(b) => if b then "true" else "false"
    case Num(n) => if n < 0 then "-" + Decimal(-n) else Decimal(n)
    case Str(s) => "\"" + PrintString(s)
    case Arr(items) => "[" + PrintArray(items)
    case Obj(members) => "{" + PrintObject(members)
  }

  /** The items of an array and its closing bracket. */
  function PrintArray(items: seq<Json>): string
    decreases items, 3
  {
    if items == [] then "]" else Print(items[0]) + PrintItems(items[1..])
  }

  /** The members of an object and its closing brace. */
  function PrintObject(members: seq<Member>): string
    decreases members, 3
  {
    if members == [] then "}" else PrintMember(members[0]) + PrintMembers(members[1..])
  }

  function PrintItems(items: seq<Json>): string
    decreases items, 0
  {
    if items == [] then "]" else "," + Print(items[0]) + PrintItems(items[1..])
  }

  function PrintMember(m: Member): string
    decreases m, 2
  {
    "\"" + PrintString(m.key) + ":" + Print(m.value)
  }

  function PrintMembers(members: seq<Member>): string
    decreases members, 0
  {
    if members == [] then "}" else "," + PrintMember(members[0]) + PrintMembers(members[1..])
  }

  // ---- Parsing ----

  function HexValue(c: char): Option<int> {
    if IsDigit(c) then Some(c as int - '0' as int)
    else if 'a' <= c <= 'f' then Some(c as int - 'a' as int + 10)
    else None
  }

  /** One possibly escaped character and the text after it. */
  function ParseChar(s: string): (r: Option<(char, string)>)
    requires s != []
    ensures r.Some? ==> |r.value.1| < |s|
  {
    if s[0] != '\\' then Some((s[0], s[1..]))
    else if |s| < 2 then None
    else if s[1] == '"' then Some(('"', s[2..]))
    else if s[1] == '\\' then Some(('\\', s[2..]))
    else if s[1] == 'n' then Some(('\n', s[2..]))
    else if s[1] == 'r' then Some(('\r', s[2..]))
    else if s[1] == 't' then Some(('\t', s[2..]))
    else if s[1] == 'b' then Some((8 as char, s[2..]))
    else if s[1] == 'f' then Some((12 as char, s[2..]))
    else if |s| >= 6 && s[1..4] == "u00" && HexValue(s[4]).Some? && HexValue(s[5]).Some? then
      Some(((HexValue(s[4]).value * 16 + HexValue(s[5]).value) as char, s[6..]))
    else None
  }

  /** The string that ends at the next unescaped quote, and the text after that quote. */
  function ParseString(s: string): (r: Option<(string, string)>)
    ensures r.Some? ==> |r.value.1| < |s|
    decreases |s|
  {
    if s == [] then None
    else if s[0] == '"' then Some(("", s[1..]))
    else
      var first := ParseChar(s);
      if first.None? then None else
      var rest := ParseString(first.value.1);
      if rest.None? then None else Some(([first.value.0] + rest.value.0, rest.value.1))
  }

  function LeadingDigits(s: string): (r: string)
    ensures |r| <= |s| && forall c | c in r :: IsDigit(c)
  {
    if s == [] || !IsDigit(s[0]) then "" else [s[0]] + LeadingDigits(s[1..])
  }

  function DecimalValue(ds: string): nat
    requires forall c | c in ds :: IsDigit(c)
  {
    if ds == [] then 0
    else
      assert IsDigit(ds[|ds| - 1]);
      DecimalValue(ds[..|ds| - 1]) * 10 + (ds[|ds| - 1] as int - '0' as int)
  }

  predicate StartsWith(s: string, p: string) { |p| <= |s| && s[..|p|] == p }

  /** One value at the start of `s` and the text after it. */
  function Parse(s: string): (r: Option<(Json, string)>)
    ensures r.Some? ==> |r.value.1| < |s|
    decreases |s|, 2
  {
    if s == [] then None
    else if s[0] == 'n' then if StartsWith(s, "null") then Some((Null, s[4..])) else None
    else if s[0] == 't' then if StartsWith(s, "true") then Some((Bool(true), s[4..])) else None
    else if s[0] == 'f' then if StartsWith(s, "false") then Some((Bool(false), s[5..])) else None
    else if s[0] == '"' then
      var str := ParseString(s[1..]);
      if str.None? then None else Some((Str(str.value.0), str.value.1))
    else if s[0] == '[' then
      var items := ParseArray(s[1..]);
      if items.None? then None else Some((Arr(items.value.0), items.value.1))
    else if s[0] == '{' then
      var members := ParseObject(s[1..]);
      if members.None? then None else Some((Obj(members.value.0), members.value.1))
    else if s[0] == '-' then
      var ds := LeadingDigits(s[1..]);
      if ds == [] then None else Some((Num(0 - DecimalValue(ds)), s[1 + |ds|..]))
    else
      var ds := LeadingDigits(s);
      if ds == [] then None else Some((Num(DecimalValue(ds)), s[|ds|..]))
  }

  /** The items of an array and the text after it, given the text after its bracket. */
  function ParseArray(s: string): (r: Option<(seq<Json>, string)>)
    ensures r.Some? ==> |r.value.1| < |s|
    decreases |s|, 3
  {
    if s != [] && s[0] == ']' then Some(([], s[1..])) else
    var first := Parse(s);
    if first.None? then None else
    var rest := ParseItems(first.value.1);
    if rest.None? then None else Some(([first.value.0] + rest.value.0, rest.value.1))
  }

  /** The members of an object and the text after it, given the text after its brace. */
  function ParseObject(s: string): (r: Option<(seq<Member>, string)>)
    ensures r.Some? ==> |r.value.1| < |s|
    decreases |s|, 3
  {
    if s != [] && s[0] == '}' then Some(([], s[1..])) else
    var first := ParseMember(s);
    if first.None? then None else
    var rest := ParseMembers(first.value.1);
    if rest.None? then None else Some(([first.value.0] + rest.value.0, rest.value.1))
  }

  function ParseItems(s: string): (r: Option<(seq<Json>, string)>)
    ensures r.Some? ==> |r.value.1| < |s|
    decreases |s|, 0
  {
    if s == [] then None
    else if s[0] == ']' then Some(([], s[1..]))
    else if s[0] != ',' then None
    else
      var first := Parse(s[1..]);
      if first.None? then None else
      var rest := ParseItems(first.value.1);
      if rest.None? then None else Some(([first.value.0] + rest.value.0, rest.value.1))
  }

  function ParseMember(s: string): (r: Option<(Member, string)>)
    ensures r.Some? ==> |r.value.1| < |s|
    decreases |s|, 1
  {
    if s == [] || s[0] != '"' then None else
    var key := ParseString(s[1..]);
    if key.None? || key.value.1 == [] || key.value.1[0] != ':' then None else
    var value := Parse(key.value.1[1..]);
    if value.None? then None else Some((Member(key.value.0, value.value.0), value.value.1))
  }

  function ParseMembers(s: string): (r: Option<(seq<Member>, string)>)
    ensures r.Some? ==> |r.value.1| < |s|
    decreases |s|, 0
  {
    if s == [] then None
    else if s[0] == '}' then Some(([], s[1..]))
    else if s[0] != ',' then None
    else
      var first := ParseMember(s[1..]);
      if first.None? then None else
      var rest := ParseMembers(first.value.1);
      if rest.None? then None else Some(([first.value.0] + rest.value.0, rest.value.1))
  }

  /** The value of a stored text, accepted only when the text is the canonical one of that value. */
  function Decode(raw: string): Option<Json> {
    var p := Parse(raw);
    if p.Some? && p.value.1 == [] && Sorted(p.value.0) && Print(p.value.0) == raw then Some(p.value.0) else None
  }

  // ---- Reading back what was printed ----

  lemma EscapeThenParse(c: char, rest: string)
    ensures Escape(c) != [] && (Escape(c) + rest)[0] != '"'
    ensures ParseChar(Escape(c) + rest) == Some((c, rest))
  {
    var text := Escape(c) + rest;
    if c as int < 32 && |Escape(c)| == 6 {
      assert text[1..4] == "u00";
      assert text[6..] == rest;
    } else if |Escape(c)| == 2 {
      assert text[2..] == rest;
    } else {
      assert text[1..] == rest;
    }
  }

  lemma {:induction false} StringRoundTrip(s: string, rest: string)
    ensures ParseString(PrintString(s) + rest) == Some((s, rest))
  {
    var text := PrintString(s) + rest;
    if s == [] {
      assert text[1..] == rest;
    } else {
      var tail := PrintString(s[1..]) + rest;
      assert text == Escape(s[0]) + tail;
      EscapeThenParse(s[0], tail);
      StringRoundTrip(s[1..], rest);
      assert [s[0]] + s[1..] == s;
    }
  }

  lemma {:induction false} DecimalRoundTrip(n: nat)
    ensures Decimal(n) != [] && forall c | c in Decimal(n) :: IsDigit(c)
    ensures DecimalValue(Decimal(n)) == n
  {
    if n >= 10 {
      DecimalRoundTrip(n / 10);
      assert Decimal(n)[..|Decimal(n)| - 1] == Decimal(n / 10);
    }
  }

  lemma {:induction false} LeadingDigitsOf(ds: string, rest: string)
    requires forall c | c in ds :: IsDigit(c)
    requires rest == [] || !IsDigit(rest[0])
    ensures LeadingDigits(ds + rest) == ds
  {
    if ds == [] {
      assert ds + rest == rest;
    } else {
      assert (ds + rest)[1..] == ds[1..] + rest;
      LeadingDigitsOf(ds[1..], rest);
    }
  }

  /** What may follow a value: nothing that could continue a number. */
  predicate Ends(rest: string) { rest == [] || !IsDigit(rest[0]) }

  lemma ParseDigits(ds: string, rest: string)
    requires ds != [] && (forall c | c in ds :: IsDigit(c)) && Ends(rest)
    ensures Parse(ds + rest) == Some((Num(DecimalValue(ds)), rest))
  {
    LeadingDigitsOf(ds, rest);
    var text := ds + rest;
    assert text[0] == ds[0] && IsDigit(ds[0]);
    assert text[|ds|..] == rest;
  }

  lemma ParseSigned(text: string, ds: string)
    requires text != [] && text[0] == '-' && ds != [] && LeadingDigits(text[1..]) == ds
    ensures Parse(text) == Some((Num(0 - DecimalValue(ds)), text[1 + |ds|..]))
  {
  }

  lemma ParseNegative(ds: string, rest: string)
    requires ds != [] && (forall c | c in ds :: IsDigit(c)) && Ends(rest)
    ensures Parse("-" + ds + rest) == Some((Num(0 - DecimalValue(ds)), rest))
  {
    LeadingDigitsOf(ds, rest);
    var text := "-" + ds + rest;
    assert text[1..] == ds + rest;
    ParseSigned(text, ds);
    assert text[1 + |ds|..] == rest;
  }

  lemma NumRoundTrip(n: int, rest: string)
    requires Ends(rest)
    ensures Parse(Print(Num(n)) + rest) == Some((Num(n), rest))
  {
    DecimalRoundTrip(if n < 0 then -n else n);
    if n < 0 {
      ParseNegative(Decimal(-n), rest);
    } else {
      ParseDigits(Decimal(n), rest);
    }
  }

  lemma WordRoundTrip(j: Json, rest: string)
    requires j.Null? || j.Bool?
    ensures Parse(Print(j) + rest) == Some((j, rest))
  {
    var text := Print(j) + rest;
    assert text[..|Print(j)|] == Print(j) && text[|Print(j)|..] == rest;
  }

  lemma ParseOpened(t: string)
    ensures Parse("\"" + t) == match ParseString(t) case None => None case Some((s, rest)) => Some((Str(s), rest))
    ensures Parse("[" + t) == match ParseArray(t) case None => None case Some((items, rest)) => Some((Arr(items), rest))
    ensures Parse("{" + t) == match ParseObject(t) case None => None case Some((ms, rest)) => Some((Obj(ms), rest))
  {
    assert ("\"" + t)[1..] == t && ("[" + t)[1..] == t && ("{" + t)[1..] == t;
  }

  /** A printed value is read back, whatever text follows it, and that text is left over. */
  lemma {:induction false} RoundTrip(j: Json, rest: string)
    requires Ends(rest)
    ensures Parse(Print(j) + rest) == Some((j, rest))
    decreases j, 1
  {
    match j
    case Null => WordRoundTrip(j, rest);
    case Bool(b) => WordRoundTrip(j, rest);
    case Num(n) => NumRoundTrip(n, rest);
    case Str(s) =>
      assert Print(j) + rest == "\"" + (PrintString(s) + rest);
      ParseOpened(PrintString(s) + rest);
      StringRoundTrip(s, rest);
    case Arr(items) =>
      assert Print(j) + rest == "[" + (PrintArray(items) + rest);
      ParseOpened(PrintArray(items) + rest);
      ArrayRoundTrip(items, rest);
    case Obj(members) =>
      assert Print(j) + rest == "{" + (PrintObject(members) + rest);
      ParseOpened(PrintObject(members) + rest);
      ObjectRoundTrip(members, rest);
  }

  lemma {:induction false} ArrayRoundTrip(items: seq<Json>, rest: string)
    ensures ParseArray(PrintArray(items) + rest) == Some((items, rest))
    decreases items, 3
  {
    var text := PrintArray(items) + rest;
    if items == [] {
      assert text[1..] == rest;
    } else {
      var tail := PrintItems(items[1..]) + rest;
      assert text == Print(items[0]) + tail;
      ItemsRoundTrip(items[1..], rest);
      RoundTrip(items[0], tail);
      PrintStarts(items[0]);
      assert [items[0]] + items[1..] == items;
    }
  }

  lemma {:induction false} ObjectRoundTrip(members: seq<Member>, rest: string)
    ensures ParseObject(PrintObject(members) + rest) == Some((members, rest))
    decreases members, 3
  {
    var text := PrintObject(members) + rest;
    if members == [] {
      assert text[1..] == rest;
    } else {
      var tail := PrintMembers(members[1..]) + rest;
      assert text == PrintMember(members[0]) + tail;
      MembersRoundTrip(members[1..], rest);
      MemberRoundTrip(members[0], tail);
      assert [members[0]] + members[1..] == members;
    }
  }

  lemma PrintStarts(j: Json)
    ensures Print(j) != [] && Print(j)[0] != ']'
  {
    if j.Num? {
      DecimalRoundTrip(if j.n < 0 then -j.n else j.n);
      assert IsDigit(Decimal(if j.n < 0 then -j.n else j.n)[0]);
    }
  }

  lemma {:induction false} ItemsRoundTrip(items: seq<Json>, rest: string)
    ensures Ends(PrintItems(items) + rest)
    ensures ParseItems(PrintItems(items) + rest) == Some((items, rest))
    decreases items, 0
  {
    var text := PrintItems(items) + rest;
    if items == [] {
      assert text[1..] == rest;
    } else {
      var tail := PrintItems(items[1..]) + rest;
      assert text[1..] == Print(items[0]) + tail;
      ItemsRoundTrip(items[1..], rest);
      RoundTrip(items[0], tail);
      assert [items[0]] + items[1..] == items;
    }
  }

  lemma {:induction false} MemberRoundTrip(m: Member, rest: string)
    requires Ends(rest)
    ensures PrintMember(m)[0] == '"'
    ensures ParseMember(PrintMember(m) + rest) == Some((m, rest))
    decreases m, 2
  {
    var value := Print(m.value) + rest;
    var tail := ":" + value;
    assert (PrintMember(m) + rest)[1..] == PrintString(m.key) + tail by {
      MemberText(PrintString(m.key), Print(m.value), rest);
    }
    StringRoundTrip(m.key, tail);
    assert tail[1..] == value;
    RoundTrip(m.value, rest);
  }

  lemma MemberText(key: string, value: string, rest: string)
    ensures ("\"" + key + ":" + value + rest)[1..] == key + (":" + (value + rest))
  {
  }

  lemma {:induction false} MembersRoundTrip(members: seq<Member>, rest: string)
    ensures Ends(PrintMembers(members) + rest)
    ensures ParseMembers(PrintMembers(members) + rest) == Some((members, rest))
    decreases members, 0
  {
    var text := PrintMembers(members) + rest;
    if members == [] {
      assert text[1..] == rest;
    } else {
      var tail := PrintMembers(members[1..]) + rest;
      assert text[1..] == PrintMember(members[0]) + tail;
      MembersRoundTrip(members[1..], rest);
      MemberRoundTrip(members[0], tail);
      assert [members[0]] + members[1..] == members;
    }
  }

  /** Stored text is decoded exactly when it is the text of a value with sorted members, to that value. */
  lemma DecodeInvertsPrint(j: Json, raw: string)
    ensures Decode(raw) == Some(j) <==> Sorted(j) && Print(j) == raw
  {
    RoundTrip(j, "");
    assert Print(j) + "" == Print(j);
  }

  /** Values with the same text are the same value. */
  lemma PrintIsInjective(a: Json, b: Json)
    requires Print(a) == Print(b)
    ensures a == b
  {
    RoundTrip(a, "");
    RoundTrip(b, "");
    assert Print(a) + "" == Print(a) && Print(b) + "" == Print(b);
  }

  // ---- What canonical text looks like ----

  /** In every object all keys increase, and so do they in the values. */
  ghost predicate KeysIncrease(j: Json) {
    match j
    case Arr(items) => forall x | x in items :: KeysIncrease(x)
    case Obj(members) =>
      && (forall i, k | 0 <= i < k < |members| :: Less(members[i].key, members[k].key))
      && (forall m | m in members :: KeysIncrease(m.value))
    case _ => true
  }

  lemma KeysRise(members: seq<Member>, i: nat, k: nat)
    requires Sorted(Obj(members)) && i < k < |members|
    ensures Less(members[i].key, members[k].key)
    decreases k
  {
    assert Less(members[k - 1].key, members[k].key);
    if i < k - 1 {
      KeysRise(members, i, k - 1);
      LessIsTransitive(members[i].key, members[k - 1].key, members[k].key);
    }
  }

  lemma {:induction false} SortedIncreases(j: Json)
    requires Sorted(j)
    ensures KeysIncrease(j)
  {
    match j
    case Arr(items) =>
      forall x | x in items ensures KeysIncrease(x) {
        SortedIncreases(x);
      }
    case Obj(members) =>
      forall i, k | 0 <= i < k < |members|
        ensures Less(members[i].key, members[k].key)
      {
        KeysRise(members, i, k);
      }
      forall m | m in members ensures KeysIncrease(m.value) {
        SortedIncreases(m.value);
      }
    case _ =>
  }

  /** Text that decodes is in canonical order: no object repeats a key or lists a smaller one later. */
  lemma DecodedIsOrdered(raw: string, j: Json)
    requires Decode(raw) == Some(j)
    ensures KeysIncrease(j) && Print(j) == raw
  {
    DecodeInvertsPrint(j, raw);
    SortedIncreases(j);
  }

  /** The escapes of JSON (section 7 of RFC 8259): short ones where there are any, and no others but control characters. */
  lemma EscapesAre(c: char)
    ensures Escape('"') == "\\\"" && Escape('\\') == "\\\\" && Escape('\n') == "\\n" && Escape('\r') == "\\r" && Escape('\t') == "\\t"
    ensures Escape(8 as char) == "\\b" && Escape(12 as char) == "\\f" && Escape(31 as char) == "\\u001f" && Escape(1 as char) == "\\u0001"
    ensures Escape(c) == [c] <==> c as int >= 32 && c != '"' && c != '\\'
    ensures forall x | x in Escape(c) :: x as int >= 32
  {
  }

  /** Numbers are plain decimals: zero is one digit, no other starts with it, and only negative ones have a sign. */
  lemma {:induction false} DecimalIsPlain(n: nat)
    ensures (forall c | c in Decimal(n) :: '0' <= c <= '9') && Decimal(n) != "" && (Decimal(n)[0] == '0' <==> n == 0) && Decimal(0) == "0"
  {
    if n >= 10 {
      DecimalIsPlain(n / 10);
    }
  }

  lemma NumbersArePlain(n: int)
    ensures Print(Num(n)) == if n < 0 then "-" + Print(Num(-n)) else Decimal(n)
    ensures n >= 0 ==> Print(Num(n))[0] != '-' && (Print(Num(n))[0] == '0' <==> n == 0) && Print(Num(0)) == "0"
  {
    if n >= 0 {
      DecimalIsPlain(n);
      assert Decimal(n)[0] in Decimal(n);
    }
  }
}
