/** Canonical JSON text, after canonical_json in audit/hashing.py: sorted keys, no whitespace, no ASCII
    escaping. Strings are escaped as in section 7 of RFC 8259, in the form Python's encoder chooses. */
module CanonicalJson {
  import opened Wrappers
  import opened StringOrder

  /** JSON trees of null, booleans, integers, strings, arrays and objects; an object keeps the insertion
      order of its keys. */
  datatype Json =
    | Null
    | Bool(b: bool)
    | Int(n: int)
    | Str(s: string)
    | Arr(items: seq<Json>)
    | Obj(fields: seq<Field>)

  datatype Field = Field(key: string, value: Json)

  function KeyOf(f: Field): string {
    f.key
  }

  // ---------------------------------------------------------------- printing

  function HexDigit(d: nat): char
    requires d < 16
  {
    "0123456789abcdef"[d]
  }

  const BACKSPACE: char := 8 as char
  const FORMFEED: char := 12 as char

  function Escape(c: char): string {
    if c == '\\' then "\\\\"
    else if c == '"' then "\\\""
    else if c == BACKSPACE then "\\b"
    else if c == FORMFEED then "\\f"
    else if c == '\n' then "\\n"
    else if c == '\r' then "\\r"
    else if c == '\t' then "\\t"
    else if c as int < 0x20 then "\\u00" + [HexDigit(c as int / 16), HexDigit(c as int % 16)]
    else [c]
  }

  function EscapeAll(s: string): string {
    if s == "" then "" else Escape(s[0]) + EscapeAll(s[1..])
  }

  function Quote(s: string): string {
    "\"" + EscapeAll(s) + "\""
  }

  function Digit(d: nat): char
    requires d < 10
  {
    "0123456789"[d]
  }

  function Digits(n: nat): string {
    if n < 10 then [Digit(n)] else Digits(n / 10) + [Digit(n % 10)]
  }

  function IntText(n: int): string {
    if n < 0 then "-" + Digits(-n) else Digits(n)
  }

  /** The text of a tree with the keys in the order the tree has them. */
  function Print(j: Json): string
    decreases j, 0
  {
    match j
    case Null => "null"
    case Bool(b) => if b then "true" else "false"
    case Int(n) => IntText(n)
    case Str(s) => Quote(s)
    case Arr(items) => if items == [] then "[]" else "[" + PrintItems(items) + "]"
    case Obj(fields) => if fields == [] then "{}" else "{" + PrintFields(fields) + "}"
  }

  function PrintItems(items: seq<Json>): string
    requires items != []
    decreases items, 1
  {
    if |items| == 1 then Print(items[0]) else Print(items[0]) + "," + PrintItems(items[1..])
  }

  function PrintField(f: Field): string
    decreases f, 1
  {
    Quote(f.key) + ":" + Print(f.value)
  }

  function PrintFields(fields: seq<Field>): string
    requires fields != []
    decreases fields, 2
  {
    if |fields| == 1 then PrintField(fields[0]) else PrintField(fields[0]) + "," + PrintFields(fields[1..])
  }

  /** The tree with the keys of every object sorted. */
  function Normal(j: Json): Json {
    match j
    case Arr(items) => Arr(NormalItems(items))
    case Obj(fields) => Obj(SortBy(NormalFields(fields), KeyOf))
    case _ => j
  }

  function NormalItems(items: seq<Json>): seq<Json> {
    if items == [] then [] else [Normal(items[0])] + NormalItems(items[1..])
  }

  function NormalFields(fields: seq<Field>): seq<Field> {
    if fields == [] then [] else [Field(fields[0].key, Normal(fields[0].value))] + NormalFields(fields[1..])
  }

  function Canonical(j: Json): string {
    Print(Normal(j))
  }

  // ---------------------------------------------------------------- parsing

  predicate IsDigit(c: char) {
    '0' <= c <= '9'
  }

  function ParseNat(s: string, acc: nat): (nat, string) {
    if s == "" || !IsDigit(s[0]) then (acc, s)
    else ParseNat(s[1..], acc * 10 + (s[0] as int - '0' as int))
  }

  function HexValue(c: char): Option<nat> {
    if '0' <= c <= '9' then Some(c as int - '0' as int)
    else if 'a' <= c <= 'f' then Some(c as int - 'a' as int + 10)
    else None
  }

  /** The character a two-character escape stands for. */
  function Unescape(c: char): Option<char> {
    if c == '\\' || c == '"' then Some(c)
    else if c == 'b' then Some(BACKSPACE)
    else if c == 'f' then Some(FORMFEED)
    else if c == 'n' then Some('\n')
    else if c == 'r' then Some('\r')
    else if c == 't' then Some('\t')
    else None
  }

  /** The character of a four-digit escape; only the ones below 256 are written by the encoder. */
  function HexChar(s: string): Option<char> {
    if |s| >= 4 && s[0] == '0' && s[1] == '0' && HexValue(s[2]).Some? && HexValue(s[3]).Some?
       && HexValue(s[2]).value < 16 && HexValue(s[3]).value < 16
    then Some((HexValue(s[2]).value * 16 + HexValue(s[3]).value) as char)
    else None
  }

  /** The rest of a string literal after its opening quote, and what follows it. */
  function ParseChars(s: string): (r: Option<(string, string)>)
    ensures r.Some? ==> |r.value.1| < |s|
  {
    if s == "" then None
    else if s[0] == '"' then Some(("", s[1..]))
    else if s[0] == '\\' then
      if |s| < 2 then None
      else if s[1] == 'u' then
        match HexChar(s[2..])
        case None => None
        case Some(c) => Consed(c, ParseChars(s[6..]))
      else
        match Unescape(s[1])
        case None => None
        case Some(c) => Consed(c, ParseChars(s[2..]))
    else Consed(s[0], ParseChars(s[1..]))
  }

  function Consed(c: char, r: Option<(string, string)>): Option<(string, string)> {
    if r.None? then None else Some(([c] + r.value.0, r.value.1))
  }

  function ParseValue(s: string): (r: Option<(Json, string)>)
    ensures r.Some? ==> |r.value.1| < |s|
    decreases |s|, 0
  {
    if s == "" then None
    else if s[0] == 'n' then (if "null" <= s then Some((Null, s[4..])) else None)
    else if s[0] == 't' then (if "true" <= s then Some((Bool(true), s[4..])) else None)
    else if s[0] == 'f' then (if "false" <= s then Some((Bool(false), s[5..])) else None)
    else if s[0] == '"' then
      (var t := ParseChars(s[1..]); if t.None? then None else Some((Str(t.value.0), t.value.1)))
    else if s[0] == '[' then
      if |s| > 1 && s[1] == ']' then Some((Arr([]), s[2..]))
      else (var t := ParseItems(s[1..]); if t.None? then None else Some((Arr(t.value.0), t.value.1)))
    else if s[0] == '{' then
      if |s| > 1 && s[1] == '}' then Some((Obj([]), s[2..]))
      else (var t := ParseFields(s[1..]); if t.None? then None else Some((Obj(t.value.0), t.value.1)))
    else if s[0] == '-' then ParseInt(s[1..], -1)
    else ParseInt(s, 1)
  }

  function ParseInt(s: string, sign: int): (r: Option<(Json, string)>)
    ensures r.Some? ==> |r.value.1| < |s|
  {
    if s == "" || !IsDigit(s[0]) then None
    else
      ParseNatShortens(s[1..], s[0] as int - '0' as int);
      var t := ParseNat(s, 0);
      Some((Int(sign * t.0), t.1))
  }

  lemma {:induction false} ParseNatShortens(s: string, acc: nat)
    ensures |ParseNat(s, acc).1| <= |s|
  {
    if s != "" && IsDigit(s[0]) {
      ParseNatShortens(s[1..], acc * 10 + (s[0] as int - '0' as int));
    }
  }

  /** One or more values separated by commas, up to the closing bracket. */
  function ParseItems(s: string): (r: Option<(seq<Json>, string)>)
    ensures r.Some? ==> |r.value.1| < |s|
    decreases |s|, 1
  {
    var v := ParseValue(s);
    if v.None? || v.value.1 == "" then None
    else if v.value.1[0] == ']' then Some(([v.value.0], v.value.1[1..]))
    else if v.value.1[0] == ',' then
      (var t := ParseItems(v.value.1[1..]); if t.None? then None else Some(([v.value.0] + t.value.0, t.value.1)))
    else None
  }

  function ParseField(s: string): (r: Option<(Field, string)>)
    ensures r.Some? ==> |r.value.1| < |s|
    decreases |s|, 1
  {
    if s == "" || s[0] != '"' then None
    else
      var k := ParseChars(s[1..]);
      if k.None? || k.value.1 == "" || k.value.1[0] != ':' then None
      else
        var v := ParseValue(k.value.1[1..]);
        if v.None? then None else Some((Field(k.value.0, v.value.0), v.value.1))
  }

  function ParseFields(s: string): (r: Option<(seq<Field>, string)>)
    ensures r.Some? ==> |r.value.1| < |s|
    decreases |s|, 2
  {
    var f := ParseField(s);
    if f.None? || f.value.1 == "" then None
    else if f.value.1[0] == '}' then Some(([f.value.0], f.value.1[1..]))
    else if f.value.1[0] == ',' then
      (var t := ParseFields(f.value.1[1..]); if t.None? then None else Some(([f.value.0] + t.value.0, t.value.1)))
    else None
  }

  /** A whole text. */
  function Parse(s: string): Option<Json> {
    var r := ParseValue(s);
    if r.Some? && r.value.1 == "" then Some(r.value.0) else None
  }

  // ---------------------------------------------------------------- round trip

  lemma ShortEscape(c: char, rest: string)
    requires |Escape(c)| == 2
    ensures ParseChars(Escape(c) + rest) == Consed(c, ParseChars(rest))
  {
    hide Consed;
    var s := Escape(c) + rest;
    assert s[2..] == rest;
    assert Unescape(s[1]) == Some(c);
  }

  lemma UnicodeEscape(c: char, rest: string)
    requires |Escape(c)| == 6
    ensures ParseChars(Escape(c) + rest) == Consed(c, ParseChars(rest))
  {
    hide Consed;
    var s := Escape(c) + rest;
    assert s[6..] == rest;
    HexRoundTrip(c as int / 16);
    HexRoundTrip(c as int % 16);
    assert s[2..][2] == HexDigit(c as int / 16) && s[2..][3] == HexDigit(c as int % 16);
    assert HexChar(s[2..]) == Some(c);
  }

  lemma EscapedChar(c: char, rest: string)
    ensures ParseChars(Escape(c) + rest) == Consed(c, ParseChars(rest))
  {
    hide Consed, HexChar, Unescape, HexDigit;
    if |Escape(c)| == 2 {
      ShortEscape(c, rest);
    } else if |Escape(c)| == 6 {
      UnicodeEscape(c, rest);
    } else {
      assert (Escape(c) + rest)[1..] == rest;
    }
  }

  lemma HexRoundTrip(d: nat)
    requires d < 16
    ensures HexValue(HexDigit(d)) == Some(d)
  {
    if d < 10 {
      assert HexDigit(d) == "0123456789abcdef"[d];
    }
  }

  lemma CharsStep(x: string, rest: string)
    requires x != ""
    ensures EscapeAll(x) + "\"" + rest == Escape(x[0]) + (EscapeAll(x[1..]) + "\"" + rest)
  {
    hide Escape;
  }

  lemma CharsEnd(rest: string)
    ensures ParseChars(EscapeAll("") + "\"" + rest) == Some(("", rest))
  {
    assert EscapeAll("") + "\"" + rest == "\"" + rest;
    assert ("\"" + rest)[1..] == rest;
  }

  lemma {:induction false} CharsRoundTrip(x: string, rest: string)
    ensures ParseChars(EscapeAll(x) + "\"" + rest) == Some((x, rest))
  {
    hide ParseChars, Escape, EscapeAll;
    if x == "" {
      CharsEnd(rest);
    } else {
      CharsRoundTrip(x[1..], rest);
      CharsStep(x, rest);
      EscapedChar(x[0], EscapeAll(x[1..]) + "\"" + rest);
      assert x == [x[0]] + x[1..];
    }
  }

  lemma DigitRoundTrip(d: nat)
    requires d < 10
    ensures IsDigit(Digit(d)) && Digit(d) as int - '0' as int == d
  {
  }

  lemma {:induction false} NatRoundTrip(n: nat, rest: string)
    ensures ParseNat(Digits(n) + rest, 0) == ParseNat(rest, n)
    ensures Digits(n) != "" && IsDigit(Digits(n)[0])
    decreases n
  {
    DigitRoundTrip(n % 10);
    var last := [Digit(n % 10)];
    assert (last + rest)[1..] == rest;
    if n >= 10 {
      NatRoundTrip(n / 10, last + rest);
      assert Digits(n) + rest == Digits(n / 10) + (last + rest);
      assert n / 10 * 10 + n % 10 == n;
    } else {
      assert ParseNat(last + rest, 0) == ParseNat(rest, 0 * 10 + n);
    }
  }

  /** What may follow a value inside a text. */
  predicate Delimited(rest: string) {
    rest == "" || rest[0] in {',', ']', '}'}
  }

  lemma DigitsParse(m: nat, sign: int, rest: string)
    requires Delimited(rest)
    ensures ParseInt(Digits(m) + rest, sign) == Some((Int(sign * m), rest))
    ensures Digits(m) != "" && IsDigit(Digits(m)[0])
  {
    hide Digits;
    NatRoundTrip(m, rest);
    assert ParseNat(rest, m) == (m, rest);
    assert (Digits(m) + rest)[0] == Digits(m)[0];
  }

  lemma IntRoundTrip(n: int, rest: string)
    requires Delimited(rest)
    ensures ParseValue(IntText(n) + rest) == Some((Int(n), rest))
  {
    hide Digits, ParseInt, ParseChars, ParseItems, ParseFields;
    var m := if n < 0 then -n else n;
    DigitsParse(m, if n < 0 then -1 else 1, rest);
    var s := Digits(m) + rest;
    assert s[0] == Digits(m)[0];
    if n < 0 {
      assert (IntText(n) + rest)[1..] == s;
    }
  }

  lemma LiteralRoundTrip(j: Json, rest: string)
    requires j.Null? || j.Bool?
    ensures ParseValue(Print(j) + rest) == Some((j, rest))
  {
    hide ParseChars, ParseItems, ParseFields, ParseInt;
    var s := Print(j) + rest;
    assert s[|Print(j)|..] == rest && Print(j) <= s;
  }

  lemma StrRoundTrip(x: string, rest: string)
    ensures ParseValue(Quote(x) + rest) == Some((Str(x), rest))
  {
    hide ParseChars, ParseItems, ParseFields, ParseInt, EscapeAll;
    CharsRoundTrip(x, rest);
    var s := Quote(x) + rest;
    assert s[1..] == EscapeAll(x) + "\"" + rest;
  }

  lemma ArrRoundTrip(items: seq<Json>, rest: string)
    requires items != [] ==> ParseItems(PrintItems(items) + "]" + rest) == Some((items, rest))
    ensures ParseValue(Print(Arr(items)) + rest) == Some((Arr(items), rest))
  {
    hide ParseChars, ParseItems, ParseFields, ParseInt, PrintItems;
    var s := Print(Arr(items)) + rest;
    if items == [] {
      assert s[2..] == rest;
    } else {
      var inner := PrintItems(items);
      ItemsStart(items);
      assert s == "[" + (inner + "]" + rest);
      assert s[1..] == inner + "]" + rest && s[1] == inner[0];
    }
  }

  lemma ObjRoundTrip(fields: seq<Field>, rest: string)
    requires fields != [] ==> ParseFields(PrintFields(fields) + "}" + rest) == Some((fields, rest))
    ensures ParseValue(Print(Obj(fields)) + rest) == Some((Obj(fields), rest))
  {
    hide ParseChars, ParseItems, ParseFields, ParseInt, PrintFields;
    var s := Print(Obj(fields)) + rest;
    if fields == [] {
      assert s[2..] == rest;
    } else {
      var inner := PrintFields(fields);
      FieldsStart(fields);
      assert s == "{" + (inner + "}" + rest);
      assert s[1..] == inner + "}" + rest && s[1] == inner[0];
    }
  }

  lemma {:induction false} ValueRoundTrip(j: Json, rest: string)
    requires Delimited(rest)
    ensures ParseValue(Print(j) + rest) == Some((j, rest))
    decreases j, 0
  {
    hide ParseValue, ParseItems, ParseFields, PrintItems, PrintFields;
    match j
    case Null =>
      LiteralRoundTrip(j, rest);
    case Bool(b) =>
      LiteralRoundTrip(j, rest);
    case Int(n) =>
      IntRoundTrip(n, rest);
    case Str(x) =>
      StrRoundTrip(x, rest);
    case Arr(items) =>
      if items != [] {
        ItemsRoundTrip(items, rest);
      }
      ArrRoundTrip(items, rest);
    case Obj(fields) =>
      if fields != [] {
        FieldsRoundTrip(fields, rest);
      }
      ObjRoundTrip(fields, rest);
  }

  lemma ItemsStart(items: seq<Json>)
    requires items != []
    ensures PrintItems(items) != "" && PrintItems(items)[0] != ']'
  {
    hide Print;
    PrintStarts(items[0]);
  }

  lemma FieldsStart(fields: seq<Field>)
    requires fields != []
    ensures PrintFields(fields) != "" && PrintFields(fields)[0] == '"'
  {
    hide Print, EscapeAll;
    assert PrintField(fields[0])[0] == '"';
  }

  lemma PrintStarts(j: Json)
    ensures Print(j) != "" && Print(j)[0] != ']' && Print(j)[0] != '}'
  {
    if j.Int? {
      NatRoundTrip(if j.n < 0 then -j.n else j.n, "");
    }
  }

  lemma ItemsStep(first: string, v: Json, after: string, inner: string, tail: Option<(seq<Json>, string)>)
    requires ParseValue(first + after) == Some((v, after))
    requires after == "," + inner && tail == ParseItems(inner) && tail.Some?
    ensures ParseItems(first + after) == Some(([v] + tail.value.0, tail.value.1))
  {
    hide ParseValue;
    assert after[1..] == inner;
  }

  lemma ItemsEnd(first: string, v: Json, after: string, rest: string)
    requires ParseValue(first + after) == Some((v, after)) && after == "]" + rest
    ensures ParseItems(first + after) == Some(([v], rest))
  {
    hide ParseValue;
    assert after[1..] == rest;
  }

  lemma {:induction false} ItemsRoundTrip(items: seq<Json>, rest: string)
    requires items != []
    ensures ParseItems(PrintItems(items) + "]" + rest) == Some((items, rest))
    decreases items, 1
  {
    hide ParseItems, ParseValue, Print;
    var s := PrintItems(items) + "]" + rest;
    var first := Print(items[0]);
    if |items| == 1 {
      var after := "]" + rest;
      ValueRoundTrip(items[0], after);
      ItemsEnd(first, items[0], after, rest);
      assert s == first + after && items == [items[0]];
    } else {
      ItemsRoundTrip(items[1..], rest);
      var inner := PrintItems(items[1..]) + "]" + rest;
      var after := "," + inner;
      ValueRoundTrip(items[0], after);
      ItemsStep(first, items[0], after, inner, ParseItems(inner));
      assert s == first + after && items == [items[0]] + items[1..];
    }
  }

  lemma {:induction false} FieldRoundTrip(f: Field, rest: string)
    requires Delimited(rest)
    ensures ParseField(PrintField(f) + rest) == Some((f, rest))
    decreases f, 1
  {
    hide ParseValue, ParseChars, Print, EscapeAll;
    var s := PrintField(f) + rest;
    var value := Print(f.value) + rest;
    var after := ":" + value;
    CharsRoundTrip(f.key, after);
    assert s[1..] == EscapeAll(f.key) + "\"" + after;
    assert after[1..] == value;
    ValueRoundTrip(f.value, rest);
  }

  lemma FieldsStep(first: string, f: Field, after: string, inner: string, tail: Option<(seq<Field>, string)>)
    requires ParseField(first + after) == Some((f, after))
    requires after == "," + inner && tail == ParseFields(inner) && tail.Some?
    ensures ParseFields(first + after) == Some(([f] + tail.value.0, tail.value.1))
  {
    hide ParseField;
    assert after[1..] == inner;
  }

  lemma FieldsEnd(first: string, f: Field, after: string, rest: string)
    requires ParseField(first + after) == Some((f, after)) && after == "}" + rest
    ensures ParseFields(first + after) == Some(([f], rest))
  {
    hide ParseField;
    assert after[1..] == rest;
  }

  lemma {:induction false} FieldsRoundTrip(fields: seq<Field>, rest: string)
    requires fields != []
    ensures ParseFields(PrintFields(fields) + "}" + rest) == Some((fields, rest))
    decreases fields, 2
  {
    hide ParseField, ParseFields, PrintField;
    var s := PrintFields(fields) + "}" + rest;
    var first := PrintField(fields[0]);
    if |fields| == 1 {
      var after := "}" + rest;
      FieldRoundTrip(fields[0], after);
      FieldsEnd(first, fields[0], after, rest);
      assert s == first + after && fields == [fields[0]];
    } else {
      FieldsRoundTrip(fields[1..], rest);
      var inner := PrintFields(fields[1..]) + "}" + rest;
      var after := "," + inner;
      FieldRoundTrip(fields[0], after);
      FieldsStep(first, fields[0], after, inner, ParseFields(inner));
      assert s == first + after && fields == [fields[0]] + fields[1..];
    }
  }

  /** In every object of the tree the keys stand in code-point order. */
  ghost predicate KeysInOrder(j: Json) {
    match j
    case Arr(items) => forall x | x in items :: KeysInOrder(x)
    case Obj(fields) => FieldsInOrder(fields) && forall f | f in fields :: KeysInOrder(f.value)
    case _ => true
  }

  ghost predicate FieldsInOrder(fields: seq<Field>) {
    forall i, k | 0 <= i < k < |fields| :: UpTo(fields[i].key, fields[k].key)
  }

  lemma SortedFieldsInOrder(fields: seq<Field>)
    ensures FieldsInOrder(SortBy(fields, KeyOf))
  {
    hide SortBy, UpTo;
    forall i, k | 0 <= i < k < |SortBy(fields, KeyOf)|
      ensures UpTo(SortBy(fields, KeyOf)[i].key, SortBy(fields, KeyOf)[k].key)
    {
      SortByInOrder(fields, KeyOf, i, k);
    }
  }

  lemma {:induction false} NormalKeysInOrder(j: Json)
    ensures KeysInOrder(Normal(j))
  {
    hide FieldsInOrder, SortBy;
    if j.Arr? {
      NormalItemsAt(j.items);
      forall i | 0 <= i < |j.items|
        ensures KeysInOrder(Normal(j.items[i]))
      {
        NormalKeysInOrder(j.items[i]);
      }
    } else if j.Obj? {
      var fields := NormalFields(j.fields);
      NormalFieldsAt(j.fields);
      SortedFieldsInOrder(fields);
      SortByMembers(fields, KeyOf);
      forall i | 0 <= i < |j.fields|
        ensures KeysInOrder(Normal(j.fields[i].value))
      {
        assert j.fields[i] in j.fields;
        NormalKeysInOrder(j.fields[i].value);
      }
    }
  }

  /** Parsing the canonical text recovers the tree with its keys sorted: they stand in the text in
      code-point order. */
  lemma ParseCanonical(j: Json)
    ensures Parse(Canonical(j)) == Some(Normal(j))
    ensures KeysInOrder(Normal(j))
  {
    ValueRoundTrip(Normal(j), "");
    assert Canonical(j) + "" == Canonical(j);
    NormalKeysInOrder(j);
  }

  // ---------------------------------------------------------------- the chosen spelling

  /** Among the spellings that read back, the encoder writes a character as it is unless it is a quote, a
      backslash or a control character, and a control character by its letter if it has one. */
  lemma EscapesOnlyWhatItMust(c: char)
    ensures Escape(c) == [c] <==> c != '\\' && c != '"' && c as int >= 0x20
    ensures |Escape(c)| == 2 <==> c in {'\\', '"', '\n', '\r', '\t', 8 as char, 12 as char}
    ensures |Escape(c)| in {1, 2, 6}
  {
  }

  /** Integers are written without leading zeros, and only negative ones with a sign. */
  lemma {:induction false} NoLeadingZero(n: nat)
    ensures Digits(n) != "" && (forall c | c in Digits(n) :: IsDigit(c)) && (Digits(n)[0] == '0' ==> n == 0 && |Digits(n)| == 1)
  {
    if n >= 10 {
      NoLeadingZero(n / 10);
    }
  }

  lemma IntegerSpelling(n: int)
    ensures IntText(n) != ""
    ensures IntText(n)[0] == '-' <==> n < 0
    ensures var digits := if n < 0 then IntText(n)[1..] else IntText(n);
            digits != "" && (forall c | c in digits :: '0' <= c <= '9') && (digits[0] == '0' ==> digits == "0" && n == 0)
  {
    var size := if n < 0 then -n else n;
    NoLeadingZero(size);
    assert Digits(size)[0] in Digits(size);
    if n < 0 {
      assert IntText(n)[1..] == Digits(-n);
    }
  }

  // ---------------------------------------------------------------- which payloads print alike

  ghost predicate UniqueKeys(fields: seq<Field>) {
    forall i, j | 0 <= i < j < |fields| :: fields[i].key != fields[j].key
  }

  /** Every object in the tree has distinct keys, as a dictionary does. */
  ghost predicate Dictionary(j: Json) {
    match j
    case Arr(items) => forall x | x in items :: Dictionary(x)
    case Obj(fields) => UniqueKeys(fields) && forall f | f in fields :: Dictionary(f.value)
    case _ => true
  }

  ghost predicate HasKey(fields: seq<Field>, key: string) {
    exists f :: f in fields && f.key == key
  }

  ghost predicate SameKeys(fs: seq<Field>, gs: seq<Field>) {
    && (forall f | f in fs :: HasKey(gs, f.key))
    && (forall g | g in gs :: HasKey(fs, g.key))
  }

  /** The trees are equal except for the order of the keys in their objects. */
  ghost predicate SameUpToKeyOrder(a: Json, b: Json)
    decreases a
  {
    if a.Arr? && b.Arr? then
      |a.items| == |b.items| && forall i | 0 <= i < |a.items| :: SameUpToKeyOrder(a.items[i], b.items[i])
    else if a.Obj? && b.Obj? then
      && SameKeys(a.fields, b.fields)
      && forall f, g | f in a.fields && g in b.fields && f.key == g.key :: SameUpToKeyOrder(f.value, g.value)
    else a == b
  }

  lemma {:induction false} NormalItemsAt(items: seq<Json>)
    ensures |NormalItems(items)| == |items|
    ensures forall i | 0 <= i < |items| :: NormalItems(items)[i] == Normal(items[i])
  {
    hide Normal;
    if items != [] {
      NormalItemsAt(items[1..]);
    }
  }

  lemma {:induction false} NormalFieldsAt(fields: seq<Field>)
    ensures |NormalFields(fields)| == |fields|
    ensures forall i | 0 <= i < |fields| :: NormalFields(fields)[i] == Field(fields[i].key, Normal(fields[i].value))
  {
    hide Normal;
    if fields != [] {
      NormalFieldsAt(fields[1..]);
    }
  }

  /** Two payloads have the same canonical text exactly when their sorted trees are equal. */
  lemma CanonicalIsNormal(a: Json, b: Json)
    ensures Canonical(a) == Canonical(b) <==> Normal(a) == Normal(b)
  {
    hide Canonical, Parse, Normal;
    ParseCanonical(a);
    ParseCanonical(b);
    CanonicalText(a);
    CanonicalText(b);
  }

  lemma CanonicalText(j: Json)
    ensures Canonical(j) == Print(Normal(j))
  {
  }

  lemma {:induction false} UniqueCounts(fields: seq<Field>, f: Field)
    requires UniqueKeys(fields)
    ensures multiset(fields)[f] <= 1
  {
    if fields != [] {
      assert fields == [fields[0]] + fields[1..];
      UniqueCounts(fields[1..], f);
      assert fields[0] !in fields[1..];
    }
  }

  lemma SameFieldsSameMultiset(fs: seq<Field>, gs: seq<Field>)
    requires UniqueKeys(fs) && UniqueKeys(gs) && forall f :: f in fs <==> f in gs
    ensures multiset(fs) == multiset(gs)
  {
    forall f
      ensures multiset(fs)[f] == multiset(gs)[f]
    {
      UniqueCounts(fs, f);
      UniqueCounts(gs, f);
      assert f in multiset(fs) <==> f in fs;
      assert f in multiset(gs) <==> f in gs;
    }
  }

  lemma UniqueKeysDetermine(fields: seq<Field>)
    requires UniqueKeys(fields)
    ensures KeyDetermines(fields, KeyOf)
  {
  }

  ghost function Normalized(f: Field): Field {
    Field(f.key, Normal(f.value))
  }

  lemma NormalFieldsMembers(fields: seq<Field>, x: Field)
    ensures x in NormalFields(fields) <==> exists f :: f in fields && x == Normalized(f)
  {
    hide Normal;
    NormalFieldsAt(fields);
    var ns := NormalFields(fields);
    if x in ns {
      var i :| 0 <= i < |ns| && ns[i] == x;
      assert fields[i] in fields && x == Normalized(fields[i]);
    }
    if f :| f in fields && x == Normalized(f) {
      var i :| 0 <= i < |fields| && fields[i] == f;
      assert ns[i] == x;
    }
  }

  lemma NormalKeysUnique(fields: seq<Field>)
    requires UniqueKeys(fields)
    ensures UniqueKeys(NormalFields(fields))
  {
    hide Normal, NormalFields;
    NormalFieldsAt(fields);
  }

  /** The same fields, in whatever order. */
  ghost predicate SameFields(fs: seq<Field>, gs: seq<Field>) {
    forall x :: x in fs <==> x in gs
  }

  /** Sorted normalized fields coincide exactly when the normalized fields do as sets. */
  lemma SortedFieldsEqual(fs: seq<Field>, gs: seq<Field>)
    requires UniqueKeys(fs) && UniqueKeys(gs)
    ensures SortBy(fs, KeyOf) == SortBy(gs, KeyOf) <==> SameFields(fs, gs)
  {
    hide UniqueKeys, SortBy;
    SortByMembers(fs, KeyOf);
    SortByMembers(gs, KeyOf);
    if SameFields(fs, gs) {
      SameFieldsSameMultiset(fs, gs);
      UniqueKeysDetermine(fs);
      SortByPermutation(fs, gs, KeyOf);
    }
  }

  lemma FieldByKey(fields: seq<Field>, f: Field, g: Field)
    requires UniqueKeys(fields) && f in fields && g in fields && f.key == g.key
    ensures f == g
  {
  }

  ghost predicate FieldsSame(fs: seq<Field>, gs: seq<Field>) {
    && SameKeys(fs, gs)
    && forall f, g | f in fs && g in gs && f.key == g.key :: Normal(f.value) == Normal(g.value)
  }

  lemma SameFieldsCover(fs: seq<Field>, gs: seq<Field>, x: Field)
    requires FieldsSame(fs, gs) && x in NormalFields(fs)
    ensures x in NormalFields(gs)
  {
    hide Normal, NormalFields;
    NormalFieldsMembers(fs, x);
    NormalFieldsMembers(gs, x);
    var f :| f in fs && x == Normalized(f);
    assert HasKey(gs, f.key);
    var g :| g in gs && g.key == f.key;
    assert x == Normalized(g);
  }

  lemma FieldsSameSymmetric(fs: seq<Field>, gs: seq<Field>)
    requires FieldsSame(fs, gs)
    ensures FieldsSame(gs, fs)
  {
    hide Normal;
  }

  /** The field of gs that matches f, when the normalized fields of fs are among those of gs. */
  lemma Partner(fs: seq<Field>, gs: seq<Field>, f: Field) returns (g: Field)
    requires f in fs && forall x | x in NormalFields(fs) :: x in NormalFields(gs)
    ensures g in gs && g.key == f.key && Normal(g.value) == Normal(f.value)
  {
    hide Normal, NormalFields;
    NormalFieldsMembers(fs, Normalized(f));
    NormalFieldsMembers(gs, Normalized(f));
    g :| g in gs && Normalized(f) == Normalized(g);
  }

  lemma MembersSameFields(fs: seq<Field>, gs: seq<Field>)
    requires UniqueKeys(gs) && SameFields(NormalFields(fs), NormalFields(gs))
    ensures FieldsSame(fs, gs)
  {
    hide Normal, NormalFields, UniqueKeys;
    forall f | f in fs
      ensures HasKey(gs, f.key)
    {
      var g := Partner(fs, gs, f);
    }
    forall g | g in gs
      ensures HasKey(fs, g.key)
    {
      var f := Partner(gs, fs, g);
    }
    forall f, g | f in fs && g in gs && f.key == g.key
      ensures Normal(f.value) == Normal(g.value)
    {
      var h := Partner(fs, gs, f);
      FieldByKey(gs, g, h);
    }
  }

  lemma FieldsSameCover(fs: seq<Field>, gs: seq<Field>)
    requires FieldsSame(fs, gs)
    ensures SameFields(NormalFields(fs), NormalFields(gs))
  {
    hide FieldsSame, NormalFields;
    FieldsSameSymmetric(fs, gs);
    forall x
      ensures x in NormalFields(fs) <==> x in NormalFields(gs)
    {
      if x in NormalFields(fs) {
        SameFieldsCover(fs, gs, x);
      }
      if x in NormalFields(gs) {
        SameFieldsCover(gs, fs, x);
      }
    }
  }

  lemma FieldsSameIffMembers(fs: seq<Field>, gs: seq<Field>)
    requires UniqueKeys(fs) && UniqueKeys(gs)
    ensures FieldsSame(fs, gs) <==> SameFields(NormalFields(fs), NormalFields(gs))
  {
    hide *;
    if FieldsSame(fs, gs) {
      FieldsSameCover(fs, gs);
    }
    if SameFields(NormalFields(fs), NormalFields(gs)) {
      MembersSameFields(fs, gs);
    }
  }

  /** Sorted trees are equal exactly when the trees differ only in key order. */
  lemma {:induction false} NormalIffSame(a: Json, b: Json)
    requires Dictionary(a) && Dictionary(b)
    ensures Normal(a) == Normal(b) <==> SameUpToKeyOrder(a, b)
  {
    if a.Arr? && b.Arr? {
      NormalItemsAt(a.items);
      NormalItemsAt(b.items);
      if |a.items| == |b.items| {
        forall i | 0 <= i < |a.items|
          ensures Normal(a.items[i]) == Normal(b.items[i]) <==> SameUpToKeyOrder(a.items[i], b.items[i])
        {
          assert a.items[i] in a.items && b.items[i] in b.items;
          NormalIffSame(a.items[i], b.items[i]);
        }
        ArraysEqual(a.items, b.items);
      }
    } else if a.Obj? && b.Obj? {
      forall f, g | f in a.fields && g in b.fields
        ensures Normal(f.value) == Normal(g.value) <==> SameUpToKeyOrder(f.value, g.value)
      {
        NormalIffSame(f.value, g.value);
      }
      ObjectsAlike(a.fields, b.fields);
    }
  }

  lemma ArraysEqual(xs: seq<Json>, ys: seq<Json>)
    requires |xs| == |ys|
    ensures Normal(Arr(xs)) == Normal(Arr(ys)) <==> forall i | 0 <= i < |xs| :: Normal(xs[i]) == Normal(ys[i])
  {
    NormalItemsAt(xs);
    NormalItemsAt(ys);
    if forall i | 0 <= i < |xs| :: Normal(xs[i]) == Normal(ys[i]) {
      assert NormalItems(xs) == NormalItems(ys);
    }
    if Normal(Arr(xs)) == Normal(Arr(ys)) {
      forall i | 0 <= i < |xs|
        ensures Normal(xs[i]) == Normal(ys[i])
      {
        assert NormalItems(xs)[i] == NormalItems(ys)[i];
      }
    }
  }

  lemma ObjectsEqual(fs: seq<Field>, gs: seq<Field>)
    requires UniqueKeys(fs) && UniqueKeys(gs)
    ensures Normal(Obj(fs)) == Normal(Obj(gs)) <==> FieldsSame(fs, gs)
  {
    hide NormalFields, SortBy, FieldsSame;
    NormalKeysUnique(fs);
    NormalKeysUnique(gs);
    FieldsSameIffMembers(fs, gs);
    SortedFieldsEqual(NormalFields(fs), NormalFields(gs));
  }

  lemma ObjectsAlike(fs: seq<Field>, gs: seq<Field>)
    requires UniqueKeys(fs) && UniqueKeys(gs)
    requires forall f, g | f in fs && g in gs :: Normal(f.value) == Normal(g.value) <==> SameUpToKeyOrder(f.value, g.value)
    ensures Normal(Obj(fs)) == Normal(Obj(gs)) <==> SameUpToKeyOrder(Obj(fs), Obj(gs))
  {
    hide Normal, UniqueKeys, SameKeys;
    ObjectsEqual(fs, gs);
    assert FieldsSame(fs, gs) <==> SameUpToKeyOrder(Obj(fs), Obj(gs));
  }

  /** Two payloads print alike exactly when they differ only in key order. */
  lemma PrintAlike(a: Json, b: Json)
    requires Dictionary(a) && Dictionary(b)
    ensures Canonical(a) == Canonical(b) <==> SameUpToKeyOrder(a, b)
  {
    CanonicalIsNormal(a, b);
    NormalIffSame(a, b);
  }

  ghost predicate ValuesSame(fs: seq<Field>, gs: seq<Field>)
    requires |fs| == |gs|
  {
    forall i | 0 <= i < |fs| :: SameUpToKeyOrder(fs[i].value, gs[i].value)
  }

  lemma AlignedFieldsMatch(fs: seq<Field>, gs: seq<Field>, f: Field, g: Field) returns (i: nat)
    requires |fs| == |gs| && UniqueKeys(fs) && forall k | 0 <= k < |fs| :: fs[k].key == gs[k].key
    requires f in fs && g in gs && f.key == g.key
    ensures i < |fs| && f == fs[i] && g == gs[i]
  {
    i :| 0 <= i < |fs| && fs[i] == f;
    var j :| 0 <= j < |gs| && gs[j] == g;
    assert fs[j].key == fs[i].key;
  }

  lemma AlignedKeysSame(fs: seq<Field>, gs: seq<Field>)
    requires |fs| == |gs| && forall k | 0 <= k < |fs| :: fs[k].key == gs[k].key
    ensures SameKeys(fs, gs)
  {
    forall f | f in fs
      ensures HasKey(gs, f.key)
    {
      var i :| 0 <= i < |fs| && fs[i] == f;
      assert gs[i] in gs;
    }
    forall g | g in gs
      ensures HasKey(fs, g.key)
    {
      var i :| 0 <= i < |gs| && gs[i] == g;
      assert fs[i] in fs;
    }
  }

  /** For objects listing the same distinct keys in the same order, comparing them is comparing values. */
  lemma AlignedFieldsSame(fs: seq<Field>, gs: seq<Field>)
    requires |fs| == |gs| && UniqueKeys(fs) && forall i | 0 <= i < |fs| :: fs[i].key == gs[i].key
    ensures SameUpToKeyOrder(Obj(fs), Obj(gs)) <==> ValuesSame(fs, gs)
  {
    hide UniqueKeys, SameKeys;
    AlignedKeysSame(fs, gs);
    if ValuesSame(fs, gs) {
      forall f, g | f in fs && g in gs && f.key == g.key
        ensures SameUpToKeyOrder(f.value, g.value)
      {
        var i := AlignedFieldsMatch(fs, gs, f, g);
      }
    }
    if SameUpToKeyOrder(Obj(fs), Obj(gs)) {
      forall i | 0 <= i < |fs|
        ensures SameUpToKeyOrder(fs[i].value, gs[i].value)
      {
        assert fs[i] in fs && gs[i] in gs;
      }
    }
  }

  lemma StringsSame(x: string, y: string)
    ensures SameUpToKeyOrder(Str(x), Str(y)) <==> x == y
  {
  }
}
