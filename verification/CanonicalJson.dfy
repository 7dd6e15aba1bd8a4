/**
 Canonical text of a tree of strings and objects.  Strings are sequences of UTF-16
 code units, as the language orders and prints them.
 */
module CanonicalJson {
  import opened Wrappers

  type Unit = u: int | 0 <= u < 0x1_0000

  type Str = seq<Unit>

  /** The members of an object in insertion order. */
  datatype Members<V> = Nil | Member(key: Str, value: V, rest: Members<V>)

  datatype Tree = Text(text: Str) | Object(members: Members<Tree>)

  const QUOTE: Unit := 0x22
  const COMMA: Unit := 0x2C
  const COLON: Unit := 0x3A
  const BACKSLASH: Unit := 0x5C
  const OPEN: Unit := 0x7B
  const CLOSE: Unit := 0x7D

  // ----- quoting, after section 7 of RFC 8259 -----

  predicate IsHigh(u: Unit) {
    0xD800 <= u <= 0xDBFF
  }

  predicate IsLow(u: Unit) {
    0xDC00 <= u <= 0xDFFF
  }

  function HexDigit(n: nat): Unit
    requires n < 16
  {
    if n < 10 then 0x30 + n else 0x61 + (n - 10)
  }

  function HexEscape(u: Unit): Str {
    [BACKSLASH, 0x75, HexDigit(u / 0x1000), HexDigit(u / 0x100 % 16), HexDigit(u / 0x10 % 16), HexDigit(u % 16)]
  }

  /** A unit on its own: the short escapes, hexadecimal for other controls and for lone surrogates, or itself. */
  function QuoteUnit(u: Unit): Str {
    if u == QUOTE || u == BACKSLASH then [BACKSLASH, u]
    else if u == 0x08 then [BACKSLASH, 0x62]
    else if u == 0x09 then [BACKSLASH, 0x74]
    else if u == 0x0A then [BACKSLASH, 0x6E]
    else if u == 0x0C then [BACKSLASH, 0x66]
    else if u == 0x0D then [BACKSLASH, 0x72]
    else if u < 0x20 || IsHigh(u) || IsLow(u) then HexEscape(u)
    else [u]
  }

  predicate StartsWithPair(s: Str) {
    |s| >= 2 && IsHigh(s[0]) && IsLow(s[1])
  }

  function QuoteBody(s: Str): Str {
    if s == [] then []
    else if StartsWithPair(s) then s[..2] + QuoteBody(s[2..])
    else QuoteUnit(s[0]) + QuoteBody(s[1..])
  }

  function Quote(s: Str): Str {
    [QUOTE] + QuoteBody(s) + [QUOTE]
  }

  // ----- printing -----

  /** Code unit order, a prefix first. */
  predicate Less(a: Str, b: Str) {
    if b == [] then false
    else if a == [] then true
    else a[0] < b[0] || (a[0] == b[0] && Less(a[1..], b[1..]))
  }

  function InsertMember<V>(key: Str, value: V, sorted: Members<V>): Members<V> {
    match sorted
    case Nil => Member(key, value, Nil)
    case Member(k, v, rest) =>
      if Less(key, k) then Member(key, value, sorted) else Member(k, v, InsertMember(key, value, rest))
  }

  function Sort<V>(members: Members<V>): Members<V> {
    match members
    case Nil => Nil
    case Member(key, value, rest) => InsertMember(key, value, Sort(rest))
  }

  function Joined(members: Members<Str>): Str {
    match members
    case Nil => []
    case Member(key, text, Nil) => Quote(key) + [COLON] + text
    case Member(key, text, rest) => Quote(key) + [COLON] + text + [COMMA] + Joined(rest)
  }

  function PrintMembers(members: Members<Tree>): Members<Str> {
    match members
    case Nil => Nil
    case Member(key, value, rest) => Member(key, Print(value), PrintMembers(rest))
  }

  /** The order of members depends on their keys alone, so it is taken after their values are printed. */
  function Print(t: Tree): Str {
    match t
    case Text(text) => Quote(text)
    case Object(members) => [OPEN] + Joined(Sort(PrintMembers(members))) + [CLOSE]
  }

  // ----- parsing -----

  function HexValue(u: Unit): (value: Option<nat>)
    ensures value.Some? ==> value.value < 16
  {
    if 0x30 <= u <= 0x39 then Some(u - 0x30)
    else if 0x61 <= u <= 0x66 then Some(u - 0x61 + 10)
    else None
  }

  function HexUnit(a: Unit, b: Unit, c: Unit, d: Unit): Option<Unit> {
    if HexValue(a).Some? && HexValue(b).Some? && HexValue(c).Some? && HexValue(d).Some?
    then Some(HexValue(a).value * 0x1000 + HexValue(b).value * 0x100 + HexValue(c).value * 0x10 + HexValue(d).value)
    else None
  }

  function ShortEscape(u: Unit): Option<Unit> {
    if u == QUOTE || u == BACKSLASH then Some(u)
    else if u == 0x62 then Some(0x08)
    else if u == 0x74 then Some(0x09)
    else if u == 0x6E then Some(0x0A)
    else if u == 0x66 then Some(0x0C)
    else if u == 0x72 then Some(0x0D)
    else None
  }

  datatype Parsed<T> = Parsed(value: T, rest: Str)

  /** One unit of a string body and what follows it. */
  function ParseUnit(text: Str): (p: Option<Parsed<Unit>>)
    requires text != []
    ensures p.Some? ==> |p.value.rest| < |text|
  {
    if text[0] != BACKSLASH then Some(Parsed(text[0], text[1..]))
    else if |text| >= 2 && ShortEscape(text[1]).Some? then Some(Parsed(ShortEscape(text[1]).value, text[2..]))
    else if |text| >= 6 && text[1] == 0x75 && HexUnit(text[2], text[3], text[4], text[5]).Some? then
      Some(Parsed(HexUnit(text[2], text[3], text[4], text[5]).value, text[6..]))
    else None
  }

  /** The units up to the closing quote, and what follows it. */
  function ParseBody(text: Str): (p: Option<Parsed<Str>>)
    ensures p.Some? ==> |p.value.rest| < |text|
    decreases |text|
  {
    if text == [] then None
    else if text[0] == QUOTE then Some(Parsed([], text[1..]))
    else
      var unit := ParseUnit(text);
      if unit.None? then None
      else
        var body := ParseBody(unit.value.rest);
        if body.None? then None else Some(Parsed([unit.value.value] + body.value.value, body.value.rest))
  }

  function ParseValue(text: Str): (p: Option<Parsed<Tree>>)
    ensures p.Some? ==> |p.value.rest| < |text|
    decreases |text|, 0
  {
    if text == [] then None
    else if text[0] == QUOTE then
      var body := ParseBody(text[1..]);
      if body.None? then None else Some(Parsed(Text(body.value.value), body.value.rest))
    else if text[0] == OPEN then
      if |text| >= 2 && text[1] == CLOSE then Some(Parsed(Object(Nil), text[2..]))
      else
        var members := ParseMembers(text[1..]);
        if members.None? then None else Some(Parsed(Object(members.value.value), members.value.rest))
    else None
  }

  function ParseMembers(text: Str): (p: Option<Parsed<Members<Tree>>>)
    ensures p.Some? ==> |p.value.rest| < |text|
    decreases |text|, 1
  {
    if text == [] || text[0] != QUOTE then None
    else
      var key := ParseBody(text[1..]);
      if key.None? || key.value.rest == [] || key.value.rest[0] != COLON then None
      else
        var value := ParseValue(key.value.rest[1..]);
        if value.None? || value.value.rest == [] then None
        else if value.value.rest[0] == CLOSE then
          Some(Parsed(Member(key.value.value, value.value.value, Nil), value.value.rest[1..]))
        else if value.value.rest[0] != COMMA then None
        else
          var rest := ParseMembers(value.value.rest[1..]);
          if rest.None? then None
          else Some(Parsed(Member(key.value.value, value.value.value, rest.value.value), rest.value.rest))
  }

  // ----- what a tree means -----

  datatype Value = Leaf(text: Str) | Node(fields: map<Str, Value>)

  function FieldsOf(members: Members<Tree>): map<Str, Value> {
    match members
    case Nil => map[]
    case Member(key, value, rest) => FieldsOf(rest)[key := Meaning(value)]
  }

  /** A tree as nested maps, in which the order of members is gone. */
  function Meaning(t: Tree): Value {
    match t
    case Text(text) => Leaf(text)
    case Object(members) => Node(FieldsOf(members))
  }

  predicate HasKey<V(!new)>(members: Members<V>, key: Str) {
    match members
    case Nil => false
    case Member(k, _, rest) => k == key || HasKey(rest, key)
  }

  predicate WellFormedMembers(members: Members<Tree>) {
    match members
    case Nil => true
    case Member(key, value, rest) => !HasKey(rest, key) && WellFormed(value) && WellFormedMembers(rest)
  }

  /** No object of the tree has a key twice. */
  predicate WellFormed(t: Tree) {
    t.Text? || WellFormedMembers(t.members)
  }
}
