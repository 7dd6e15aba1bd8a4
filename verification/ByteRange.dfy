/** The single byte range of a Range header, after section 14.1.2 of RFC 9110. */
module ByteRange {
  import opened Wrappers

  const MAX_SAFE_INTEGER := 0x1F_FFFF_FFFF_FFFF

  datatype Range = Range(offset: nat, length: nat)

  // ----- decimal text -----

  predicate IsDigit(c: char) {
    '0' <= c <= '9'
  }

  predicate AllDigits(s: string) {
    forall i :: 0 <= i < |s| ==> IsDigit(s[i])
  }

  /** The number of digits that a text begins with. */
  function DigitCount(s: string): (n: nat)
    ensures n <= |s| && AllDigits(s[..n]) && (n < |s| ==> !IsDigit(s[n]))
  {
    if s == [] || !IsDigit(s[0]) then 0 else 1 + DigitCount(s[1..])
  }

  function Value(s: string): nat
    requires AllDigits(s)
  {
    if s == [] then 0 else Value(s[..|s| - 1]) * 10 + (s[|s| - 1] - '0') as int
  }

  function Decimal(n: nat): (s: string)
    ensures s != [] && AllDigits(s)
  {
    if n < 10 then [('0' as int + n) as char] else Decimal(n / 10) + [('0' as int + n % 10) as char]
  }

  lemma {:induction false} ValueOfDecimal(n: nat)
    ensures Value(Decimal(n)) == n
  {
    if n >= 10 {
      ValueOfDecimal(n / 10);
      assert Decimal(n)[..|Decimal(n)| - 1] == Decimal(n / 10);
    } else {
      assert Decimal(n)[..0] == [];
    }
  }

  // ----- parsing -----

  predicate IsSpace(c: char) {
    || '\U{0009}' <= c <= '\U{000D}' || c == ' ' || c == '\U{00A0}' || c == '\U{1680}'
    || '\U{2000}' <= c <= '\U{200A}' || c == '\U{2028}' || c == '\U{2029}' || c == '\U{202F}'
    || c == '\U{205F}' || c == '\U{3000}' || c == '\U{FEFF}'
  }

  function TrimStart(s: string): (t: string)
    ensures t == [] || !IsSpace(t[0])
    ensures s == [] || !IsSpace(s[0]) ==> t == s
  {
    if s != [] && IsSpace(s[0]) then TrimStart(s[1..]) else s
  }

  function TrimEnd(s: string): (t: string)
    ensures t == [] || !IsSpace(t[|t| - 1])
    ensures s == [] || !IsSpace(s[|s| - 1]) ==> t == s
  {
    if s != [] && IsSpace(s[|s| - 1]) then TrimEnd(s[..|s| - 1]) else s
  }

  function Trim(s: string): string {
    TrimEnd(TrimStart(s))
  }

  const UNIT := "bytes="

  /** The two digit texts of a matching header. */
  function Match(text: string): Option<(string, string)> {
    if |text| < |UNIT| || text[..|UNIT|] != UNIT then None
    else
      var rest := text[|UNIT|..];
      var n := DigitCount(rest);
      if n == |rest| || rest[n] != '-' then None
      else
        var tail := rest[n + 1..];
        if DigitCount(tail) == |tail| then Some((rest[..n], tail)) else None
  }

  function Min(a: int, b: int): int {
    if a < b then a else b
  }

  function SuffixRange(suffix: nat, size: nat): Option<Range> {
    if suffix > MAX_SAFE_INTEGER || suffix < 1 then None
    else
      var length := Min(suffix, size);
      Some(Range(size - length, length))
  }

  function StartRange(start: nat, requestedEnd: int, size: nat): Option<Range> {
    if start > MAX_SAFE_INTEGER || start >= size then None
    else if requestedEnd > MAX_SAFE_INTEGER || requestedEnd < start then None
    else Some(Range(start, Min(requestedEnd, size - 1) - start + 1))
  }

  /** An object's size is a safe integer, so the open end is one too. */
  function ParseSingleByteRange(value: string, size: nat): Option<Range> {
    var texts := Match(Trim(value));
    if texts.None? || size < 1 then None
    else
      var (startText, endText) := texts.value;
      var startDigits := NumberOf(startText);
      var endDigits := NumberOf(endText);
      if startText == "" && endText == "" then None
      else if startText == "" then (if endDigits.Some? then SuffixRange(endDigits.value, size) else None)
      else if startDigits.None? || endDigits.None? then None
      else StartRange(startDigits.value, if endText == "" then size - 1 else endDigits.value, size)
  }

  /** The number that a text of digits only denotes. */
  function NumberOf(s: string): Option<nat> {
    if AllDigits(s) then Some(Value(s)) else None
  }

  // ----- what a header asks for -----

  /** A range specifier: the last bytes, the bytes from a position, or the bytes between two positions. */
  datatype Spec = Suffix(suffix: nat) | From(start: nat) | Between(start: nat, end: nat)

  function Print(spec: Spec): string {
    match spec
    case Suffix(n) => UNIT + "-" + Decimal(n)
    case From(start) => UNIT + Decimal(start) + "-"
    case Between(start, end) => UNIT + Decimal(start) + "-" + Decimal(end)
  }

  /** The specifier is valid and satisfiable by the standard: it asks for at least one byte there is. */
  predicate Satisfiable(spec: Spec, size: nat) {
    match spec
    case Suffix(n) => n >= 1 && size >= 1
    case From(start) => start < size
    case Between(start, end) => start <= end && start < size
  }

  /** Every number the specifier names is a safe integer, which the standard does not ask. */
  predicate Safe(spec: Spec) {
    match spec
    case Suffix(n) => n <= 9_007_199_254_740_991
    case From(start) => start <= 9_007_199_254_740_991
    case Between(start, end) => start <= 9_007_199_254_740_991 && end <= 9_007_199_254_740_991
  }

  /** Satisfiable means that some byte is wanted. */
  lemma SatisfiableMeans(spec: Spec, size: nat)
    ensures Satisfiable(spec, size) <==> exists p: int :: Wants(spec, size, p)
  {
    if Satisfiable(spec, size) {
      var p := match spec case Suffix(_) => size - 1 case From(start) => start case Between(start, _) => start;
      assert Wants(spec, size, p);
    }
  }

  /** The specifier asks for the byte at this position of the object. */
  predicate Wants(spec: Spec, size: nat, position: int) {
    0 <= position < size
    && match spec
       case Suffix(n) => size - n <= position
       case From(start) => start <= position
       case Between(start, end) => start <= position <= end
  }

  predicate Covers(r: Range, position: int) {
    r.offset <= position < r.offset + r.length
  }

  /** A range is exactly the bytes a specifier asks for, and there is at least one. */
  ghost predicate Selects(spec: Spec, size: nat, r: Range) {
    && 1 <= r.length && r.offset + r.length <= size
    && forall p: int :: Covers(r, p) <==> Wants(spec, size, p)
  }

  lemma MatchOfTexts(a: string, b: string)
    requires AllDigits(a) && AllDigits(b)
    ensures Match(UNIT + a + "-" + b) == Some((a, b))
  {
    var text := UNIT + a + "-" + b;
    var rest := text[|UNIT|..];
    assert text[..|UNIT|] == UNIT;
    assert rest == a + "-" + b;
    var n := DigitCount(rest);
    assert forall i :: 0 <= i < |a| ==> rest[i] == a[i] && IsDigit(rest[i]);
    assert rest[|a|] == '-';
    assert n == |a| by {
      assert n < |rest| ==> !IsDigit(rest[n]);
      assert forall i :: 0 <= i < n ==> rest[..n][i] == rest[i];
    }
    assert rest[..n] == a;
    assert rest[n + 1..] == b;
    DigitsOnly(b);
  }

  lemma DigitsOnly(s: string)
    requires AllDigits(s)
    ensures DigitCount(s) == |s|
  {
  }

  /** A matching text is the unit, digits, a hyphen and digits, and nothing else. */
  lemma MatchMeans(text: string)
    requires Match(text).Some?
    ensures var (a, b) := Match(text).value;
            AllDigits(a) && AllDigits(b) && text == UNIT + a + "-" + b
  {
    var rest := text[|UNIT|..];
    var n := DigitCount(rest);
    var tail := rest[n + 1..];
    assert tail[..|tail|] == tail;
    assert rest == rest[..n] + "-" + tail;
    assert text == UNIT + rest;
  }

  lemma PrintedIsTrim(spec: Spec)
    ensures Trim(Print(spec)) == Print(spec)
  {
    var text := Print(spec);
    assert text[0] == 'b';
    var last := text[|text| - 1];
    assert IsDigit(last) || last == '-';
  }

  /** The specifier that two digit texts write down. */
  function SpecOf(a: string, b: string): Spec
    requires AllDigits(a) && AllDigits(b) && !(a == "" && b == "")
  {
    if a == "" then Suffix(Value(b)) else if b == "" then From(Value(a)) else Between(Value(a), Value(b))
  }

  /** The digit texts a specifier prints. */
  function Texts(spec: Spec): (string, string) {
    match spec
    case Suffix(n) => ("", Decimal(n))
    case From(start) => (Decimal(start), "")
    case Between(start, end) => (Decimal(start), Decimal(end))
  }

  lemma PrintedMatches(spec: Spec)
    ensures Match(Trim(Print(spec))) == Some(Texts(spec))
  {
    PrintedIsTrim(spec);
    var (a, b) := Texts(spec);
    MatchOfTexts(a, b);
    assert Print(spec) == UNIT + a + "-" + b;
  }

  lemma PrintedValues(spec: Spec)
    ensures var (a, b) := Texts(spec);
            AllDigits(a) && AllDigits(b) && !(a == "" && b == "") && SpecOf(a, b) == spec
  {
    match spec
    case Suffix(n) => ValueOfDecimal(n);
    case From(start) => ValueOfDecimal(start);
    case Between(start, end) => ValueOfDecimal(start); ValueOfDecimal(end);
  }

  lemma ParsedTexts(value: string, size: nat, a: string, b: string)
    requires size <= MAX_SAFE_INTEGER && Match(Trim(value)) == Some((a, b))
    requires AllDigits(a) && AllDigits(b) && !(a == "" && b == "")
    ensures var r := ParseSingleByteRange(value, size);
            && (r.Some? <==> Satisfiable(SpecOf(a, b), size) && Safe(SpecOf(a, b)))
            && (r.Some? ==> Selects(SpecOf(a, b), size, r.value))
  {
    hide Match, Trim, Value;
  }

  /**
   Printing a specifier and parsing it gives exactly the bytes it asks for.  Nothing is given exactly
   when the specifier is unsatisfiable or names a number that is not a safe integer.
   */
  lemma RoundTrip(spec: Spec, size: nat)
    requires size <= MAX_SAFE_INTEGER
    ensures var r := ParseSingleByteRange(Print(spec), size);
            && (r.Some? <==> Satisfiable(spec, size) && Safe(spec))
            && (r.Some? ==> Selects(spec, size, r.value))
  {
    PrintedMatches(spec);
    PrintedValues(spec);
    var (a, b) := Texts(spec);
    hide Match, Trim, SpecOf, Texts, Print, Satisfiable, Safe, Selects, ParseSingleByteRange;
    ParsedTexts(Print(spec), size, a, b);
  }

  /** Whatever is accepted is one range specifier, non-empty and inside the object, and exactly what it asks for. */
  lemma AcceptedMeans(value: string, size: nat)
    requires size <= MAX_SAFE_INTEGER && ParseSingleByteRange(value, size).Some?
    ensures Match(Trim(value)).Some?
    ensures var (a, b) := Match(Trim(value)).value;
            && AllDigits(a) && AllDigits(b) && !(a == "" && b == "")
            && Trim(value) == UNIT + a + "-" + b
            && Satisfiable(SpecOf(a, b), size) && Safe(SpecOf(a, b))
            && Selects(SpecOf(a, b), size, ParseSingleByteRange(value, size).value)
  {
    MatchMeans(Trim(value));
    var (a, b) := Match(Trim(value)).value;
    ParsedTexts(value, size, a, b);
  }

  /** Every byte of a non-empty object is wanted by these two, and neither is given for a number that is too large. */
  lemma LargeNumbersAreRefused(n: nat, size: nat)
    requires 1 <= size <= MAX_SAFE_INTEGER < n
    ensures forall p: int :: 0 <= p < size ==> Wants(Suffix(n), size, p) && Wants(Between(0, n), size, p)
    ensures Satisfiable(Suffix(n), size) && ParseSingleByteRange(Print(Suffix(n)), size).None?
    ensures Satisfiable(Between(0, n), size) && ParseSingleByteRange(Print(Between(0, n)), size).None?
  {
    RoundTrip(Suffix(n), size);
    RoundTrip(Between(0, n), size);
    hide ParseSingleByteRange, Print;
  }
}
