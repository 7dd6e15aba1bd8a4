/** Two trees print alike exactly when they are equal as maps. */
module CanonicalTheorems {
  import opened Wrappers
  import opened CanonicalJson

  // ----- parsing a quoted string gives it back -----

  lemma HexDigitValue(n: nat)
    requires n < 16
    ensures HexValue(HexDigit(n)) == Some(n)
  {
  }

  lemma HexDigitsValue(u: Unit)
    ensures HexUnit(HexDigit(u / 0x1000), HexDigit(u / 0x100 % 16), HexDigit(u / 0x10 % 16), HexDigit(u % 16)) == Some(u)
  {
    hide HexValue, HexDigit;
    HexDigitValue(u / 0x1000);
    HexDigitValue(u / 0x100 % 16);
    HexDigitValue(u / 0x10 % 16);
    HexDigitValue(u % 16);
    HexParts(u);
  }

  lemma HexParts(u: int)
    ensures u / 0x1000 * 0x1000 + u / 0x100 % 16 * 0x100 + u / 0x10 % 16 * 0x10 + u % 16 == u
  {
    var q := u / 0x10;
    var r := u / 0x100;
    assert u == q * 16 + u % 16;
    assert q == r * 16 + q % 16;
    assert r == u / 0x1000 * 16 + r % 16;
  }

  lemma HexInverts(u: Unit, rest: Str)
    ensures ParseUnit(HexEscape(u) + rest) == Some(Parsed(u, rest))
  {
    var escape := HexEscape(u);
    var text := escape + rest;
    HexDigitsValue(u);
    hide HexDigit, HexUnit;
    assert |escape| == 6 && forall i :: 0 <= i < 6 ==> text[i] == escape[i];
    assert text[6..] == rest;
  }

  lemma UnitInverts(u: Unit, rest: Str)
    ensures QuoteUnit(u) != [] && (QuoteUnit(u) + rest)[0] != QUOTE
    ensures ParseUnit(QuoteUnit(u) + rest) == Some(Parsed(u, rest))
  {
    var text := QuoteUnit(u) + rest;
    if QuoteUnit(u) == HexEscape(u) {
      HexInverts(u, rest);
      hide HexDigit, ParseUnit;
    } else {
      hide HexEscape, HexUnit;
      if |QuoteUnit(u)| == 2 {
        assert text[2..] == rest;
      } else {
        assert text[1..] == rest;
      }
    }
  }

  lemma RawUnitInverts(u: Unit, rest: Str)
    requires IsHigh(u) || IsLow(u)
    ensures ParseUnit([u] + rest) == Some(Parsed(u, rest))
  {
    assert ([u] + rest)[1..] == rest;
  }

  lemma BodyStep(text: Str, u: Unit, tail: Str, s: Str, rest: Str)
    requires text != [] && text[0] != QUOTE
    requires ParseUnit(text) == Some(Parsed(u, tail)) && ParseBody(tail) == Some(Parsed(s, rest))
    ensures ParseBody(text) == Some(Parsed([u] + s, rest))
  {
  }

  lemma PairText(s: Str, rest: Str)
    requires StartsWithPair(s)
    ensures QuoteBody(s) + [QUOTE] + rest == [s[0]] + ([s[1]] + (QuoteBody(s[2..]) + [QUOTE] + rest))
    ensures s == [s[0]] + ([s[1]] + s[2..])
  {
    var body := QuoteBody(s[2..]);
    assert QuoteBody(s) == s[..2] + body;
    hide QuoteBody;
    assert s[..2] == [s[0]] + [s[1]];
    Regroup([s[0]] + [s[1]], body, [QUOTE], rest);
    Regroup([], [s[0]], [s[1]], body + [QUOTE] + rest);
  }

  lemma Regroup(a: Str, b: Str, c: Str, d: Str)
    ensures a + b + c + d == a + (b + c + d)
    ensures b + c + d == b + (c + d)
  {
  }

  lemma UnitText(s: Str, rest: Str)
    requires s != [] && !StartsWithPair(s)
    ensures QuoteBody(s) + [QUOTE] + rest == QuoteUnit(s[0]) + (QuoteBody(s[1..]) + [QUOTE] + rest)
    ensures s == [s[0]] + s[1..]
  {
    assert QuoteBody(s) == QuoteUnit(s[0]) + QuoteBody(s[1..]);
    hide QuoteBody, QuoteUnit;
    Regroup(QuoteUnit(s[0]), QuoteBody(s[1..]), [QUOTE], rest);
  }

  lemma PairInverts(a: Unit, b: Unit, tail: Str, s: Str, rest: Str)
    requires IsHigh(a) && IsLow(b) && ParseBody(tail) == Some(Parsed(s, rest))
    ensures ParseBody([a] + ([b] + tail)) == Some(Parsed([a] + ([b] + s), rest))
  {
    RawUnitInverts(a, [b] + tail);
    RawUnitInverts(b, tail);
    hide ParseUnit, ParseBody;
    BodyStep([b] + tail, b, tail, s, rest);
    BodyStep([a] + ([b] + tail), a, [b] + tail, [b] + s, rest);
  }

  lemma {:induction false} BodyInverts(s: Str, rest: Str)
    ensures ParseBody(QuoteBody(s) + [QUOTE] + rest) == Some(Parsed(s, rest))
    decreases |s|
  {
    if s == [] {
      assert QuoteBody(s) + [QUOTE] + rest == [QUOTE] + rest;
      assert ([QUOTE] + rest)[1..] == rest;
    } else if StartsWithPair(s) {
      hide QuoteBody, ParseBody;
      BodyInverts(s[2..], rest);
      PairText(s, rest);
      PairInverts(s[0], s[1], QuoteBody(s[2..]) + [QUOTE] + rest, s[2..], rest);
    } else {
      hide QuoteUnit, QuoteBody, ParseBody, ParseUnit;
      BodyInverts(s[1..], rest);
      UnitText(s, rest);
      var tail := QuoteBody(s[1..]) + [QUOTE] + rest;
      UnitInverts(s[0], tail);
      BodyStep(QuoteUnit(s[0]) + tail, s[0], tail, s[1..], rest);
    }
  }

  // ----- what is escaped -----

  /** A high surrogate is directly before a low one, and a low one directly after a high one. */
  predicate PairedAt(s: Str, i: nat)
    requires i < |s|
  {
    && (0xD800 <= s[i] < 0xDC00 ==> i + 1 < |s| && 0xDC00 <= s[i + 1] < 0xE000)
    && (0xDC00 <= s[i] < 0xE000 ==> i > 0 && 0xD800 <= s[i - 1] < 0xDC00)
  }

  predicate Paired(s: Str) {
    forall i :: 0 <= i < |s| ==> PairedAt(s, i)
  }

  /** No control character, quote or backslash. */
  predicate Plain(s: Str) {
    forall i :: 0 <= i < |s| ==> s[i] >= 0x20 && s[i] != 0x22 && s[i] != 0x5C
  }

  lemma PairedConcat(a: Str, b: Str)
    requires Paired(a) && Paired(b)
    ensures Paired(a + b)
  {
    var t := a + b;
    forall i | 0 <= i < |t| ensures PairedAt(t, i) {
      if i < |a| {
        assert PairedAt(a, i) && t[i] == a[i];
      } else {
        assert PairedAt(b, i - |a|) && t[i] == b[i - |a|];
      }
    }
  }

  /** What is left after the first unit, or the first pair, is paired too. */
  lemma PairedRest(s: Str)
    requires s != [] && Paired(s)
    ensures Paired(s[if StartsWithPair(s) then 2 else 1..])
    ensures (IsHigh(s[0]) || IsLow(s[0])) ==> StartsWithPair(s)
  {
    var n := if StartsWithPair(s) then 2 else 1;
    assert PairedAt(s, 0) && PairedAt(s, n - 1);
    var rest := s[n..];
    forall i | 0 <= i < |rest| ensures PairedAt(rest, i) {
      assert PairedAt(s, i + n);
    }
  }

  lemma PlainUnit(u: Unit)
    requires u >= 0x20 && u != 0x22 && u != 0x5C && !IsHigh(u) && !IsLow(u)
    ensures QuoteUnit(u) == [u]
  {
  }

  /** Nothing else is escaped: text without these and with its surrogates paired is written as it is. */
  lemma {:induction false} PlainIsWrittenAsIs(s: Str)
    requires Plain(s) && Paired(s)
    ensures QuoteBody(s) == s
    decreases |s|
  {
    if s != [] {
      hide QuoteUnit, Paired;
      PairedRest(s);
      if StartsWithPair(s) {
        PlainIsWrittenAsIs(s[2..]);
        assert s == s[..2] + s[2..];
      } else {
        PlainUnit(s[0]);
        PlainIsWrittenAsIs(s[1..]);
        assert s == [s[0]] + s[1..];
      }
    }
  }

  lemma UnitIsPaired(u: Unit)
    ensures var text := QuoteUnit(u); Paired(text) && forall i :: 0 <= i < |text| ==> text[i] >= 0x20
  {
  }

  /** All of these are: whatever the string, the text has no control character and no surrogate alone. */
  lemma {:induction false} TextIsPaired(s: Str)
    ensures var text := QuoteBody(s); Paired(text) && forall i :: 0 <= i < |text| ==> text[i] >= 0x20
  {
    if s != [] {
      var n := if StartsWithPair(s) then 2 else 1;
      var first := if n == 2 then s[..2] else QuoteUnit(s[0]);
      assert QuoteBody(s) == first + QuoteBody(s[n..]);
      UnitIsPaired(s[0]);
      hide QuoteUnit, QuoteBody;
      TextIsPaired(s[n..]);
      PairedConcat(first, QuoteBody(s[n..]));
    }
  }

  // ----- printing in the order given, and the sorted form of a tree -----

  function RawMembers(members: Members<Tree>): Members<Str> {
    match members
    case Nil => Nil
    case Member(key, value, rest) => Member(key, Raw(value), RawMembers(rest))
  }

  /** The text of a tree with its members in the order they are in. */
  function Raw(t: Tree): Str {
    match t
    case Text(text) => Quote(text)
    case Object(members) => [OPEN] + Joined(RawMembers(members)) + [CLOSE]
  }

  function NormalMembers(members: Members<Tree>): Members<Tree> {
    match members
    case Nil => Nil
    case Member(key, value, rest) => Member(key, Normal(value), NormalMembers(rest))
  }

  /** The tree with the members of every object sorted. */
  function Normal(t: Tree): Tree {
    match t
    case Text(_) => t
    case Object(members) => Object(Sort(NormalMembers(members)))
  }

  lemma {:induction false} InsertThenRaw(key: Str, value: Tree, sorted: Members<Tree>)
    ensures RawMembers(InsertMember(key, value, sorted)) == InsertMember(key, Raw(value), RawMembers(sorted))
  {
    if sorted.Member? {
      InsertThenRaw(key, value, sorted.rest);
    }
  }

  lemma {:induction false} SortThenRaw(members: Members<Tree>)
    ensures RawMembers(Sort(members)) == Sort(RawMembers(members))
  {
    if members.Member? {
      SortThenRaw(members.rest);
      InsertThenRaw(members.key, members.value, Sort(members.rest));
    }
  }

  /** Printing is writing down the sorted form. */
  lemma {:induction false} PrintIsRawOfNormal(t: Tree)
    ensures Print(t) == Raw(Normal(t))
  {
    if t.Object? {
      MembersPrintAsNormal(t.members);
      SortThenRaw(NormalMembers(t.members));
    }
  }

  lemma {:induction false} MembersPrintAsNormal(members: Members<Tree>)
    ensures PrintMembers(members) == RawMembers(NormalMembers(members))
  {
    if members.Member? {
      PrintIsRawOfNormal(members.value);
      MembersPrintAsNormal(members.rest);
    }
  }

  // ----- parsing gives the tree back -----

  lemma QuotedInverts(s: Str, rest: Str)
    ensures var text := Quote(s) + rest;
            text[0] == QUOTE && ParseBody(text[1..]) == Some(Parsed(s, rest))
  {
    BodyInverts(s, rest);
    assert (Quote(s) + rest)[1..] == QuoteBody(s) + [QUOTE] + rest;
  }

  /** Parsing a tree's text, whatever follows it, gives exactly the tree and what follows. */
  lemma {:induction false} ParseInvertsRaw(t: Tree, rest: Str)
    ensures ParseValue(Raw(t) + rest) == Some(Parsed(t, rest))
    decreases t, 0
  {
    var text := Raw(t) + rest;
    match t
    case Text(s) =>
      QuotedInverts(s, rest);
    case Object(Nil) =>
      assert text[2..] == rest;
    case Object(members) =>
      MembersInvert(members, rest);
      ObjectStep(members, Joined(RawMembers(members)), rest);
  }

  lemma JoinedStartsQuoted(members: Members<Str>)
    requires members.Member?
    ensures Joined(members) != [] && Joined(members)[0] == QUOTE
  {
    var quoted := Quote(members.key);
    assert quoted[0] == QUOTE;
    hide Quote;
  }

  lemma ObjectStep(members: Members<Tree>, joined: Str, rest: Str)
    requires members.Member? && joined == Joined(RawMembers(members))
    requires ParseMembers(joined + [CLOSE] + rest) == Some(Parsed(members, rest))
    ensures ParseValue([OPEN] + joined + [CLOSE] + rest) == Some(Parsed(Object(members), rest))
  {
    var text := [OPEN] + joined + [CLOSE] + rest;
    JoinedStartsQuoted(RawMembers(members));
    hide Joined, RawMembers, ParseMembers, ParseBody, ParseValue;
    AfterBrace(joined, [CLOSE], rest);
    BraceStep(text);
  }

  lemma AfterBrace(joined: Str, close: Str, rest: Str)
    requires joined != []
    ensures var text := [OPEN] + joined + close + rest;
            |text| >= 2 && text[0] == OPEN && text[1] == joined[0] && text[1..] == joined + close + rest
  {
    var text := [OPEN] + joined + close + rest;
    assert text == [OPEN] + (joined + close + rest);
  }

  lemma BraceStep(text: Str)
    requires |text| >= 2 && text[0] == OPEN && text[1] != CLOSE && ParseMembers(text[1..]).Some?
    ensures var p := ParseMembers(text[1..]).value;
            ParseValue(text) == Some(Parsed(Object(p.value), p.rest))
  {
    hide ParseMembers, ParseBody;
  }

  lemma {:induction false} MembersInvert(members: Members<Tree>, rest: Str)
    requires members.Member?
    ensures ParseMembers(Joined(RawMembers(members)) + [CLOSE] + rest) == Some(Parsed(members, rest))
    decreases members, 1
  {
    var Member(key, value, more) := members;
    ParseInvertsRaw(value, MembersTail(more, rest));
    if more.Member? {
      MembersInvert(more, rest);
    }
    MembersStep(key, value, more, rest);
  }

  /** What follows a member's value: the end of the object, or a comma and the other members. */
  function MembersTail(more: Members<Tree>, rest: Str): Str {
    if more.Nil? then [CLOSE] + rest else [COMMA] + (Joined(RawMembers(more)) + [CLOSE] + rest)
  }

  lemma MemberText(key: Str, value: Tree, more: Members<Tree>, rest: Str)
    ensures Joined(RawMembers(Member(key, value, more))) + [CLOSE] + rest
            == Quote(key) + ([COLON] + (Raw(value) + MembersTail(more, rest)))
  {
    hide Quote, Raw;
    if more.Member? {
      var others := Joined(RawMembers(more));
      assert Joined(RawMembers(Member(key, value, more))) == Quote(key) + [COLON] + Raw(value) + [COMMA] + others;
    }
  }

  lemma MembersStep(key: Str, value: Tree, more: Members<Tree>, rest: Str)
    requires var after := MembersTail(more, rest); ParseValue(Raw(value) + after) == Some(Parsed(value, after))
    requires more.Member? ==>
               ParseMembers(Joined(RawMembers(more)) + [CLOSE] + rest) == Some(Parsed(more, rest))
    ensures ParseMembers(Joined(RawMembers(Member(key, value, more))) + [CLOSE] + rest)
            == Some(Parsed(Member(key, value, more), rest))
  {
    var after := MembersTail(more, rest);
    var colon := [COLON] + (Raw(value) + after);
    MemberText(key, value, more, rest);
    QuotedInverts(key, colon);
    assert colon[1..] == Raw(value) + after;
    hide Raw, RawMembers, Joined, ParseValue, ParseBody, Quote;
    if more.Nil? {
      assert after[1..] == rest;
    } else {
      assert after[1..] == Joined(RawMembers(more)) + [CLOSE] + rest;
    }
  }

  // ----- sorting keeps the meaning -----

  lemma {:induction false} InsertKeepsFields(key: Str, value: Tree, sorted: Members<Tree>)
    requires !HasKey(sorted, key)
    ensures FieldsOf(InsertMember(key, value, sorted)) == FieldsOf(sorted)[key := Meaning(value)]
    ensures forall k :: HasKey(InsertMember(key, value, sorted), k) <==> k == key || HasKey(sorted, k)
  {
    if sorted.Member? {
      InsertKeepsFields(key, value, sorted.rest);
    }
  }

  lemma {:induction false} KeysAreFields(members: Members<Tree>, key: Str)
    ensures HasKey(members, key) <==> key in FieldsOf(members)
  {
    if members.Member? {
      KeysAreFields(members.rest, key);
    }
  }

  lemma {:induction false} SortKeepsFields(members: Members<Tree>)
    requires WellFormedMembers(members)
    ensures FieldsOf(Sort(members)) == FieldsOf(members)
    ensures forall k :: HasKey(Sort(members), k) <==> HasKey(members, k)
  {
    if members.Member? {
      SortKeepsFields(members.rest);
      InsertKeepsFields(members.key, members.value, Sort(members.rest));
    }
  }

  // ----- sorted members, strictly by key -----

  lemma {:induction false} LessIsTotal(a: Str, b: Str)
    ensures Less(a, b) || Less(b, a) || a == b
    ensures !(Less(a, b) && Less(b, a)) && !Less(a, a)
  {
    if a != [] && b != [] && a[0] == b[0] {
      LessIsTotal(a[1..], b[1..]);
      assert a == [a[0]] + a[1..] && b == [b[0]] + b[1..];
    }
    if a != [] {
      LessIsTotal(a[1..], a[1..]);
    }
  }

  lemma {:induction false} LessIsTransitive(a: Str, b: Str, c: Str)
    requires Less(a, b) && Less(b, c)
    ensures Less(a, c)
  {
    if a != [] && a[0] == b[0] && b[0] == c[0] {
      LessIsTransitive(a[1..], b[1..], c[1..]);
    }
  }

  /** Every key is after this one. */
  predicate AllAfter(key: Str, members: Members<Tree>) {
    match members
    case Nil => true
    case Member(k, _, rest) => Less(key, k) && AllAfter(key, rest)
  }

  predicate Sorted(members: Members<Tree>) {
    match members
    case Nil => true
    case Member(key, value, rest) => AllAfter(key, rest) && Sorted(rest)
  }

  predicate SortedThroughoutMembers(members: Members<Tree>) {
    match members
    case Nil => true
    case Member(_, value, rest) => SortedThroughout(value) && SortedThroughoutMembers(rest)
  }

  /** Every object of the tree has its members strictly sorted. */
  predicate SortedThroughout(t: Tree) {
    t.Text? || (Sorted(t.members) && SortedThroughoutMembers(t.members))
  }

  lemma {:induction false} AfterIsTransitive(a: Str, b: Str, members: Members<Tree>)
    requires Less(a, b) && AllAfter(b, members)
    ensures AllAfter(a, members)
  {
    if members.Member? {
      LessIsTransitive(a, b, members.key);
      AfterIsTransitive(a, b, members.rest);
    }
  }

  lemma {:induction false} InsertKeepsAfter(a: Str, key: Str, value: Tree, sorted: Members<Tree>)
    requires Less(a, key) && AllAfter(a, sorted)
    ensures AllAfter(a, InsertMember(key, value, sorted))
  {
    if sorted.Member? {
      InsertKeepsAfter(a, key, value, sorted.rest);
    }
  }

  lemma {:induction false} InsertSorts(key: Str, value: Tree, sorted: Members<Tree>)
    requires Sorted(sorted) && !HasKey(sorted, key)
    ensures Sorted(InsertMember(key, value, sorted))
    ensures SortedThroughoutMembers(sorted) && SortedThroughout(value) ==>
              SortedThroughoutMembers(InsertMember(key, value, sorted))
  {
    if sorted.Member? {
      LessIsTotal(key, sorted.key);
      if Less(key, sorted.key) {
        AfterIsTransitive(key, sorted.key, sorted.rest);
      } else {
        InsertSorts(key, value, sorted.rest);
        InsertKeepsAfter(sorted.key, key, value, sorted.rest);
      }
    }
  }

  lemma {:induction false} SortSorts(members: Members<Tree>)
    requires WellFormedMembers(members) && SortedThroughoutMembers(members)
    ensures Sorted(Sort(members)) && SortedThroughoutMembers(Sort(members))
  {
    if members.Member? {
      SortSorts(members.rest);
      SortKeepsFields(members.rest);
      InsertSorts(members.key, members.value, Sort(members.rest));
    }
  }

  // ----- the sorted form -----

  lemma {:induction false} NormalKeepsMeaning(t: Tree)
    requires WellFormed(t)
    ensures Meaning(Normal(t)) == Meaning(t) && SortedThroughout(Normal(t))
    decreases t, 0
  {
    if t.Object? {
      NormalMembersKeepMeaning(t.members);
      SortKeepsFields(NormalMembers(t.members));
      SortSorts(NormalMembers(t.members));
    }
  }

  lemma {:induction false} NormalIsWellFormed(t: Tree)
    requires WellFormed(t)
    ensures WellFormed(Normal(t))
    decreases t, 0
  {
    if t.Object? {
      NormalMembersKeepMeaning(t.members);
      SortIsWellFormed(NormalMembers(t.members));
    }
  }

  lemma {:induction false} SortIsWellFormed(members: Members<Tree>)
    requires WellFormedMembers(members)
    ensures WellFormedMembers(Sort(members))
  {
    if members.Member? {
      SortIsWellFormed(members.rest);
      SortKeepsFields(members.rest);
      InsertIsWellFormed(members.key, members.value, Sort(members.rest));
    }
  }

  lemma {:induction false} InsertIsWellFormed(key: Str, value: Tree, sorted: Members<Tree>)
    requires WellFormedMembers(sorted) && WellFormed(value) && !HasKey(sorted, key)
    ensures WellFormedMembers(InsertMember(key, value, sorted))
  {
    if sorted.Member? {
      InsertIsWellFormed(key, value, sorted.rest);
      InsertKeepsFields(key, value, sorted.rest);
    }
  }

  lemma {:induction false} NormalMembersKeepMeaning(members: Members<Tree>)
    requires WellFormedMembers(members)
    ensures FieldsOf(NormalMembers(members)) == FieldsOf(members)
    ensures WellFormedMembers(NormalMembers(members)) && SortedThroughoutMembers(NormalMembers(members))
    ensures forall k :: HasKey(NormalMembers(members), k) <==> HasKey(members, k)
    decreases members, 1
  {
    if members.Member? {
      NormalKeepsMeaning(members.value);
      NormalIsWellFormed(members.value);
      NormalMembersKeepMeaning(members.rest);
    }
  }

  // ----- sorted trees with one meaning are one tree -----

  lemma {:induction false} AfterExcludes(key: Str, members: Members<Tree>)
    requires AllAfter(key, members)
    ensures !HasKey(members, key)
    ensures forall k :: HasKey(members, k) ==> Less(key, k)
  {
    if members.Member? {
      LessIsTotal(key, members.key);
      AfterExcludes(key, members.rest);
    }
  }

  lemma {:induction false} SortedIsUnique(a: Tree, b: Tree)
    requires SortedThroughout(a) && SortedThroughout(b) && Meaning(a) == Meaning(b)
    ensures a == b
    decreases a, 0
  {
    if a.Object? {
      SortedMembersAreUnique(a.members, b.members);
    }
  }

  lemma OnlyNilIsEmpty(members: Members<Tree>)
    ensures members.Nil? <==> FieldsOf(members) == map[]
  {
    if members.Member? {
      assert members.key in FieldsOf(members);
    }
  }

  lemma FirstKeysAgree(a: Members<Tree>, b: Members<Tree>)
    requires Sorted(a) && Sorted(b) && FieldsOf(a) == FieldsOf(b) && a.Member? && b.Member?
    ensures a.key == b.key
  {
    KeysAreFields(a, a.key);
    KeysAreFields(b, a.key);
    KeysAreFields(a, b.key);
    KeysAreFields(b, b.key);
    AfterExcludes(a.key, a.rest);
    AfterExcludes(b.key, b.rest);
    LessIsTotal(a.key, b.key);
  }

  lemma {:induction false} SortedMembersAreUnique(a: Members<Tree>, b: Members<Tree>)
    requires Sorted(a) && Sorted(b) && SortedThroughoutMembers(a) && SortedThroughoutMembers(b)
    requires FieldsOf(a) == FieldsOf(b)
    ensures a == b
    decreases a, 1
  {
    OnlyNilIsEmpty(a);
    OnlyNilIsEmpty(b);
    if a.Member? {
      FirstKeysAgree(a, b);
      assert FieldsOf(a)[a.key] == Meaning(a.value) && FieldsOf(b)[b.key] == Meaning(b.value);
      SortedIsUnique(a.value, b.value);
      AfterExcludes(a.key, a.rest);
      AfterExcludes(b.key, b.rest);
      KeysAreFields(a.rest, a.key);
      KeysAreFields(b.rest, b.key);
      assert FieldsOf(a.rest) == FieldsOf(a) - {a.key};
      assert FieldsOf(b.rest) == FieldsOf(b) - {b.key};
      SortedMembersAreUnique(a.rest, b.rest);
    }
  }

  // ----- the two directions -----

  /** Parsing what was printed gives the tree with its members sorted, and nothing is left over. */
  lemma ParseInvertsPrint(t: Tree)
    ensures ParseValue(Print(t)) == Some(Parsed(Normal(t), []))
  {
    PrintIsRawOfNormal(t);
    ParseInvertsRaw(Normal(t), []);
    assert Raw(Normal(t)) + [] == Raw(Normal(t));
  }

  /** Two trees without repeated keys print alike exactly when they are equal as maps. */
  lemma PrintsAlikeExactly(a: Tree, b: Tree)
    requires WellFormed(a) && WellFormed(b)
    ensures Print(a) == Print(b) <==> Meaning(a) == Meaning(b)
  {
    NormalKeepsMeaning(a);
    NormalKeepsMeaning(b);
    if Print(a) == Print(b) {
      ParseInvertsPrint(a);
      ParseInvertsPrint(b);
    }
    if Meaning(a) == Meaning(b) {
      SortedIsUnique(Normal(a), Normal(b));
      PrintIsRawOfNormal(a);
      PrintIsRawOfNormal(b);
    }
  }

  // ----- the order of the members in the text -----

  /** The strings agree before this place, and there the first one ends or has the smaller code unit. */
  predicate SmallerAt(a: Str, b: Str, i: nat) {
    i <= |a| && i < |b| && a[..i] == b[..i] && (i == |a| || a[i] < b[i])
  }

  lemma {:induction false} LessMeans(a: Str, b: Str)
    ensures Less(a, b) <==> exists i: nat :: SmallerAt(a, b, i)
  {
    if b != [] {
      if a == [] || a[0] < b[0] {
        assert SmallerAt(a, b, 0);
      } else if a[0] == b[0] {
        LessMeans(a[1..], b[1..]);
        forall i: nat | 0 < i ensures SmallerAt(a, b, i) <==> SmallerAt(a[1..], b[1..], i - 1) {
          if i <= |a| && i < |b| {
            assert a[..i] == [a[0]] + a[1..][..i - 1] && b[..i] == [b[0]] + b[1..][..i - 1];
          }
        }
        if Less(a, b) {
          var i: nat :| SmallerAt(a[1..], b[1..], i);
          assert SmallerAt(a, b, i + 1);
        }
      }
    }
  }

  /** Every key comes before all that follow it. */
  ghost predicate KeysAscend(members: Members<Tree>) {
    match members
    case Nil => true
    case Member(key, _, rest) => KeysAscend(rest) && forall k :: HasKey(rest, k) ==> exists i: nat :: SmallerAt(key, k, i)
  }

  ghost predicate KeysAscendBelow(members: Members<Tree>) {
    match members
    case Nil => true
    case Member(_, value, rest) => KeysAscendThroughout(value) && KeysAscendBelow(rest)
  }

  ghost predicate KeysAscendThroughout(t: Tree) {
    t.Text? || (KeysAscend(t.members) && KeysAscendBelow(t.members))
  }

  lemma {:induction false} SortedAscends(members: Members<Tree>)
    requires Sorted(members)
    ensures KeysAscend(members)
  {
    if members.Member? {
      SortedAscends(members.rest);
      AfterExcludes(members.key, members.rest);
      forall k | HasKey(members.rest, k) ensures exists i: nat :: SmallerAt(members.key, k, i) {
        LessMeans(members.key, k);
      }
    }
  }

  lemma {:induction false} SortedAscendsThroughout(t: Tree)
    requires SortedThroughout(t)
    ensures KeysAscendThroughout(t)
    decreases t, 0
  {
    if t.Object? {
      SortedAscends(t.members);
      SortedAscendsBelow(t.members);
    }
  }

  lemma {:induction false} SortedAscendsBelow(members: Members<Tree>)
    requires SortedThroughoutMembers(members)
    ensures KeysAscendBelow(members)
    decreases members, 1
  {
    if members.Member? {
      SortedAscendsThroughout(members.value);
      SortedAscendsBelow(members.rest);
    }
  }

  /** The printed text is that of an equal tree whose keys ascend by code units in every object. */
  lemma PrintedKeysAscend(t: Tree)
    requires WellFormed(t)
    ensures var parsed := ParseValue(Print(t));
            && parsed.Some? && parsed.value.rest == []
            && Meaning(parsed.value.value) == Meaning(t)
            && KeysAscendThroughout(parsed.value.value)
            && Print(t) == Raw(parsed.value.value)
  {
    ParseInvertsPrint(t);
    PrintIsRawOfNormal(t);
    NormalKeepsMeaning(t);
    SortedAscendsThroughout(Normal(t));
  }
}
