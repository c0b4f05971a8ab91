/** The freedoms of JSON text that a printer does not use: white space between
    tokens, escapes of any character, numbers with a fraction or exponent. */
module JsonSyntax {
  import opened Wrappers
  import opened Utf8
  import opened Json
  import opened JsonParser
  import opened JsonRoundTrip
  import Decimal

  // ----- white space -----

  /** Any text of spaces, tabs, line feeds and carriage returns. */
  predicate Spaces(w: Bytes) {
    forall i | 0 <= i < |w| :: w[i] == 0x20 || w[i] == 0x09 || w[i] == 0x0A || w[i] == 0x0D
  }

  /** A value with `w` between all of its tokens. */
  function Spread(v: Json, w: Bytes): Bytes {
    match v
    case Arr(items) => [OPEN_ARR] + w + SpreadItems(items, w) + [CLOSE_ARR]
    case Obj(members) => [OPEN_OBJ] + w + SpreadMembers(members, w) + [CLOSE_OBJ]
    case _ => Print(v)
  }

  function SpreadItems(items: Items, w: Bytes): Bytes {
    match items
    case NoItems => []
    case Item(v, tail) => Spread(v, w) + w + (if tail.NoItems? then [] else [COMMA] + w + SpreadItems(tail, w))
  }

  function SpreadMembers(members: Members, w: Bytes): Bytes {
    match members
    case NoMembers => []
    case Member(k, v, rest) =>
      PrintStr(k) + w + [COLON] + w + Spread(v, w) + w + (if rest.NoMembers? then [] else [COMMA] + w + SpreadMembers(rest, w))
  }

  lemma {:induction false} SkipSpaces(w: Bytes, t: Bytes)
    requires Spaces(w)
    ensures SkipSpace(w + t) == SkipSpace(t)
  {
    if w == [] {
      assert w + t == t;
    } else {
      assert (w + t)[1..] == w[1..] + t && (w + t)[0] == w[0];
      SkipSpaces(w[1..], t);
    }
  }

  lemma SpaceBeforeValue(w: Bytes, t: Bytes)
    requires Spaces(w)
    ensures ParseValue(w + t) == ParseValue(t)
  {
    SkipSpaces(w, t);
  }

  lemma SpaceBeforeItems(w: Bytes, t: Bytes)
    requires Spaces(w)
    ensures ParseItems(w + t) == ParseItems(t)
  {
    SpaceBeforeValue(w, t);
  }

  lemma SpaceBeforeMembers(w: Bytes, t: Bytes)
    requires Spaces(w)
    ensures ParseMembers(w + t) == ParseMembers(t)
  {
    SkipSpaces(w, t);
  }

  lemma Enclosed(open: Bytes, w: Bytes, body: Bytes, close: Bytes, rest: Bytes)
    ensures open + w + body + close + rest == open + (w + (body + close + rest))
  {
  }

  lemma SkipsTo(w: Bytes, t: Bytes)
    requires Spaces(w) && t != [] && !IsJsonSpace(t[0])
    ensures SkipSpace(w + t) == t
  {
    SkipSpaces(w, t);
    NotSpace(t);
  }

  lemma EndsAfter(w: Bytes, t: Bytes)
    requires Spaces(w) && EndsNumber(t)
    ensures EndsNumber(w + t)
  {
    if w == [] {
      assert w + t == t;
    } else {
      assert (w + t)[0] == w[0];
    }
  }

  /** White space between tokens changes nothing, whatever text follows that does
      not continue a number. */
  lemma {:induction false} ParseSpread(v: Json, w: Bytes, rest: Bytes)
    requires Plain(v) && Spaces(w) && EndsNumber(rest)
    ensures ParseValue(Spread(v, w) + rest) == Some((v, rest))
    ensures Spread(v, w) != [] && !IsJsonSpace(Spread(v, w)[0]) && Spread(v, w)[0] != CLOSE_ARR
    decreases v, 0
  {
    match v
    case Arr(items) => ParseSpreadArr(items, w, rest);
    case Obj(members) => ParseSpreadObj(members, w, rest);
    case _ => ParsePrint(v, rest);
  }

  lemma {:induction false} ParseSpreadArr(items: Items, w: Bytes, rest: Bytes)
    requires PlainItems(items) && Spaces(w)
    ensures ParseValue(Spread(Arr(items), w) + rest) == Some((Arr(items), rest))
    decreases items, 2
  {
    var body := SpreadItems(items, w) + [CLOSE_ARR] + rest;
    Enclosed([OPEN_ARR], w, SpreadItems(items, w), [CLOSE_ARR], rest);
    if items.NoItems? {
      assert body == [CLOSE_ARR] + rest;
      SkipsTo(w, body);
    } else {
      ParseSpreadItems(items, w, rest);
      SkipsTo(w, body);
      SpaceBeforeItems(w, body);
    }
    OpensArr(w + body);
    ArrStep(w + body, body, items, rest);
  }

  lemma ArrStep(s: Bytes, body: Bytes, items: Items, rest: Bytes)
    requires SkipSpace(s) == body && body != []
    requires if body[0] == CLOSE_ARR then items.NoItems? && body[1..] == rest else ParseItems(s) == Some((items, rest))
    ensures ParseArr(s) == Some((Arr(items), rest))
  {
  }

  lemma ObjStep(s: Bytes, body: Bytes, members: Members, rest: Bytes)
    requires SkipSpace(s) == body && body != []
    requires if body[0] == CLOSE_OBJ then members.NoMembers? && body[1..] == rest else ParseMembers(s) == Some((members, rest))
    ensures ParseObj(s) == Some((Obj(members), rest))
  {
  }

  lemma OpensArr(t: Bytes)
    ensures ParseValue([OPEN_ARR] + t) == ParseArr(t)
  {
    assert ([OPEN_ARR] + t)[1..] == t;
  }

  lemma OpensObj(t: Bytes)
    ensures ParseValue([OPEN_OBJ] + t) == ParseObj(t)
  {
    assert ([OPEN_OBJ] + t)[1..] == t;
  }

  lemma {:induction false} ParseSpreadObj(members: Members, w: Bytes, rest: Bytes)
    requires PlainMembers(members) && Spaces(w)
    ensures ParseValue(Spread(Obj(members), w) + rest) == Some((Obj(members), rest))
    decreases members, 2
  {
    var body := SpreadMembers(members, w) + [CLOSE_OBJ] + rest;
    Enclosed([OPEN_OBJ], w, SpreadMembers(members, w), [CLOSE_OBJ], rest);
    if members.NoMembers? {
      assert body == [CLOSE_OBJ] + rest;
      SkipsTo(w, body);
    } else {
      ParseSpreadMembers(members, w, rest);
      SkipsTo(w, body);
      SpaceBeforeMembers(w, body);
    }
    OpensObj(w + body);
    ObjStep(w + body, body, members, rest);
  }

  /** What follows an element: white space and the bracket, or a comma and more. */
  function AfterItem(tail: Items, w: Bytes, rest: Bytes): Bytes {
    if tail.NoItems? then [CLOSE_ARR] + rest else [COMMA] + (w + (SpreadItems(tail, w) + [CLOSE_ARR] + rest))
  }

  lemma ItemsText(items: Items, w: Bytes, rest: Bytes)
    requires items.Item?
    ensures SpreadItems(items, w) + [CLOSE_ARR] + rest == Spread(items.head, w) + (w + AfterItem(items.tail, w, rest))
  {
    var more := if items.tail.NoItems? then [] else [COMMA] + w + SpreadItems(items.tail, w);
    Enclosed(Spread(items.head, w), w, more, [CLOSE_ARR], rest);
    if items.tail.NoItems? {
      assert [] + [CLOSE_ARR] + rest == [CLOSE_ARR] + rest;
    } else {
      Enclosed([COMMA], w, SpreadItems(items.tail, w), [CLOSE_ARR], rest);
    }
  }

  lemma {:induction false} ParseSpreadItems(items: Items, w: Bytes, rest: Bytes)
    requires PlainItems(items) && items.Item? && Spaces(w)
    ensures var s := SpreadItems(items, w) + [CLOSE_ARR] + rest;
            && ParseItems(s) == Some((items, rest))
            && s != [] && !IsJsonSpace(s[0]) && s[0] != CLOSE_ARR
    decreases items, 1
  {
    var more := AfterItem(items.tail, w, rest);
    ItemsText(items, w, rest);
    EndsAfter(w, more);
    ParseSpread(items.head, w, w + more);
    SkipsTo(w, more);
    if items.tail.Item? {
      var s := SpreadItems(items.tail, w) + [CLOSE_ARR] + rest;
      ParseSpreadItems(items.tail, w, rest);
      assert more[1..] == w + s;
      SpaceBeforeItems(w, s);
    }
    ItemStep(Spread(items.head, w) + (w + more), items.head, w + more, more);
  }

  lemma ItemStep(s: Bytes, v: Json, after: Bytes, more: Bytes)
    requires ParseValue(s) == Some((v, after)) && SkipSpace(after) == more
    requires more != [] && (more[0] == CLOSE_ARR || more[0] == COMMA)
    ensures ParseItems(s) ==
            if more[0] == CLOSE_ARR then Some((Item(v, NoItems), more[1..]))
            else var tail := ParseItems(more[1..]);
                 if tail.None? then None else Some((Item(v, tail.value.0), tail.value.1))
  {
  }

  function AfterMember(tail: Members, w: Bytes, rest: Bytes): Bytes {
    if tail.NoMembers? then [CLOSE_OBJ] + rest else [COMMA] + (w + (SpreadMembers(tail, w) + [CLOSE_OBJ] + rest))
  }

  lemma MemberText(members: Members, w: Bytes, rest: Bytes)
    requires members.Member?
    ensures SpreadMembers(members, w) + [CLOSE_OBJ] + rest ==
            [QUOTE] + (PrintChars(members.key) + [QUOTE] + (w + ([COLON] + (w + (Spread(members.value, w) + (w + AfterMember(members.rest, w, rest)))))))
  {
    var Member(k, v, tail) := members;
    var more := if tail.NoMembers? then [] else [COMMA] + w + SpreadMembers(tail, w);
    if tail.NoMembers? {
      assert [] + [CLOSE_OBJ] + rest == [CLOSE_OBJ] + rest;
    } else {
      Enclosed([COMMA], w, SpreadMembers(tail, w), [CLOSE_OBJ], rest);
    }
    KeyText(PrintChars(k), w, Spread(v, w), more, rest);
  }

  lemma KeyText(k: Bytes, w: Bytes, v: Bytes, more: Bytes, rest: Bytes)
    ensures ([QUOTE] + k + [QUOTE]) + w + [COLON] + w + v + w + more + [CLOSE_OBJ] + rest
            == [QUOTE] + (k + [QUOTE] + (w + ([COLON] + (w + (v + (w + (more + [CLOSE_OBJ] + rest)))))))
  {
  }

  lemma {:induction false} ParseSpreadMembers(members: Members, w: Bytes, rest: Bytes)
    requires PlainMembers(members) && members.Member? && Spaces(w)
    ensures var s := SpreadMembers(members, w) + [CLOSE_OBJ] + rest;
            ParseMembers(s) == Some((members, rest)) && s != [] && s[0] == QUOTE
    decreases members, 1
  {
    var Member(k, v, tail) := members;
    var more := AfterMember(tail, w, rest);
    var valueText := Spread(v, w) + (w + more);
    var afterKey := w + ([COLON] + (w + valueText));
    MemberText(members, w, rest);
    ParsePrintChars(k, afterKey);
    SkipsTo(w, [COLON] + (w + valueText));
    EndsAfter(w, more);
    ParseSpread(v, w, w + more);
    SpaceBeforeValue(w, valueText);
    SkipsTo(w, more);
    if tail.Member? {
      ParseSpreadMembers(tail, w, rest);
      var s := SpreadMembers(tail, w) + [CLOSE_OBJ] + rest;
      assert more[1..] == w + s;
      SpaceBeforeMembers(w, s);
    } else {
      assert more[1..] == rest;
    }
    MemberStep(PrintChars(k) + [QUOTE] + afterKey, k, afterKey, w + valueText, v, w + more, more);
  }

  lemma MemberStep(t: Bytes, k: string, afterKey: Bytes, valueText: Bytes, v: Json, after: Bytes, more: Bytes)
    requires ParseChars(t) == Some((k, afterKey)) && SkipSpace(afterKey) == [COLON] + valueText
    requires ParseValue(valueText) == Some((v, after)) && SkipSpace(after) == more
    requires more != [] && (more[0] == CLOSE_OBJ || more[0] == COMMA)
    ensures ParseMembers([QUOTE] + t) ==
            if more[0] == CLOSE_OBJ then Some((Member(k, v, NoMembers), more[1..]))
            else var rest := ParseMembers(more[1..]);
                 if rest.None? then None else Some((Member(k, v, rest.value.0), rest.value.1))
  {
    assert ([QUOTE] + t)[1..] == t;
    assert ([COLON] + valueText)[1..] == valueText;
    NotSpace([QUOTE] + t);
  }

  /** A payload may be spaced out between and around its tokens, */
  lemma LoadsSpread(v: Json, w: Bytes)
    requires Plain(v) && Spaces(w)
    ensures Loads(w + (Spread(v, w) + w)) == Some(v)
  {
    assert w + [] == w;
    EndsAfter(w, []);
    ParseSpread(v, w, w);
    SpaceBeforeValue(w, Spread(v, w) + w);
    SkipSpaces(w, []);
  }

  /** and may hold nothing else: text after its value refuses it. */
  lemma LoadsNothingElse(v: Json, w: Bytes, rest: Bytes)
    requires Plain(v) && Spaces(w) && EndsNumber(rest) && SkipSpace(rest) != []
    ensures Loads(w + (Spread(v, w) + rest)) == None
  {
    ParseSpread(v, w, rest);
    SpaceBeforeValue(w, Spread(v, w) + rest);
  }

  // ----- escapes -----

  /** One UTF-16 code unit as an escape of four hexadecimal digits. */
  function EscapeUnit(u: nat): Bytes
    requires u < 0x10000
  {
    [0x5C, 0x75, HexDigit(u / 0x1000), HexDigit(u / 0x100 % 16), HexDigit(u / 0x10 % 16), HexDigit(u % 16)]
  }

  /** A character as the escape of its UTF-16 form: one unit, or a surrogate
      pair. */
  function EscapeUnicode(c: char): Bytes {
    var n := c as int;
    if n < 0x10000 then EscapeUnit(n)
    else EscapeUnit(0xD800 + (n - 0x10000) / 0x400) + EscapeUnit(0xDC00 + (n - 0x10000) % 0x400)
  }

  lemma Hex4Of(u: nat, rest: Bytes)
    requires u < 0x10000
    ensures Hex4(EscapeUnit(u) + rest) == Some(u)
  {
    var s := EscapeUnit(u) + rest;
    assert forall i | 0 <= i < 6 :: s[i] == EscapeUnit(u)[i];
    HexValueOfDigit(u / 0x1000);
    HexValueOfDigit(u / 0x100 % 16);
    HexValueOfDigit(u / 0x10 % 16);
    HexValueOfDigit(u % 16);
    FourDigits(u);
  }

  lemma FourDigits(u: nat)
    ensures u / 0x1000 * 0x1000 + u / 0x100 % 16 * 0x100 + u / 0x10 % 16 * 0x10 + u % 16 == u
  {
    assert u / 0x10 / 0x10 == u / 0x100 && u / 0x100 / 0x10 == u / 0x1000;
  }

  /** Every character may be written as the escape of its UTF-16 form. */
  lemma ParseEscaped(c: char, rest: Bytes)
    ensures ParseChar(EscapeUnicode(c) + rest) == Some((c, |EscapeUnicode(c)|))
  {
    var n := c as int;
    ToCharOf(c);
    if n < 0x10000 {
      Hex4Of(n, rest);
    } else {
      var hi, lo := 0xD800 + (n - 0x10000) / 0x400, 0xDC00 + (n - 0x10000) % 0x400;
      var s := EscapeUnit(hi) + (EscapeUnit(lo) + rest);
      assert EscapeUnicode(c) + rest == s;
      Hex4Of(hi, EscapeUnit(lo) + rest);
      Hex4Of(lo, rest);
      assert s[6..] == EscapeUnit(lo) + rest;
    }
  }

  /** Half a surrogate pair denotes nothing. */
  lemma LoneSurrogate(u: nat, rest: Bytes)
    requires 0xD800 <= u < 0xE000
    requires u < 0xDC00 ==> Hex4(rest).None? || !(0xDC00 <= Hex4(rest).value < 0xE000)
    ensures ParseChar(EscapeUnit(u) + rest) == None
  {
    Hex4Of(u, rest);
    assert (EscapeUnit(u) + rest)[6..] == rest;
  }

  /** The two-character escapes, and the digits of the others in either case. */
  lemma EscapeLetters(b: Byte, rest: Bytes)
    ensures ParseChar([0x5C, b] + rest) ==
            if b == '"' as int || b == '\\' as int || b == '/' as int then Some((b as char, 2))
            else if b == 'n' as int then Some(('\n', 2))
            else if b == 'r' as int then Some(('\r', 2))
            else if b == 't' as int then Some(('\t', 2))
            else if b == 'b' as int then Some((0x08 as char, 2))
            else if b == 'f' as int then Some((0x0C as char, 2))
            else if b == 'u' as int then ParseEscape([0x5C, b] + rest)
            else None
    ensures HexValue(b) ==
            if '0' as int <= b <= '9' as int then Some(b as int - '0' as int)
            else if 'a' as int <= b <= 'f' as int then Some(b as int - 'a' as int + 10)
            else if 'A' as int <= b <= 'F' as int then Some(b as int - 'A' as int + 10)
            else None
  {
  }

  // ----- numbers -----

  /** An exponent `e-dd`, or none. */
  function ExponentText(e: seq<Decimal.Digit>): Bytes { if e == [] then [] else [0x65, 0x2D] + PrintDigits(e) }

  lemma FractionOf(d: seq<Decimal.Digit>, rest: Bytes)
    requires d != [] && (rest == [] || !IsDigit(rest[0]))
    ensures Fraction([0x2E] + PrintDigits(d) + rest) == Some(1 + |d|)
  {
    DigitRunOf(d, rest);
    assert ([0x2E] + PrintDigits(d) + rest)[1..] == PrintDigits(d) + rest;
  }

  lemma ExponentOf(e: seq<Decimal.Digit>, rest: Bytes)
    requires EndsNumber(rest)
    ensures Exponent(ExponentText(e) + rest) == Some(|ExponentText(e)|)
  {
    if e == [] {
      assert ExponentText(e) + rest == rest;
    } else {
      DigitRunOf(e, rest);
      ExponentAt(PrintDigits(e) + rest);
      Sum2([0x65, 0x2D], PrintDigits(e), rest);
    }
  }

  lemma ExponentAt(t: Bytes)
    requires DigitRun(t) > 0
    ensures Exponent([0x65, 0x2D] + t) == Some(2 + DigitRun(t))
  {
    assert ([0x65, 0x2D] + t)[2..] == t;
  }

  lemma Sum2(a: Bytes, b: Bytes, c: Bytes)
    ensures a + b + c == a + (b + c)
  {
  }

  /** A number with a fraction is kept as its text, exponent included. */
  lemma FloatKept(whole: nat, d: seq<Decimal.Digit>, e: seq<Decimal.Digit>, rest: Bytes)
    requires d != [] && EndsNumber(rest)
    ensures var text := PrintDigits(Decimal.Digits(whole)) + ([0x2E] + PrintDigits(d)) + ExponentText(e);
            ParseNumber(text + rest) == Some((Float(text), rest))
  {
    var n, f, x := PrintDigits(Decimal.Digits(whole)), [0x2E] + PrintDigits(d), ExponentText(e);
    DigitRunOf(Decimal.Digits(whole), f + (x + rest));
    DigitsStart(whole);
    FractionOf(d, x + rest);
    ExponentOf(e, rest);
    ScannedFloat(n, f, x, rest);
  }

  lemma ScannedFloat(n: Bytes, f: Bytes, x: Bytes, rest: Bytes)
    requires n != [] && IsDigit(n[0]) && (|n| > 1 ==> n[0] != 0x30) && DigitRun(n + (f + (x + rest))) == |n|
    requires f != [] && Fraction(f + (x + rest)) == Some(|f|) && Exponent(x + rest) == Some(|x|)
    ensures ParseNumber(n + f + x + rest) == Some((Float(n + f + x), rest))
  {
    var s := n + f + x + rest;
    Sum2(n + f, x, rest);
    Sum2(n, f, x + rest);
    assert s[|n|..] == f + (x + rest);
    assert s[|n| + |f|..] == x + rest;
    assert s[|n| + |f| + |x|..] == rest && s[..|n| + |f| + |x|] == n + f + x;
  }

  /** What is no number: a leading zero, */
  lemma LeadingZeroRefused(d: Decimal.Digit, rest: Bytes)
    ensures ParseNumber([0x30, 0x30 + d] + rest) == None
  {
    var s := [0x30, 0x30 + d] + rest;
    assert s[1..] == [0x30 + d] + rest;
    assert DigitRun(s[1..]) >= 1;
  }

  /** a sign alone, */
  lemma SignRefused(rest: Bytes)
    requires rest == [] || !IsDigit(rest[0])
    ensures ParseNumber([0x2D] + rest) == None
  {
    assert ([0x2D] + rest)[1..] == rest;
  }

  /** a dot or an exponent without digits. */
  lemma DigitsMissing(d: Decimal.Digit, rest: Bytes)
    requires rest == [] || !IsDigit(rest[0])
    ensures ParseNumber([0x30 + d] + ([0x2E] + rest)) == None
    ensures rest == [] || (rest[0] != 0x2B && rest[0] != 0x2D) ==> ParseNumber([0x30 + d] + ([0x65] + rest)) == None
  {
    OneDigit(d, [0x2E] + rest);
    OneDigit(d, [0x65] + rest);
    assert ([0x2E] + rest)[1..] == rest && ([0x65] + rest)[1..] == rest;
    assert ([0x65] + rest)[0..] == [0x65] + rest;
  }

  lemma OneDigit(d: Decimal.Digit, t: Bytes)
    requires t == [] || !IsDigit(t[0])
    ensures DigitRun([0x30 + d] + t) == 1 && ([0x30 + d] + t)[1..] == t
  {
    assert ([0x30 + d] + t)[1..] == t;
  }

  /** A control character does not belong in a string. */
  lemma ControlRefused(b: Byte, rest: Bytes)
    requires b < 0x20
    ensures ParseChar([b] + rest) == None && ParseChars([b] + rest) == None
  {
  }
}
