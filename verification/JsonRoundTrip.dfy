/** `orjson.loads(orjson.dumps(v)) == v` for every value free of floats and of
    integers wider than 64 bits, whatever follows the printed text without
    continuing a number. */
module JsonRoundTrip {
  import opened Wrappers
  import opened Utf8
  import opened Json
  import opened JsonParser
  import Decimal

  // ----- strings -----

  lemma HexValueOfDigit(n: nat)
    requires n < 16
    ensures HexValue(HexDigit(n)) == Some(n)
  {
  }

  lemma ParsePrintChar(c: char, rest: Bytes)
    ensures var s := PrintChar(c) + rest;
            s[0] != QUOTE && ParseChar(s) == Some((c, |PrintChar(c)|))
  {
    var n, p := c as int, PrintChar(c);
    var s := p + rest;
    assert forall i | 0 <= i < |p| :: s[i] == p[i];
    ToCharOf(c);
    if ShortEscape(n).Some? {
      assert n as char == c;
    } else if n < 0x20 {
      HexValueOfDigit(n / 16);
      HexValueOfDigit(n % 16);
      HexValueOfDigit(0);
      assert Hex4(s) == Some(n);
    } else {
      DecodeEncode(c, rest);
    }
  }

  lemma {:induction false} ParsePrintChars(t: string, rest: Bytes)
    ensures ParseChars(PrintChars(t) + [QUOTE] + rest) == Some((t, rest))
  {
    var s := PrintChars(t) + [QUOTE] + rest;
    if t == "" {
      assert s == [QUOTE] + rest;
    } else {
      var p := PrintChar(t[0]);
      var more := PrintChars(t[1..]) + [QUOTE] + rest;
      assert s == p + more;
      ParsePrintChar(t[0], more);
      assert s[|p|..] == more;
      ParsePrintChars(t[1..], rest);
      assert [t[0]] + t[1..] == t;
    }
  }

  // ----- numbers -----

  lemma {:induction false} DigitRunOf(ds: seq<Decimal.Digit>, rest: Bytes)
    requires rest == [] || !IsDigit(rest[0])
    ensures DigitRun(PrintDigits(ds) + rest) == |ds|
  {
    var s := PrintDigits(ds) + rest;
    if ds == [] {
      assert s == rest;
    } else {
      assert s[1..] == PrintDigits(ds[1..]) + rest;
      DigitRunOf(ds[1..], rest);
    }
  }

  lemma ReadPrintDigits(ds: seq<Decimal.Digit>)
    ensures forall b <- PrintDigits(ds) :: IsDigit(b)
    ensures ReadDigits(PrintDigits(ds)) == ds
  {
  }

  /** What may follow a number without being taken for a part of it. */
  predicate EndsNumber(rest: Bytes) {
    rest == [] || (!IsDigit(rest[0]) && rest[0] != 0x2E && rest[0] != 0x65 && rest[0] != 0x45)
  }

  /** The digits of `m` in front of `rest`, as `ParseNumber` sees them. */
  lemma ScanDigits(m: nat, rest: Bytes)
    requires EndsNumber(rest)
    ensures var ds := Decimal.Digits(m);
            var t := PrintDigits(ds) + rest;
            && DigitRun(t) == |ds| && |ds| > 0 && (|ds| > 1 ==> t[0] != 0x30)
            && t[|ds|..] == rest && t[..|ds|] == PrintDigits(ds)
            && Decimal.Value(ReadDigits(PrintDigits(ds))) == m
            && IsDigit(t[0])
  {
    var ds := Decimal.Digits(m);
    DigitRunOf(ds, rest);
    ReadPrintDigits(ds);
    Decimal.ValueDigits(m);
  }

  lemma NoFractionNoExponent(rest: Bytes)
    requires EndsNumber(rest)
    ensures Fraction(rest) == Some(0) && Exponent(rest) == Some(0)
  {
  }

  lemma ParseScanned(s: Bytes, i: int, rest: Bytes)
    requires s != [] && Fits64(i)
    requires var t := if s[0] == MINUS then s[1..] else s;
             var n := DigitRun(t);
             && n > 0 && (n > 1 ==> t[0] != 0x30) && t[n..] == rest
             && (forall b <- t[..n] :: IsDigit(b))
             && i == if s[0] == MINUS then 0 - Decimal.Value(ReadDigits(t[..n])) else Decimal.Value(ReadDigits(t[..n]))
    requires Fraction(rest) == Some(0) && Exponent(rest) == Some(0)
    ensures ParseNumber(s) == Some((Int(i), rest))
  {
  }

  lemma ParsePrintNat(m: nat, rest: Bytes)
    requires Fits64(m) && EndsNumber(rest)
    ensures ParseNumber(PrintDigits(Decimal.Digits(m)) + rest) == Some((Int(m), rest))
  {
    ScanDigits(m, rest);
    NoFractionNoExponent(rest);
    ReadPrintDigits(Decimal.Digits(m));
    ParseScanned(PrintDigits(Decimal.Digits(m)) + rest, m, rest);
  }

  lemma ParsePrintNegative(i: int, rest: Bytes)
    requires i < 0 && Fits64(i) && EndsNumber(rest)
    ensures ParseNumber([MINUS] + (PrintDigits(Decimal.Digits(-i)) + rest)) == Some((Int(i), rest))
  {
    var t := PrintDigits(Decimal.Digits(-i)) + rest;
    ScanDigits(-i, rest);
    NoFractionNoExponent(rest);
    ReadPrintDigits(Decimal.Digits(-i));
    assert ([MINUS] + t)[1..] == t;
    ParseScanned([MINUS] + t, i, rest);
  }

  lemma DigitsStart(m: nat)
    ensures var ds := PrintDigits(Decimal.Digits(m)); ds != [] && IsDigit(ds[0])
  {
  }

  lemma ReadPrintInt(i: int, rest: Bytes)
    requires Fits64(i) && EndsNumber(rest)
    ensures ParseNumber(PrintInt(i) + rest) == Some((Int(i), rest))
    ensures PrintInt(i)[0] == MINUS || IsDigit(PrintInt(i)[0])
  {
    if i < 0 {
      ParsePrintNegative(i, rest);
      Prepend(MINUS, PrintDigits(Decimal.Digits(-i)), rest);
    } else {
      DigitsStart(i);
      ParsePrintNat(i, rest);
    }
  }

  lemma Prepend(b: Byte, s: Bytes, t: Bytes)
    ensures [b] + s + t == [b] + (s + t)
  {
  }

  lemma ParsePrintInt(i: int, rest: Bytes)
    requires Fits64(i) && EndsNumber(rest)
    ensures ParseValue(PrintInt(i) + rest) == Some((Int(i), rest))
    ensures PrintInt(i)[0] == MINUS || IsDigit(PrintInt(i)[0])
  {
    ReadPrintInt(i, rest);
    ParseValueOfNumber(PrintInt(i) + rest);
  }

  lemma ParseValueOfNumber(s: Bytes)
    requires s != [] && (s[0] == MINUS || IsDigit(s[0]))
    ensures ParseValue(s) == ParseNumber(s)
  {
    assert SkipSpace(s) == s;
    assert ParseScalar(s) == ParseNumber(s);
  }

  // ----- values -----

  lemma ParsePrintWord(v: Json, rest: Bytes)
    requires v.Null? || v.Bool?
    ensures ParseValue(Print(v) + rest) == Some((v, rest))
  {
  }

  lemma ParsePrintStr(str: string, rest: Bytes)
    ensures ParseValue(Print(Str(str)) + rest) == Some((Str(str), rest))
  {
    ParsePrintChars(str, rest);
    ParseQuoted(PrintChars(str) + [QUOTE] + rest, str, rest);
    Enclose(QUOTE, PrintChars(str), QUOTE, rest);
  }

  lemma ParseQuoted(t: Bytes, str: string, rest: Bytes)
    requires ParseChars(t) == Some((str, rest))
    ensures ParseValue([QUOTE] + t) == Some((Str(str), rest))
  {
  }

  lemma ParseBracketed(t: Bytes, items: Items, rest: Bytes)
    requires t != [] && !IsJsonSpace(t[0]) && t[0] != CLOSE_ARR
    requires ParseItems(t) == Some((items, rest))
    ensures ParseValue([OPEN_ARR] + t) == Some((Arr(items), rest))
  {
    assert ([OPEN_ARR] + t)[1..] == t;
  }

  lemma ParseBraced(t: Bytes, members: Members, rest: Bytes)
    requires t != [] && t[0] == QUOTE
    requires ParseMembers(t) == Some((members, rest))
    ensures ParseValue([OPEN_OBJ] + t) == Some((Obj(members), rest))
  {
    assert ([OPEN_OBJ] + t)[1..] == t;
  }

  lemma ParseEmpty(rest: Bytes)
    ensures ParseValue([OPEN_ARR, CLOSE_ARR] + rest) == Some((Arr(NoItems), rest))
    ensures ParseValue([OPEN_OBJ, CLOSE_OBJ] + rest) == Some((Obj(NoMembers), rest))
  {
    assert ([OPEN_ARR, CLOSE_ARR] + rest)[1..] == [CLOSE_ARR] + rest;
    assert ([OPEN_OBJ, CLOSE_OBJ] + rest)[1..] == [CLOSE_OBJ] + rest;
  }

  lemma ParseMemberStep(t: Bytes, k: string, valueText: Bytes, v: Json, after: Bytes)
    requires ParseChars(t) == Some((k, [COLON] + valueText))
    requires ParseValue(valueText) == Some((v, after))
    requires after != [] && (after[0] == COMMA || after[0] == CLOSE_OBJ)
    ensures ParseMembers([QUOTE] + t) ==
            if after[0] == CLOSE_OBJ then Some((Member(k, v, NoMembers), after[1..]))
            else var more := ParseMembers(after[1..]);
                 if more.None? then None else Some((Member(k, v, more.value.0), more.value.1))
  {
    assert ([QUOTE] + t)[1..] == t;
    assert ([COLON] + valueText)[1..] == valueText;
    NotSpace([QUOTE] + t);
    NotSpace([COLON] + valueText);
    NotSpace(after);
  }

  lemma NotSpace(s: Bytes)
    requires s != [] && !IsJsonSpace(s[0])
    ensures SkipSpace(s) == s
  {
  }

  lemma {:induction false} ParsePrint(v: Json, rest: Bytes)
    requires Plain(v) && EndsNumber(rest)
    ensures ParseValue(Print(v) + rest) == Some((v, rest))
    ensures Print(v) != [] && !IsJsonSpace(Print(v)[0]) && Print(v)[0] != CLOSE_ARR
    decreases v, 0
  {
    match v
    case Null => ParsePrintWord(v, rest);
    case Bool(b) => ParsePrintWord(v, rest);
    case Int(i) => ParsePrintInt(i, rest);
    case Str(str) => ParsePrintStr(str, rest);
    case Arr(items) => ParsePrintArr(items, rest);
    case Obj(members) => ParsePrintObj(members, rest);
  }

  lemma {:induction false} ParsePrintArr(items: Items, rest: Bytes)
    requires PlainItems(items)
    ensures ParseValue(Print(Arr(items)) + rest) == Some((Arr(items), rest))
    decreases items, 2
  {
    Enclose(OPEN_ARR, PrintItems(items), CLOSE_ARR, rest);
    if items.NoItems? {
      ParseEmpty(rest);
      assert Print(Arr(items)) == [OPEN_ARR, CLOSE_ARR];
    } else {
      ParsePrintItems(items, rest);
      ParseBracketed(PrintItems(items) + [CLOSE_ARR] + rest, items, rest);
    }
  }

  lemma Enclose(open: Byte, body: Bytes, close: Byte, rest: Bytes)
    ensures ([open] + body + [close]) + rest == [open] + (body + [close] + rest)
  {
  }

  lemma {:induction false} ParsePrintObj(members: Members, rest: Bytes)
    requires PlainMembers(members)
    ensures ParseValue(Print(Obj(members)) + rest) == Some((Obj(members), rest))
    decreases members, 2
  {
    Enclose(OPEN_OBJ, PrintMembers(members), CLOSE_OBJ, rest);
    if members.NoMembers? {
      ParseEmpty(rest);
      assert Print(Obj(members)) == [OPEN_OBJ, CLOSE_OBJ];
    } else {
      ParsePrintMembers(members, rest);
      ParseBraced(PrintMembers(members) + [CLOSE_OBJ] + rest, members, rest);
    }
  }

  lemma {:induction false} ParsePrintItems(items: Items, rest: Bytes)
    requires PlainItems(items) && items.Item?
    ensures var s := PrintItems(items) + [CLOSE_ARR] + rest;
            && ParseItems(s) == Some((items, rest))
            && !IsJsonSpace(s[0]) && s[0] != CLOSE_ARR
    decreases items, 1
  {
    var s := PrintItems(items) + [CLOSE_ARR] + rest;
    var more := if items.tail.NoItems? then [CLOSE_ARR] + rest
                else [COMMA] + (PrintItems(items.tail) + [CLOSE_ARR] + rest);
    assert s == Print(items.head) + more;
    ParsePrint(items.head, more);
    assert s[0] == Print(items.head)[0];
    assert SkipSpace(more) == more;
    if items.tail.Item? {
      ParsePrintItems(items.tail, rest);
      assert more[1..] == PrintItems(items.tail) + [CLOSE_ARR] + rest;
    }
  }

  lemma {:induction false} ParsePrintMembers(members: Members, rest: Bytes)
    requires PlainMembers(members) && members.Member?
    ensures var s := PrintMembers(members) + [CLOSE_OBJ] + rest;
            ParseMembers(s) == Some((members, rest)) && s[0] == QUOTE
    decreases members, 1
  {
    var Member(k, v, tail) := members;
    var after := AfterValue(tail, rest);
    var keyText := PrintChars(k) + [QUOTE] + ([COLON] + (Print(v) + after));
    MembersText(members, rest);
    ParsePrintChars(k, [COLON] + (Print(v) + after));
    ParsePrint(v, after);
    if tail.Member? {
      ParsePrintMembers(tail, rest);
      assert after[1..] == PrintMembers(tail) + [CLOSE_OBJ] + rest;
    } else {
      assert after[1..] == rest;
    }
    ParseMemberStep(keyText, k, Print(v) + after, v, after);
  }

  /** What follows a member's value. */
  function AfterValue(tail: Members, rest: Bytes): Bytes {
    if tail.NoMembers? then [CLOSE_OBJ] + rest else [COMMA] + (PrintMembers(tail) + [CLOSE_OBJ] + rest)
  }

  lemma MembersText(members: Members, rest: Bytes)
    requires members.Member?
    ensures var Member(k, v, tail) := members;
            PrintMembers(members) + [CLOSE_OBJ] + rest
            == [QUOTE] + (PrintChars(k) + [QUOTE] + ([COLON] + (Print(v) + AfterValue(tail, rest))))
  {
    var Member(k, v, tail) := members;
    var sep := Separator(tail);
    SeparatorText(tail, rest);
    Regroup(PrintChars(k), Print(v), sep, rest);
    assert PrintMembers(members) == PrintStr(k) + [COLON] + Print(v) + sep;
  }

  /** The comma and what it announces, or nothing after the last member. */
  function Separator(tail: Members): Bytes {
    if tail.NoMembers? then [] else [COMMA] + PrintMembers(tail)
  }

  lemma SeparatorText(tail: Members, rest: Bytes)
    ensures Separator(tail) + [CLOSE_OBJ] + rest == AfterValue(tail, rest)
  {
  }

  lemma Regroup(k: Bytes, v: Bytes, sep: Bytes, rest: Bytes)
    ensures ([QUOTE] + k + [QUOTE]) + [COLON] + v + sep + [CLOSE_OBJ] + rest
            == [QUOTE] + (k + [QUOTE] + ([COLON] + (v + (sep + [CLOSE_OBJ] + rest))))
  {
  }

  lemma LoadsPrint(v: Json)
    requires Plain(v)
    ensures Loads(Print(v)) == Some(v)
  {
    ParsePrint(v, []);
    assert Print(v) + [] == Print(v);
  }

  /** Equal texts come from equal values. */
  lemma PrintInjective(v: Json, w: Json)
    requires Plain(v) && Plain(w)
    requires Print(v) == Print(w)
    ensures v == w
  {
    LoadsPrint(v);
    LoadsPrint(w);
  }
}
