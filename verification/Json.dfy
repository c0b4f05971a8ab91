/** JSON values and the compact form `orjson.dumps` writes (RFC 8259). */
module Json {
  import opened Wrappers
  import opened Utf8
  import Decimal

  datatype Json =
    | Null
    | Bool(b: bool)
    | Int(i: int)
    | Float(literal: Bytes)
    | Str(s: string)
    | Arr(items: Items)
    | Obj(members: Members)

  datatype Items = NoItems | Item(head: Json, tail: Items)

  datatype Members = NoMembers | Member(key: string, value: Json, rest: Members)

  /** Python truthiness of the decoded value. */
  predicate Truthy(v: Json) {
    match v
    case Null => false
    case Bool(b) => b
    case Int(i) => i != 0
    case Float(literal) => NonzeroMantissa(literal)
    case Str(s) => s != ""
    case Arr(items) => items.Item?
    case Obj(members) => members.Member?
  }

  /** Whether a number literal has a nonzero digit before its exponent, which is
      when its exact value is not zero. */
  predicate NonzeroMantissa(literal: Bytes) {
    literal != [] && literal[0] != 0x65 && literal[0] != 0x45 &&
    (0x31 <= literal[0] <= 0x39 || NonzeroMantissa(literal[1..]))
  }

  /** Lookup in the dict the members decode to: the last duplicate wins. */
  function Get(members: Members, key: string): Option<Json> {
    match members
    case NoMembers => None
    case Member(k, v, rest) =>
      var later := Get(rest, key);
      if later.Some? || k != key then later else Some(v)
  }

  function GetOr(members: Members, key: string, default: Json): Json {
    var r := Get(members, key);
    if r.Some? then r.value else default
  }

  /** The integers orjson can write and reads back as integers. */
  predicate Fits64(i: int) { -0x8000_0000_0000_0000 <= i < 0x1_0000_0000_0000_0000 }

  /** No float and no integer wider than 64 bits anywhere inside. */
  predicate Plain(v: Json) {
    match v
    case Int(i) => Fits64(i)
    case Float(_) => false
    case Arr(items) => PlainItems(items)
    case Obj(members) => PlainMembers(members)
    case _ => true
  }

  predicate PlainItems(items: Items) {
    items.Item? ==> Plain(items.head) && PlainItems(items.tail)
  }

  predicate PlainMembers(members: Members) {
    members.Member? ==> Plain(members.value) && PlainMembers(members.rest)
  }

  // ----- printing -----

  const QUOTE: Byte := 0x22
  const BACKSLASH: Byte := 0x5C
  const COMMA: Byte := 0x2C
  const COLON: Byte := 0x3A
  const MINUS: Byte := 0x2D
  const OPEN_ARR: Byte := 0x5B
  const CLOSE_ARR: Byte := 0x5D
  const OPEN_OBJ: Byte := 0x7B
  const CLOSE_OBJ: Byte := 0x7D
  const NULL: Bytes := [0x6E, 0x75, 0x6C, 0x6C]
  const TRUE: Bytes := [0x74, 0x72, 0x75, 0x65]
  const FALSE: Bytes := [0x66, 0x61, 0x6C, 0x73, 0x65]

  function HexDigit(n: nat): Byte
    requires n < 16
  {
    if n < 10 then 0x30 + n else 0x57 + n
  }

  /** The letter of a two-character escape, for the characters that have one. */
  function ShortEscape(n: nat): Option<Byte> {
    if n == 0x22 || n == 0x5C then Some(n)
    else if n == 0x08 then Some(0x62)
    else if n == 0x09 then Some(0x74)
    else if n == 0x0A then Some(0x6E)
    else if n == 0x0C then Some(0x66)
    else if n == 0x0D then Some(0x72)
    else None
  }

  function PrintChar(c: char): Bytes {
    var n := c as int;
    if ShortEscape(n).Some? then [BACKSLASH, ShortEscape(n).value]
    else if n < 0x20 then [BACKSLASH, 0x75, 0x30, 0x30, HexDigit(n / 16), HexDigit(n % 16)]
    else EncodeChar(c)
  }

  function PrintChars(s: string): Bytes {
    if s == "" then [] else PrintChar(s[0]) + PrintChars(s[1..])
  }

  function PrintStr(s: string): Bytes { [QUOTE] + PrintChars(s) + [QUOTE] }

  function PrintDigits(ds: seq<Decimal.Digit>): (bs: Bytes)
    ensures |bs| == |ds|
  {
    seq(|ds|, i requires 0 <= i < |ds| => 0x30 + ds[i] as int)
  }

  function PrintInt(i: int): Bytes {
    if i < 0 then [MINUS] + PrintDigits(Decimal.Digits(-i)) else PrintDigits(Decimal.Digits(i))
  }

  function Print(v: Json): Bytes {
    match v
    case Null => NULL
    case Bool(b) => if b then TRUE else FALSE
    case Int(i) => PrintInt(i)
    case Float(literal) => literal
    case Str(s) => PrintStr(s)
    case Arr(items) => [OPEN_ARR] + PrintItems(items) + [CLOSE_ARR]
    case Obj(members) => [OPEN_OBJ] + PrintMembers(members) + [CLOSE_OBJ]
  }

  function PrintItems(items: Items): Bytes {
    match items
    case NoItems => []
    case Item(v, tail) => Print(v) + (if tail.NoItems? then [] else [COMMA] + PrintItems(tail))
  }

  function PrintMembers(members: Members): Bytes {
    match members
    case NoMembers => []
    case Member(k, v, rest) =>
      PrintStr(k) + [COLON] + Print(v) + (if rest.NoMembers? then [] else [COMMA] + PrintMembers(rest))
  }

  // ----- no control character in what is printed -----

  ghost predicate ControlFree(bs: Bytes) { forall b <- bs :: b >= 0x20 }

  lemma {:induction false} PrintCharsControlFree(s: string)
    ensures ControlFree(PrintChars(s))
  {
    if s != "" {
      PrintCharsControlFree(s[1..]);
    }
  }

  lemma {:induction false} PrintControlFree(v: Json)
    requires Plain(v)
    ensures ControlFree(Print(v))
  {
    match v
    case Str(s) => PrintCharsControlFree(s);
    case Arr(items) => PrintItemsControlFree(items);
    case Obj(members) => PrintMembersControlFree(members);
    case _ =>
  }

  lemma {:induction false} PrintItemsControlFree(items: Items)
    requires PlainItems(items)
    ensures ControlFree(PrintItems(items))
  {
    if items.Item? {
      PrintControlFree(items.head);
      PrintItemsControlFree(items.tail);
    }
  }

  lemma {:induction false} PrintMembersControlFree(members: Members)
    requires PlainMembers(members)
    ensures ControlFree(PrintMembers(members))
  {
    if members.Member? {
      PrintCharsControlFree(members.key);
      PrintControlFree(members.value);
      PrintMembersControlFree(members.rest);
    }
  }

  // ----- what these functions mean -----

  /** What Python takes for false, value by value. */
  lemma TruthyIs(v: Json)
    ensures !Truthy(v) <==>
              || v == Null || v == Bool(false) || v == Int(0) || v == Str("") || v == Arr(NoItems) || v == Obj(NoMembers)
              || (v.Float? && IsZero(v.literal))
  {
    if v.Float? {
      MantissaIff(v.literal);
    }
  }

  /** No digit from 1 to 9 before the exponent. */
  predicate IsZero(literal: Bytes) {
    forall i | 0 <= i < |literal| && 0x31 <= literal[i] <= 0x39 ::
      exists j :: 0 <= j < i && (literal[j] == 0x65 || literal[j] == 0x45)
  }

  lemma {:induction false} MantissaIff(literal: Bytes)
    ensures NonzeroMantissa(literal) <==> !IsZero(literal)
  {
    if literal != [] && literal[0] != 0x65 && literal[0] != 0x45 {
      var rest := literal[1..];
      MantissaIff(rest);
      if 0x31 <= literal[0] <= 0x39 {
        assert !IsZero(literal);
      } else if IsZero(rest) {
        forall i | 0 <= i < |literal| && 0x31 <= literal[i] <= 0x39
          ensures exists j :: 0 <= j < i && (literal[j] == 0x65 || literal[j] == 0x45)
        {
          assert rest[i - 1] == literal[i];
          var j :| 0 <= j < i - 1 && (rest[j] == 0x65 || rest[j] == 0x45);
          assert literal[j + 1] == rest[j];
        }
      } else {
        var i :| 0 <= i < |rest| && 0x31 <= rest[i] <= 0x39 && forall j | 0 <= j < i :: rest[j] != 0x65 && rest[j] != 0x45;
        assert literal[i + 1] == rest[i];
        assert forall j | 1 <= j < i + 1 :: literal[j] == rest[j - 1];
      }
    }
  }

  /** The members of an object in the order they are written. */
  function Pairs(members: Members): seq<(string, Json)> {
    match members
    case NoMembers => []
    case Member(k, v, rest) => [(k, v)] + Pairs(rest)
  }

  /** Looking up a key finds its last member, */
  lemma {:induction false} GetIsLast(members: Members, key: string, i: nat)
    requires i < |Pairs(members)| && Pairs(members)[i].0 == key
    requires forall j | i < j < |Pairs(members)| :: Pairs(members)[j].0 != key
    ensures Get(members, key) == Some(Pairs(members)[i].1)
    decreases members
  {
    var Member(k, v, rest) := members;
    PairsTail(members);
    if i == 0 {
      GetIsNone(rest, key);
    } else {
      GetIsLast(rest, key, i - 1);
    }
  }

  /** and nothing when it has none. */
  lemma {:induction false} GetIsNone(members: Members, key: string)
    requires forall j | 0 <= j < |Pairs(members)| :: Pairs(members)[j].0 != key
    ensures Get(members, key) == None
    decreases members
  {
    if members.Member? {
      PairsTail(members);
      assert Pairs(members)[0].0 != key;
      GetIsNone(members.rest, key);
    }
  }

  lemma PairsTail(members: Members)
    requires members.Member?
    ensures Pairs(members)[0] == (members.key, members.value)
    ensures |Pairs(members)| == |Pairs(members.rest)| + 1
    ensures forall j | 0 <= j < |Pairs(members.rest)| :: Pairs(members)[j + 1] == Pairs(members.rest)[j]
  {
  }

  // ----- the text of JSON -----

  /** Characters that print as themselves. */
  predicate PrintsItself(c: char) { ' ' <= c <= '~' && c != '"' && c != '\\' }

  lemma {:induction false} PlainChars(s: string)
    requires forall i | 0 <= i < |s| :: PrintsItself(s[i])
    ensures Spells(PrintChars(s), s)
  {
    if s != "" {
      PlainChars(s[1..]);
      assert PrintChar(s[0]) == [s[0] as int];
    }
  }

  /** Printable text is printed between double quotes as it stands. */
  lemma PlainText(s: string)
    requires forall i | 0 <= i < |s| :: PrintsItself(s[i])
    ensures Spells(PrintStr(s), "\"" + s + "\"")
  {
    PlainChars(s);
  }

  /** Words and empty brackets as RFC 8259 writes them. */
  lemma PrintedWords()
    ensures Spells(Print(Null), "null") && Spells(Print(Bool(true)), "true") && Spells(Print(Bool(false)), "false")
    ensures Spells(Print(Obj(NoMembers)), "{}") && Spells(Print(Arr(NoItems)), "[]")
  {
  }

  /** Brackets, commas, colons and signs around what is printed inside. */
  lemma PrintedList(v: Json, w: Json)
    ensures Print(Arr(Item(v, Item(w, NoItems)))) == ['[' as int] + Print(v) + [',' as int] + Print(w) + [']' as int]
  {
    var last := Item(w, NoItems);
    assert PrintItems(last) == Print(w) + [] == Print(w);
    assert PrintItems(Item(v, last)) == Print(v) + ([COMMA] + PrintItems(last));
    Bracketed(Print(v), Print(w));
  }

  lemma Bracketed(a: Bytes, b: Bytes)
    ensures [OPEN_ARR] + (a + ([COMMA] + b)) + [CLOSE_ARR] == ['[' as int] + a + [',' as int] + b + [']' as int]
  {
  }

  lemma PrintedMember(k: string, v: Json)
    ensures Print(Obj(Member(k, v, NoMembers))) == ['{' as int] + PrintStr(k) + [':' as int] + Print(v) + ['}' as int]
  {
    assert PrintMembers(Member(k, v, NoMembers)) == PrintStr(k) + [COLON] + Print(v) + [];
  }

  lemma PrintedNegative(n: nat)
    requires n > 0
    ensures Print(Int(0 - n)) == ['-' as int] + Print(Int(n))
  {
  }

  /** Every digit of a printed natural number is the decimal digit of its place. */
  lemma PrintedDigit(n: nat, k: nat)
    requires k < |Print(Int(n))|
    ensures Decimal.Pow10(k) > 0 && Print(Int(n))[|Print(Int(n))| - 1 - k] == '0' as int + n / Decimal.Pow10(k) % 10
  {
    Decimal.DigitAt(n, k);
  }

  /** What is escaped, and how. */
  lemma PrintedEscapes(c: char)
    ensures c == '"' || c == '\\' ==> Spells(PrintChar(c), ['\\', c])
    ensures c == '\n' ==> Spells(PrintChar(c), ['\\', 'n'])
    ensures c == '\r' ==> Spells(PrintChar(c), ['\\', 'r'])
    ensures c == '\t' ==> Spells(PrintChar(c), ['\\', 't'])
    ensures c as int == 0x08 ==> Spells(PrintChar(c), ['\\', 'b'])
    ensures c as int == 0x0C ==> Spells(PrintChar(c), ['\\', 'f'])
  {
  }

  lemma PrintedControl(c: char)
    requires c as int < 0x20 && ShortEscape(c as int).None?
    ensures Spells(PrintChar(c), ['\\', 'u', '0', '0', HexChar(c as int / 16), HexChar(c as int % 16)])
  {
  }

  function HexChar(n: nat): char
    requires n < 16
  {
    if n < 10 then ('0' as int + n) as char else ('a' as int + n - 10) as char
  }
}
