/** A JSON reader after `orjson.loads`: RFC 8259 text over UTF-8 bytes, `None`
    for text that raises `JSONDecodeError`. Numbers that are no 64-bit integer
    keep their text, so one that overflows a double is read, not refused. Each
    function reads one phrase at the start of its input and returns it with
    what follows. */
module JsonParser {
  import opened Wrappers
  import opened Utf8
  import opened Json
  import Decimal

  predicate IsJsonSpace(b: Byte) { b == 0x20 || b == 0x09 || b == 0x0A || b == 0x0D }

  function SkipSpace(s: Bytes): (r: Bytes)
    ensures |r| <= |s|
  {
    if s != [] && IsJsonSpace(s[0]) then SkipSpace(s[1..]) else s
  }

  // ----- strings -----

  function HexValue(b: Byte): (r: Option<int>)
    ensures r.Some? ==> 0 <= r.value < 16
  {
    if 0x30 <= b <= 0x39 then Some(b - 0x30)
    else if 0x61 <= b <= 0x66 then Some((b as int) - 0x57)
    else if 0x41 <= b <= 0x46 then Some((b as int) - 0x37)
    else None
  }

  /** The value of the `\uXXXX` escape at the start of `s`. */
  function Hex4(s: Bytes): (r: Option<int>)
    ensures r.Some? ==> |s| >= 6
  {
    if |s| >= 6 && s[0] == BACKSLASH && s[1] == 0x75 &&
       HexValue(s[2]).Some? && HexValue(s[3]).Some? && HexValue(s[4]).Some? && HexValue(s[5]).Some?
    then Some(HexValue(s[2]).value * 0x1000 + HexValue(s[3]).value * 0x100
              + HexValue(s[4]).value * 0x10 + HexValue(s[5]).value)
    else None
  }

  function UnescapeShort(b: Byte): Option<char> {
    if b == 0x22 || b == 0x5C || b == 0x2F then Some(b as char)
    else if b == 0x62 then Some(0x08 as char)
    else if b == 0x74 then Some(0x09 as char)
    else if b == 0x6E then Some(0x0A as char)
    else if b == 0x66 then Some(0x0C as char)
    else if b == 0x72 then Some(0x0D as char)
    else None
  }

  function Sized(c: Option<char>, width: nat): Option<(char, nat)> {
    if c.Some? then Some((c.value, width)) else None
  }

  /** An escape sequence; a high surrogate must be followed by a low one. */
  function ParseEscape(s: Bytes): (r: Option<(char, nat)>)
    ensures r.Some? ==> 1 <= r.value.1 <= |s|
  {
    if |s| < 2 then None
    else if s[1] != 0x75 then Sized(UnescapeShort(s[1]), 2)
    else if Hex4(s).None? then None
    else
      var u := Hex4(s).value;
      if 0xD800 <= u < 0xDC00 then
        if Hex4(s[6..]).Some? && 0xDC00 <= Hex4(s[6..]).value < 0xE000
        then Sized(ToChar(0x10000 + (u - 0xD800) * 0x400 + (Hex4(s[6..]).value - 0xDC00)), 12)
        else None
      else Sized(ToChar(u), 6)
  }

  /** One character inside a string literal and how many bytes it takes. */
  function ParseChar(s: Bytes): (r: Option<(char, nat)>)
    ensures r.Some? ==> 1 <= r.value.1 <= |s|
  {
    if s == [] then None
    else if s[0] == BACKSLASH then ParseEscape(s)
    else if s[0] < 0x20 then None
    else DecodeChar(s)
  }

  /** The rest of a string literal whose opening quote was consumed. */
  function ParseChars(s: Bytes): (r: Option<(string, Bytes)>)
    ensures r.Some? ==> |r.value.1| < |s|
    decreases |s|
  {
    if s == [] then None
    else if s[0] == QUOTE then Some(("", s[1..]))
    else
      var c := ParseChar(s);
      if c.None? then None
      else
        var t := ParseChars(s[c.value.1..]);
        if t.None? then None else Some(([c.value.0] + t.value.0, t.value.1))
  }

  // ----- numbers -----

  predicate IsDigit(b: Byte) { 0x30 <= b <= 0x39 }

  /** The length of the longest run of digits at the start of `s`. */
  function DigitRun(s: Bytes): (n: nat)
    ensures n <= |s|
  {
    if s != [] && IsDigit(s[0]) then 1 + DigitRun(s[1..]) else 0
  }

  lemma {:induction false} DigitRunDigits(s: Bytes)
    ensures forall i | 0 <= i < DigitRun(s) :: IsDigit(s[i])
    ensures DigitRun(s) < |s| ==> !IsDigit(s[DigitRun(s)])
  {
    if s != [] && IsDigit(s[0]) {
      DigitRunDigits(s[1..]);
      assert forall i | 1 <= i < |s| :: s[i] == s[1..][i - 1];
    }
  }

  function DigitOf(b: Byte): Decimal.Digit
    requires IsDigit(b)
  {
    b - 0x30
  }

  function ReadDigits(s: Bytes): (ds: seq<Decimal.Digit>)
    requires forall b <- s :: IsDigit(b)
    ensures |ds| == |s|
  {
    seq(|s|, i requires 0 <= i < |s| && IsDigit(s[i]) => DigitOf(s[i]))
  }

  /** The length of a fraction `.ddd`, 0 when there is none, `None` when the
      dot has no digit after it. */
  function Fraction(s: Bytes): (r: Option<nat>)
    ensures r.Some? ==> r.value <= |s|
  {
    if s == [] || s[0] != 0x2E then Some(0)
    else if DigitRun(s[1..]) == 0 then None
    else Some(1 + DigitRun(s[1..]))
  }

  /** The length of an exponent `e+dd`, with the same conventions. */
  function Exponent(s: Bytes): (r: Option<nat>)
    ensures r.Some? ==> r.value <= |s|
  {
    if s == [] || (s[0] != 0x65 && s[0] != 0x45) then Some(0)
    else
      var sign := if |s| >= 2 && (s[1] == 0x2B || s[1] == 0x2D) then 1 else 0;
      var n := DigitRun(s[1 + sign..]);
      if n == 0 then None else Some(1 + sign + n)
  }

  /** A number: integer digits, then an optional fraction and exponent. Only a
      bare integer of at most 64 bits is read as an integer. */
  function ParseNumber(s: Bytes): (r: Option<(Json, Bytes)>)
    requires s != []
    ensures r.Some? ==> |r.value.1| < |s|
  {
    var negative := s[0] == MINUS;
    var t := if negative then s[1..] else s;
    var n := DigitRun(t);
    if n == 0 || (n > 1 && t[0] == 0x30) then None
    else
      var f := Fraction(t[n..]);
      if f.None? then None
      else
        var e := Exponent(t[n + f.value..]);
        if e.None? then None
        else
          DigitRunDigits(t);
          var width := n + f.value + e.value;
          var magnitude: int := Decimal.Value(ReadDigits(t[..n]));
          var i := if negative then -magnitude else magnitude;
          var v := if f.value == 0 && e.value == 0 && Fits64(i) then Int(i)
                   else Float(s[..|s| - |t| + width]);
          Some((v, t[width..]))
  }

  // ----- values -----

  predicate StartsWith(s: Bytes, p: Bytes) { |p| <= |s| && s[..|p|] == p }

  function Literal(s: Bytes, word: Bytes, v: Json): (r: Option<(Json, Bytes)>)
    requires word != []
    ensures r.Some? ==> |r.value.1| < |s|
  {
    if StartsWith(s, word) then Some((v, s[|word|..])) else None
  }

  /** A string, a word or a number. */
  function ParseScalar(t: Bytes): (r: Option<(Json, Bytes)>)
    requires t != []
    ensures r.Some? ==> |r.value.1| < |t|
  {
    if t[0] == QUOTE then
      var r := ParseChars(t[1..]);
      if r.None? then None else Some((Str(r.value.0), r.value.1))
    else if t[0] == 0x6E then Literal(t, NULL, Null)
    else if t[0] == 0x74 then Literal(t, TRUE, Bool(true))
    else if t[0] == 0x66 then Literal(t, FALSE, Bool(false))
    else ParseNumber(t)
  }

  function ParseValue(s: Bytes): (r: Option<(Json, Bytes)>)
    ensures r.Some? ==> |r.value.1| < |s|
    decreases |s|, 0
  {
    var t := SkipSpace(s);
    if t == [] then None
    else if t[0] == OPEN_ARR then ParseArr(t[1..])
    else if t[0] == OPEN_OBJ then ParseObj(t[1..])
    else ParseScalar(t)
  }

  /** The rest of an array whose bracket was consumed. */
  function ParseArr(s: Bytes): (r: Option<(Json, Bytes)>)
    ensures r.Some? ==> |r.value.1| < |s|
    decreases |s|, 2
  {
    var u := SkipSpace(s);
    if u != [] && u[0] == CLOSE_ARR then Some((Arr(NoItems), u[1..]))
    else
      var r := ParseItems(s);
      if r.None? then None else Some((Arr(r.value.0), r.value.1))
  }

  /** The rest of an object whose brace was consumed. */
  function ParseObj(s: Bytes): (r: Option<(Json, Bytes)>)
    ensures r.Some? ==> |r.value.1| < |s|
    decreases |s|, 2
  {
    var u := SkipSpace(s);
    if u != [] && u[0] == CLOSE_OBJ then Some((Obj(NoMembers), u[1..]))
    else
      var r := ParseMembers(s);
      if r.None? then None else Some((Obj(r.value.0), r.value.1))
  }

  /** One or more elements and the closing bracket. */
  function ParseItems(s: Bytes): (r: Option<(Items, Bytes)>)
    ensures r.Some? ==> |r.value.1| < |s|
    decreases |s|, 1
  {
    var v := ParseValue(s);
    if v.None? then None
    else
      var t := SkipSpace(v.value.1);
      if t == [] then None
      else if t[0] == CLOSE_ARR then Some((Item(v.value.0, NoItems), t[1..]))
      else if t[0] != COMMA then None
      else
        var tail := ParseItems(t[1..]);
        if tail.None? then None else Some((Item(v.value.0, tail.value.0), tail.value.1))
  }

  /** One or more members and the closing brace. */
  function ParseMembers(s: Bytes): (r: Option<(Members, Bytes)>)
    ensures r.Some? ==> |r.value.1| < |s|
    decreases |s|, 1
  {
    var t := SkipSpace(s);
    if t == [] || t[0] != QUOTE then None
    else
      var k := ParseChars(t[1..]);
      if k.None? then None
      else
        var u := SkipSpace(k.value.1);
        if u == [] || u[0] != COLON then None
        else
          var v := ParseValue(u[1..]);
          if v.None? then None
          else
            var w := SkipSpace(v.value.1);
            if w == [] then None
            else if w[0] == CLOSE_OBJ then Some((Member(k.value.0, v.value.0, NoMembers), w[1..]))
            else if w[0] != COMMA then None
            else
              var rest := ParseMembers(w[1..]);
              if rest.None? then None
              else Some((Member(k.value.0, v.value.0, rest.value.0), rest.value.1))
  }

  /** A whole payload: one value and nothing but white space around it. */
  function Loads(payload: Bytes): Option<Json> {
    var r := ParseValue(payload);
    if r.Some? && SkipSpace(r.value.1) == [] then Some(r.value.0) else None
  }
}
