/** UTF-8 (RFC 3629): the byte form of every JSON text on the wire. A Dafny
    `char` is a Unicode scalar value, exactly what UTF-8 can carry. */
module Utf8 {
  import opened Wrappers

  type Byte = b: nat | b < 256
  type Bytes = seq<Byte>

  function EncodeChar(c: char): (bs: Bytes)
    ensures 1 <= |bs| <= 4
    ensures c as int < 0x80 ==> bs == [c as int]
    ensures c as int >= 0x80 ==> forall b <- bs :: b >= 0x80
  {
    var n := c as int;
    if n < 0x80 then [n]
    else if n < 0x800 then [0xC0 + n / 0x40, 0x80 + n % 0x40]
    else if n < 0x10000 then [0xE0 + n / 0x1000, 0x80 + n / 0x40 % 0x40, 0x80 + n % 0x40]
    else [0xF0 + n / 0x40000, 0x80 + n / 0x1000 % 0x40, 0x80 + n / 0x40 % 0x40, 0x80 + n % 0x40]
  }

  predicate Continuation(b: Byte) { 0x80 <= b < 0xC0 }

  /** The scalar value a code point denotes; surrogates and values past
      U+10FFFF denote none. */
  function ToChar(n: int): (r: Option<char>)
    ensures r.Some? ==> r.value as int == n
  {
    if 0 <= n < 0xD800 || 0xE000 <= n < 0x110000 then Some(n as char) else None
  }

  function Code2(a: int, b: int): int { (a - 0xC0) * 0x40 + (b - 0x80) }

  function Code3(a: int, b: int, c: int): int { (a - 0xE0) * 0x1000 + (b - 0x80) * 0x40 + (c - 0x80) }

  function Code4(a: int, b: int, c: int, d: int): int {
    (a - 0xF0) * 0x40000 + (b - 0x80) * 0x1000 + (c - 0x80) * 0x40 + (d - 0x80)
  }

  /** The first character of `s` and how many bytes it takes, rejecting stray
      continuation bytes, overlong forms and surrogates. */
  function DecodeChar(s: Bytes): (r: Option<(char, nat)>)
    ensures r.Some? ==> 1 <= r.value.1 <= |s|
  {
    if |s| >= 1 && s[0] < 0x80 then Some((s[0] as char, 1))
    else if |s| >= 2 && 0xC2 <= s[0] < 0xE0 && Continuation(s[1]) then
      Pack(ToChar(Code2(s[0], s[1])), 0x80, 2)
    else if |s| >= 3 && 0xE0 <= s[0] < 0xF0 && Continuation(s[1]) && Continuation(s[2]) then
      Pack(ToChar(Code3(s[0], s[1], s[2])), 0x800, 3)
    else if |s| >= 4 && 0xF0 <= s[0] < 0xF5 && Continuation(s[1]) && Continuation(s[2]) && Continuation(s[3]) then
      Pack(ToChar(Code4(s[0], s[1], s[2], s[3])), 0x10000, 4)
    else None
  }

  function Pack(c: Option<char>, least: nat, width: nat): Option<(char, nat)> {
    if c.Some? && c.value as int >= least then Some((c.value, width)) else None
  }

  lemma LeadByte(c: char)
    ensures var n, e := c as int, EncodeChar(c);
            && (|e| == 1 <==> n < 0x80) && (|e| == 1 ==> e[0] < 0x80)
            && (|e| == 2 <==> 0x80 <= n < 0x800) && (|e| == 2 ==> 0xC2 <= e[0] < 0xE0)
            && (|e| == 3 <==> 0x800 <= n < 0x10000) && (|e| == 3 ==> 0xE0 <= e[0] < 0xF0)
            && (|e| == 4 <==> 0x10000 <= n) && (|e| == 4 ==> 0xF0 <= e[0] < 0xF5)
            && forall i | 1 <= i < |e| :: Continuation(e[i])
  {
  }

  lemma SplitBase64(n: nat)
    ensures n == n / 0x40 * 0x40 + n % 0x40
    ensures n / 0x40 / 0x40 == n / 0x1000
    ensures n / 0x1000 / 0x40 == n / 0x40000
  {
  }

  lemma CodeOfEncoding(c: char)
    ensures var n, e := c as int, EncodeChar(c);
            && (|e| == 2 ==> Code2(e[0], e[1]) == n)
            && (|e| == 3 ==> Code3(e[0], e[1], e[2]) == n)
            && (|e| == 4 ==> Code4(e[0], e[1], e[2], e[3]) == n)
  {
    SplitBase64(c as int);
    SplitBase64(c as int / 0x40);
    SplitBase64(c as int / 0x1000);
  }

  lemma ToCharOf(c: char)
    ensures ToChar(c as int) == Some(c)
  {
  }

  lemma DecodeEncode(c: char, rest: Bytes)
    ensures DecodeChar(EncodeChar(c) + rest) == Some((c, |EncodeChar(c)|))
  {
    var e := EncodeChar(c);
    var s := e + rest;
    CodeOfEncoding(c);
    ToCharOf(c);
    assert s[0] == e[0];
    assert |e| >= 2 ==> s[1] == e[1];
    assert |e| >= 3 ==> s[2] == e[2];
    assert |e| >= 4 ==> s[3] == e[3];
    LeadByte(c);
  }

  /** Only shortest forms are read: what decodes is the encoding of its
      character. */
  lemma EncodeDecode(s: Bytes)
    ensures DecodeChar(s).Some? ==>
              var (c, width) := DecodeChar(s).value;
              EncodeChar(c) == s[..width]
  {
    if DecodeChar(s).Some? && s[0] >= 0x80 {
      if s[0] < 0xE0 {
        Encode2(s[0], s[1], DecodeChar(s).value.0);
      } else if s[0] < 0xF0 {
        Encode3(s[0], s[1], s[2], DecodeChar(s).value.0);
      } else {
        Encode4(s[0], s[1], s[2], s[3], DecodeChar(s).value.0);
      }
    }
  }

  lemma Encode2(a: Byte, b: Byte, c: char)
    requires 0xC2 <= a < 0xE0 && Continuation(b) && c as int == Code2(a, b)
    ensures EncodeChar(c) == [a, b]
  {
    Repack(a - 0xC0, b - 0x80);
  }

  lemma Encode3(a: Byte, b: Byte, d: Byte, c: char)
    requires 0xE0 <= a < 0xF0 && Continuation(b) && Continuation(d) && c as int == Code3(a, b, d) >= 0x800
    ensures EncodeChar(c) == [a, b, d]
  {
    var n := c as int;
    Repack((a - 0xE0) * 0x40 + (b - 0x80), d - 0x80);
    Repack(a - 0xE0, b - 0x80);
    SplitBase64(n);
  }

  lemma Encode4(a: Byte, b: Byte, d: Byte, e: Byte, c: char)
    requires 0xF0 <= a < 0xF5 && Continuation(b) && Continuation(d) && Continuation(e) && c as int == Code4(a, b, d, e) >= 0x10000
    ensures EncodeChar(c) == [a, b, d, e]
  {
    var n := c as int;
    Repack(((a - 0xF0) * 0x40 + (b - 0x80)) * 0x40 + (d - 0x80), e - 0x80);
    Repack((a - 0xF0) * 0x40 + (b - 0x80), d - 0x80);
    Repack(a - 0xF0, b - 0x80);
    SplitBase64(n);
    SplitBase64(n / 0x40);
  }

  lemma Repack(hi: int, lo: int)
    requires 0 <= lo < 0x40
    ensures (hi * 0x40 + lo) / 0x40 == hi && (hi * 0x40 + lo) % 0x40 == lo
  {
  }

  /** The bytes are the codes of a text, character by character: ASCII. */
  predicate Spells(bs: Bytes, s: string) {
    |bs| == |s| && forall i | 0 <= i < |s| :: bs[i] == s[i] as int
  }
}
