/** Cache keying: the namespace string that scopes an entry, and why two
    signatures share it only if they agree on every dimension. */
module Namespace {
  import opened Wrappers
  import Decimal
  import Rounding

  // ----- the hash -----

  /** SHA-256 in hexadecimal. */
  type Sha = string -> string

  predicate IsHexDigit(c: char) { '0' <= c <= '9' || 'a' <= c <= 'f' }

  ghost predicate HexDigest(sha: Sha) {
    forall x :: |sha(x)| == 64 && forall c <- sha(x) :: IsHexDigit(c)
  }

  function Prefix(s: string, n: nat): string { if n <= |s| then s[..n] else s }

  /** The collision-freedom hypothesis, only ever about the strings at hand:
      the first `n` digits tell `x` and `y` apart. */
  ghost predicate NoCollision(sha: Sha, n: nat, x: string, y: string) {
    Prefix(sha(x), n) == Prefix(sha(y), n) ==> x == y
  }

  // ----- the dimensions -----

  /** The characters `str.strip()` removes. */
  predicate IsSpace(c: char) {
    var n := c as int;
    || 0x09 <= n <= 0x0D || 0x1C <= n <= 0x20 || n == 0x85 || n == 0xA0 || n == 0x1680
    || 0x2000 <= n <= 0x200A || n == 0x2028 || n == 0x2029 || n == 0x202F || n == 0x205F || n == 0x3000
  }

  function StripLeft(s: string): string {
    if s != "" && IsSpace(s[0]) then StripLeft(s[1..]) else s
  }

  function StripRight(s: string): string {
    if s != "" && IsSpace(s[|s| - 1]) then StripRight(s[..|s| - 1]) else s
  }

  function Normalize(systemPrompt: Option<string>): string {
    StripRight(StripLeft(if systemPrompt.Some? then systemPrompt.value else ""))
  }

  const NO_SYSTEM := "no-system"

  function HashSystemPrompt(sha: Sha, systemPrompt: Option<string>): string {
    var normalized := Normalize(systemPrompt);
    if normalized == "" then NO_SYSTEM else Prefix(sha(normalized), 16)
  }

  function Digit(d: Decimal.Digit): char { ('0' as int + d) as char }

  function DigitString(ds: seq<Decimal.Digit>): (s: string)
    ensures |s| == |ds|
  {
    seq(|ds|, i requires 0 <= i < |ds| => Digit(ds[i]))
  }

  function IntString(i: int): string {
    if i < 0 then "-" + DigitString(Decimal.Digits(-i)) else DigitString(Decimal.Digits(i))
  }

  /** A temperature rounded to tenths. The sign survives rounding to zero:
      -0.04 prints as "-0.0". */
  datatype Bucket = Bucket(negative: bool, tenths: nat)

  function TemperatureBucket(t: real): Bucket {
    var n := Rounding.RoundHalfEven(t * 10.0);
    Bucket(t < 0.0, if n < 0 then -n else n)
  }

  function BucketString(b: Bucket): string {
    (if b.negative then "-" else "") + DigitString(Decimal.Digits(b.tenths / 10)) + "." + [Digit(b.tenths % 10)]
  }

  function MaxTokensString(m: Option<int>): string {
    if m.Some? then IntString(m.value) else "default"
  }

  // ----- the signature -----

  datatype Signature = Signature(
    model: string,
    provider: string,
    systemPrompt: Option<string>,
    temperature: real,
    maxTokens: Option<int>,
    tenant: string)

  function Raw(sha: Sha, s: Signature): string {
    s.tenant + "|" + s.provider + "|" + s.model + "|" + HashSystemPrompt(sha, s.systemPrompt)
    + "|" + BucketString(TemperatureBucket(s.temperature)) + "|" + MaxTokensString(s.maxTokens)
  }

  function NamespaceOf(sha: Sha, s: Signature): string {
    s.tenant + ":" + s.provider + ":" + s.model + ":" + Prefix(sha(Raw(sha, s)), 20)
  }

  /** Agreement on the six dimensions that scope an entry. */
  ghost predicate SameScope(sha: Sha, a: Signature, b: Signature) {
    && a.tenant == b.tenant && a.provider == b.provider && a.model == b.model
    && HashSystemPrompt(sha, a.systemPrompt) == HashSystemPrompt(sha, b.systemPrompt)
    && TemperatureBucket(a.temperature) == TemperatureBucket(b.temperature)
    && a.maxTokens == b.maxTokens
  }

  // ----- printing is injective and free of the separator -----

  lemma DigitStringInjective(xs: seq<Decimal.Digit>, ys: seq<Decimal.Digit>)
    requires DigitString(xs) == DigitString(ys)
    ensures xs == ys
  {
    forall i | 0 <= i < |xs|
      ensures xs[i] == ys[i]
    {
      assert DigitString(xs)[i] == DigitString(ys)[i];
    }
  }

  lemma DigitStringDigits(ds: seq<Decimal.Digit>)
    ensures forall c <- DigitString(ds) :: '0' <= c <= '9'
  {
  }

  lemma IntStringInjective(i: int, j: int)
    requires IntString(i) == IntString(j)
    ensures i == j
  {
    var ds, es := Decimal.Digits(if i < 0 then -i else i), Decimal.Digits(if j < 0 then -j else j);
    assert DigitString(ds)[0] in DigitString(ds) && DigitString(es)[0] in DigitString(es);
    DigitStringDigits(ds);
    DigitStringDigits(es);
    assert i < 0 ==> IntString(i)[1..] == DigitString(ds);
    assert j < 0 ==> IntString(j)[1..] == DigitString(es);
    DigitStringInjective(ds, es);
    Decimal.DigitsInjective(if i < 0 then -i else i, if j < 0 then -j else j);
  }

  lemma IntStringIsNotDefault(i: int)
    ensures IntString(i) != "default"
  {
    var s := DigitString(Decimal.Digits(if i < 0 then -i else i));
    DigitStringDigits(Decimal.Digits(if i < 0 then -i else i));
    assert s[0] in s;
    assert IntString(i)[0] != "default"[0];
  }

  lemma MaxTokensStringInjective(a: Option<int>, b: Option<int>)
    requires MaxTokensString(a) == MaxTokensString(b)
    ensures a == b
  {
    if a.Some? {
      IntStringIsNotDefault(a.value);
    }
    if b.Some? {
      IntStringIsNotDefault(b.value);
    }
    if a.Some? && b.Some? {
      IntStringInjective(a.value, b.value);
    }
  }

  lemma BucketStringInjective(a: Bucket, b: Bucket)
    requires BucketString(a) == BucketString(b)
    ensures a == b
  {
    BucketParts(a);
    BucketParts(b);
    DigitStringInjective(Decimal.Digits(a.tenths / 10), Decimal.Digits(b.tenths / 10));
    Decimal.DigitsInjective(a.tenths / 10, b.tenths / 10);
  }

  /** Sign, whole part and tenth digit, read back from the text. */
  lemma BucketParts(b: Bucket)
    ensures var s := BucketString(b);
            && |s| >= 3
            && (s[0] == '-' <==> b.negative)
            && s[(if s[0] == '-' then 1 else 0)..|s| - 2] == DigitString(Decimal.Digits(b.tenths / 10))
            && s[|s| - 2] == '.' && s[|s| - 1] == Digit(b.tenths % 10)
  {
  }

  lemma TailFieldsHaveNoBar(sha: Sha, s: Signature)
    requires HexDigest(sha)
    ensures '|' !in HashSystemPrompt(sha, s.systemPrompt)
    ensures '|' !in BucketString(TemperatureBucket(s.temperature))
    ensures '|' !in MaxTokensString(s.maxTokens)
  {
    var b := TemperatureBucket(s.temperature);
    DigitStringDigits(Decimal.Digits(b.tenths / 10));
    if s.maxTokens.Some? {
      var i := s.maxTokens.value;
      DigitStringDigits(Decimal.Digits(if i < 0 then -i else i));
    }
    var n := Normalize(s.systemPrompt);
    assert forall c <- sha(n)[..16] :: c in sha(n);
  }

  // ----- what the dimensions are -----

  /** The white space of `str.strip()`, listed. */
  const WHITE_SPACE: seq<int> := [
    0x09, 0x0A, 0x0B, 0x0C, 0x0D, 0x1C, 0x1D, 0x1E, 0x1F, 0x20, 0x85, 0xA0, 0x1680,
    0x2000, 0x2001, 0x2002, 0x2003, 0x2004, 0x2005, 0x2006, 0x2007, 0x2008, 0x2009, 0x200A,
    0x2028, 0x2029, 0x202F, 0x205F, 0x3000]

  lemma SpaceIsListed(c: char)
    ensures IsSpace(c) <==> c as int in WHITE_SPACE
  {
  }

  /** `s[k..m]` is `s` without the white space at its ends. */
  ghost predicate Trimmed(s: string, k: nat, m: nat) {
    && k <= m <= |s|
    && (forall i | 0 <= i < k :: IsSpace(s[i])) && (forall i | m <= i < |s| :: IsSpace(s[i]))
    && (k < m ==> !IsSpace(s[k]) && !IsSpace(s[m - 1]))
  }

  lemma {:induction false} StripLeftFrom(s: string) returns (k: nat)
    ensures k <= |s| && StripLeft(s) == s[k..] && (forall i | 0 <= i < k :: IsSpace(s[i]))
    ensures k < |s| ==> !IsSpace(s[k])
  {
    if s != "" && IsSpace(s[0]) {
      var rest := StripLeftFrom(s[1..]);
      k := rest + 1;
      assert s[k..] == s[1..][rest..];
      assert forall i | 1 <= i < |s| :: s[i] == s[1..][i - 1];
    } else {
      k := 0;
      assert s[0..] == s;
    }
  }

  lemma {:induction false} StripRightTo(s: string) returns (m: nat)
    ensures m <= |s| && StripRight(s) == s[..m] && (forall i | m <= i < |s| :: IsSpace(s[i]))
    ensures m > 0 ==> !IsSpace(s[m - 1])
  {
    if s != "" && IsSpace(s[|s| - 1]) {
      m := StripRightTo(s[..|s| - 1]);
      assert s[..|s| - 1][..m] == s[..m];
    } else {
      m := |s|;
      assert s[..|s|] == s;
    }
  }

  /** A prompt is normalized by taking white space off both ends and nothing
      else; an absent prompt is empty. */
  lemma {:induction false} NormalizeTrims(p: string)
    ensures exists k: nat, m: nat :: Trimmed(p, k, m) && Normalize(Some(p)) == p[k..m]
    ensures Normalize(None) == ""
  {
    var k := StripLeftFrom(p);
    var l := StripLeft(p);
    var n := StripRightTo(l);
    assert l[..n] == p[k..k + n];
    forall i | k <= i < |p|
      ensures p[i] == l[i - k]
    {
    }
    assert Trimmed(p, k, k + n);
  }

  /** The hash is the sentinel for a blank prompt, and for any other the first
      16 hexadecimal digits of the digest of its stripped text. */
  lemma SystemHashIs(sha: Sha, p: Option<string>)
    requires HexDigest(sha)
    ensures var h, n := HashSystemPrompt(sha, p), Normalize(p);
            && (h == "no-system" <==> n == "")
            && (n != "" ==> |h| == 16 && h == sha(n)[..16])
  {
    if Normalize(p) != "" {
      assert '-' !in sha(Normalize(p));
      assert "no-system"[2] == '-';
    }
  }

  /** The bucket is the nearest tenth, with the sign of the temperature. */
  lemma BucketIsNearest(t: real)
    ensures var b := TemperatureBucket(t);
            var tenth := (if b.negative then 0 - b.tenths else b.tenths) as real / 10.0;
            -0.05 <= t - tenth <= 0.05 && (b.negative <==> t < 0.0)
  {
  }

  /** How temperatures and limits print. */
  lemma PrintedExamples()
    ensures BucketString(TemperatureBucket(1.0)) == "1.0" && BucketString(TemperatureBucket(0.7)) == "0.7"
    ensures BucketString(TemperatureBucket(0.25)) == "0.2" && BucketString(TemperatureBucket(-0.04)) == "-0.0"
    ensures BucketString(TemperatureBucket(12.34)) == "12.3"
    ensures MaxTokensString(Some(120)) == "120" && MaxTokensString(Some(-7)) == "-7" && MaxTokensString(None) == "default"
  {
    assert Decimal.Digits(12) == [1, 2] && Decimal.Digits(120) == [1, 2, 0];
  }

  /** The namespace is readable: tenant, provider and model, then 20 hexadecimal
      digits, joined by colons. */
  lemma NamespaceReads(sha: Sha, s: Signature)
    requires HexDigest(sha)
    ensures var ns := NamespaceOf(sha, s);
            var head := s.tenant + ":" + s.provider + ":" + s.model + ":";
            |ns| == |head| + 20 && head <= ns && forall c <- ns[|head|..] :: IsHexDigit(c)
    ensures s.tenant + "|" + s.provider + "|" + s.model + "|" <= Raw(sha, s)
  {
    var digest := sha(Raw(sha, s));
    assert NamespaceOf(sha, s)[|NamespaceOf(sha, s)| - 20..] == digest[..20];
    assert forall c <- digest[..20] :: c in digest;
  }

  // ----- splitting joined strings -----

  /** A field free of the separator can be split off the end. */
  lemma SplitLast(x: string, p: string, y: string, q: string)
    requires x + "|" + p == y + "|" + q
    requires '|' !in p && '|' !in q
    ensures x == y && p == q
  {
    var s := x + "|" + p;
    assert s[|x|] == '|' && s[|y|] == '|';
    assert s[..|x|] == x && s[..|y|] == y;
    assert s[|x| + 1..] == p && s[|y| + 1..] == q;
  }

  /** Two strings joined with `:` in one text and with `|` in another fix where
      the first ends, whatever characters it holds: only there do the two texts
      differ. */
  lemma SplitFirst(x: string, u: string, v: string, y: string, w: string, z: string)
    requires x + ":" + u == y + ":" + w
    requires x + "|" + v == y + "|" + z
    ensures x == y && u == w && v == z
  {
    var s, t := x + ":" + u, x + "|" + v;
    assert s[|x|] == ':' && t[|x|] == '|' && s[|y|] == ':' && t[|y|] == '|';
    assert s[..|x|] == x && s[..|y|] == y;
    assert s[|x| + 1..] == u && s[|y| + 1..] == w;
    assert t[|x| + 1..] == v && t[|y| + 1..] == z;
  }

  lemma SplitThree(x: string, y: string, z: string, x': string, y': string, z': string)
    requires x + ":" + y + ":" + z == x' + ":" + y' + ":" + z'
    requires x + "|" + y + "|" + z == x' + "|" + y' + "|" + z'
    ensures x == x' && y == y' && z == z'
  {
    Regroup(x, ":", y, z);
    Regroup(x', ":", y', z');
    Regroup(x, "|", y, z);
    Regroup(x', "|", y', z');
    SplitFirst(x, y + ":" + z, y + "|" + z, x', y' + ":" + z', y' + "|" + z');
    SplitFirst(y, z, z, y', z', z');
  }

  lemma Regroup(x: string, sep: string, y: string, z: string)
    ensures x + sep + y + sep + z == x + sep + (y + sep + z)
  {
  }

  lemma RawDeterminesTail(sha: Sha, a: Signature, b: Signature)
    requires HexDigest(sha) && Raw(sha, a) == Raw(sha, b)
    ensures a.tenant + "|" + a.provider + "|" + a.model == b.tenant + "|" + b.provider + "|" + b.model
    ensures HashSystemPrompt(sha, a.systemPrompt) == HashSystemPrompt(sha, b.systemPrompt)
    ensures TemperatureBucket(a.temperature) == TemperatureBucket(b.temperature)
    ensures a.maxTokens == b.maxTokens
  {
    TailFieldsHaveNoBar(sha, a);
    TailFieldsHaveNoBar(sha, b);
    var ha, hb := HashSystemPrompt(sha, a.systemPrompt), HashSystemPrompt(sha, b.systemPrompt);
    var ta, tb := BucketString(TemperatureBucket(a.temperature)), BucketString(TemperatureBucket(b.temperature));
    var pa := a.tenant + "|" + a.provider + "|" + a.model;
    var pb := b.tenant + "|" + b.provider + "|" + b.model;
    SplitLast(pa + "|" + ha + "|" + ta, MaxTokensString(a.maxTokens), pb + "|" + hb + "|" + tb, MaxTokensString(b.maxTokens));
    SplitLast(pa + "|" + ha, ta, pb + "|" + hb, tb);
    SplitLast(pa, ha, pb, hb);
    BucketStringInjective(TemperatureBucket(a.temperature), TemperatureBucket(b.temperature));
    MaxTokensStringInjective(a.maxTokens, b.maxTokens);
  }

  lemma NamespaceParts(sha: Sha, a: Signature, b: Signature)
    requires HexDigest(sha) && NamespaceOf(sha, a) == NamespaceOf(sha, b)
    ensures a.tenant + ":" + a.provider + ":" + a.model == b.tenant + ":" + b.provider + ":" + b.model
    ensures Prefix(sha(Raw(sha, a)), 20) == Prefix(sha(Raw(sha, b)), 20)
  {
    var s, t := NamespaceOf(sha, a), NamespaceOf(sha, b);
    var pa := a.tenant + ":" + a.provider + ":" + a.model;
    var pb := b.tenant + ":" + b.provider + ":" + b.model;
    assert s[..|s| - 21] == pa && t[..|t| - 21] == pb;
    assert s[|s| - 20..] == Prefix(sha(Raw(sha, a)), 20) && t[|t| - 20..] == Prefix(sha(Raw(sha, b)), 20);
  }

  /** Namespaces coincide exactly for signatures that agree on all six
      dimensions, for arbitrary tenant, provider and model strings, as long as
      the digests of these two signatures do not collide. */
  lemma NamespaceScopes(sha: Sha, a: Signature, b: Signature)
    requires HexDigest(sha) && NoCollision(sha, 20, Raw(sha, a), Raw(sha, b))
    ensures NamespaceOf(sha, a) == NamespaceOf(sha, b) <==> SameScope(sha, a, b)
  {
    if NamespaceOf(sha, a) == NamespaceOf(sha, b) {
      NamespaceParts(sha, a, b);
      RawDeterminesTail(sha, a, b);
      SplitThree(a.tenant, a.provider, a.model, b.tenant, b.provider, b.model);
    }
  }

  /** Equal system-prompt hashes come from equal stripped prompts: the sentinel
      is not a hash, and the two prompts do not collide. */
  lemma SystemHashIdentifiesPrompt(sha: Sha, p: Option<string>, q: Option<string>)
    requires HexDigest(sha) && NoCollision(sha, 16, Normalize(p), Normalize(q))
    ensures HashSystemPrompt(sha, p) == HashSystemPrompt(sha, q) <==> Normalize(p) == Normalize(q)
  {
  }

  /** Temperatures that share a bucket are at most a tenth apart. */
  lemma SharedBucketIsClose(s: real, t: real)
    requires TemperatureBucket(s) == TemperatureBucket(t)
    ensures -0.1 <= s - t <= 0.1
  {
  }
}
