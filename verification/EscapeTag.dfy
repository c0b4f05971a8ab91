/** `_escape_tag`: eight whole-string replacements, one per special character. */
module EscapeTag {

  const SPECIALS := "-.@{}|/ "

  /** `value.replace(c, "\\" + c)`. */
  function Replace(s: string, c: char): string {
    if s == "" then "" else (if s[0] == c then ['\\', c] else [s[0]]) + Replace(s[1..], c)
  }

  /** One pass that escapes each character of `chars`. */
  function EscapeOnce(s: string, chars: string): string {
    if s == "" then "" else (if s[0] in chars then ['\\', s[0]] else [s[0]]) + EscapeOnce(s[1..], chars)
  }

  method EscapeTag(value: string) returns (out: string)
    ensures out == EscapeOnce(value, SPECIALS)
  {
    out := value;
    NothingToEscape(value);
    for i := 0 to |SPECIALS|
      invariant out == EscapeOnce(value, SPECIALS[..i])
    {
      assert SPECIALS[..i + 1] == SPECIALS[..i] + [SPECIALS[i]];
      SpecialsDistinct(i);
      ReplaceAfterPass(value, SPECIALS[..i], SPECIALS[i]);
      out := Replace(out, SPECIALS[i]);
    }
    assert SPECIALS[..|SPECIALS|] == SPECIALS;
  }

  lemma SpecialsDistinct(i: nat)
    requires i < |SPECIALS|
    ensures SPECIALS[i] !in SPECIALS[..i] && SPECIALS[i] != '\\'
  {
  }

  lemma {:induction false} NothingToEscape(s: string)
    ensures EscapeOnce(s, "") == s
  {
    if s != "" {
      NothingToEscape(s[1..]);
      assert [s[0]] + s[1..] == s;
    }
  }

  lemma {:induction false} ReplaceConcat(s: string, t: string, c: char)
    ensures Replace(s + t, c) == Replace(s, c) + Replace(t, c)
  {
    if s == "" {
      assert s + t == t;
    } else {
      assert (s + t)[1..] == s[1..] + t;
      ReplaceConcat(s[1..], t, c);
    }
  }

  lemma ReplaceOne(a: char, c: char)
    ensures Replace([a], c) == if a == c then ['\\', c] else [a]
  {
  }

  lemma ReplacePair(a: char, b: char, c: char)
    requires a != c && b != c
    ensures Replace([a, b], c) == [a, b]
  {
    assert [a, b][1..] == [b];
    ReplaceOne(b, c);
  }

  /** Replacing one more character after a pass is the pass over one more
      character: the backslashes added before are not replaced again, and the
      characters escaped before are others. */
  lemma {:induction false} ReplaceAfterPass(s: string, chars: string, c: char)
    requires c !in chars && c != '\\'
    ensures Replace(EscapeOnce(s, chars), c) == EscapeOnce(s, chars + [c])
  {
    if s != "" {
      var head := if s[0] in chars then ['\\', s[0]] else [s[0]];
      ReplaceConcat(head, EscapeOnce(s[1..], chars), c);
      ReplaceAfterPass(s[1..], chars, c);
      if s[0] in chars {
        ReplacePair('\\', s[0], c);
      } else {
        ReplaceOne(s[0], c);
      }
    }
  }

  function ReplaceAll(s: string, order: string): string {
    if order == "" then s else Replace(ReplaceAll(s, order[..|order| - 1]), order[|order| - 1])
  }

  ghost predicate DistinctChars(order: string) { forall i, j | 0 <= i < j < |order| :: order[i] != order[j] }

  /** Successive replacements amount to one escaping pass, as long as no
      character repeats and the backslash is not among them. */
  lemma {:induction false} ReplacementsArePass(s: string, order: string)
    requires DistinctChars(order) && '\\' !in order
    ensures ReplaceAll(s, order) == EscapeOnce(s, order)
  {
    if order == "" {
      NothingToEscape(s);
    } else {
      var k := |order| - 1;
      ReplacementsArePass(s, order[..k]);
      assert order[k] !in order[..k];
      ReplaceAfterPass(s, order[..k], order[k]);
      assert order[..k] + [order[k]] == order;
    }
  }

  lemma {:induction false} PassDependsOnMembers(s: string, xs: string, ys: string)
    requires forall c :: c in xs <==> c in ys
    ensures EscapeOnce(s, xs) == EscapeOnce(s, ys)
  {
    if s != "" {
      PassDependsOnMembers(s[1..], xs, ys);
    }
  }

  /** Two orders of the same characters give the same text: distinct characters,
      the backslash not among them. */
  lemma {:induction false} OrderIsIrrelevant(s: string, xs: string, ys: string)
    requires DistinctChars(xs) && DistinctChars(ys) && '\\' !in xs
    requires forall c :: c in xs <==> c in ys
    ensures ReplaceAll(s, xs) == ReplaceAll(s, ys)
  {
    ReplacementsArePass(s, xs);
    ReplacementsArePass(s, ys);
    PassDependsOnMembers(s, xs, ys);
  }

  /** So every order of the special characters escapes a tag alike. */
  lemma {:induction false} AnyOrderEscapes(value: string, order: string)
    requires DistinctChars(order) && forall c :: c in order <==> c in SPECIALS
    ensures ReplaceAll(value, order) == EscapeOnce(value, SPECIALS)
  {
    assert '\\' !in SPECIALS;
    ReplacementsArePass(value, order);
    PassDependsOnMembers(value, order, SPECIALS);
  }

  /** Dropping the character before each special one. */
  function Unescape(s: string): string {
    if s == "" then ""
    else if |s| >= 2 && s[1] in SPECIALS then [s[1]] + Unescape(s[2..])
    else [s[0]] + Unescape(s[1..])
  }

  lemma EscapedStart(s: string)
    ensures var e := EscapeOnce(s, SPECIALS); e != "" ==> e[0] !in SPECIALS
  {
  }

  lemma {:induction false} UnescapeInverts(s: string)
    ensures Unescape(EscapeOnce(s, SPECIALS)) == s
  {
    if s != "" {
      var rest := EscapeOnce(s[1..], SPECIALS);
      UnescapeInverts(s[1..]);
      EscapedStart(s[1..]);
      if s[0] in SPECIALS {
        assert (['\\', s[0]] + rest)[2..] == rest;
      } else {
        assert ([s[0]] + rest)[1..] == rest;
        assert |rest| > 0 ==> ([s[0]] + rest)[1] == rest[0];
      }
      assert [s[0]] + s[1..] == s;
    }
  }

  /** Different tags stay different, backslashes in them included. */
  lemma EscapeInjective(s: string, t: string)
    requires EscapeOnce(s, SPECIALS) == EscapeOnce(t, SPECIALS)
    ensures s == t
  {
    UnescapeInverts(s);
    UnescapeInverts(t);
  }

  /** The special characters, one by one. */
  lemma SpecialsListed(c: char)
    ensures c in SPECIALS <==> c == '-' || c == '.' || c == '@' || c == '{' || c == '}' || c == '|' || c == '/' || c == ' '
  {
  }

  /** In an escaped tag each special character stands behind a backslash. */
  lemma {:induction false} SpecialsAreGuarded(s: string, i: nat)
    requires i < |EscapeOnce(s, SPECIALS)| && EscapeOnce(s, SPECIALS)[i] in "-.@{}|/ "
    ensures i > 0 && EscapeOnce(s, SPECIALS)[i - 1] == '\\'
  {
    var e, w := EscapeOnce(s, SPECIALS), if s[0] in SPECIALS then 2 else 1;
    assert e[w..] == EscapeOnce(s[1..], SPECIALS);
    if i >= w {
      SpecialsAreGuarded(s[1..], i - w);
    }
  }
}
