/** The Python `str` operations the configuration parser relies on:
    `strip()`, `startswith`, `endswith`, `split(sep, 1)`, `lower()` and `int()`. */
module Strings {
  import opened Wrappers

  /** `c.isspace()`: the characters Python treats as whitespace. */
  predicate IsSpace(c: char) {
    || c == ' '
    || ('\t' <= c <= '\r')
    || ('\U{1C}' <= c <= '\U{1F}')
    || c == '\U{85}' || c == '\U{A0}' || c == '\U{1680}'
    || ('\U{2000}' <= c <= '\U{200A}')
    || c == '\U{2028}' || c == '\U{2029}' || c == '\U{202F}' || c == '\U{205F}' || c == '\U{3000}'
  }

  /** Neither end of `s` is whitespace. */
  predicate IsStripped(s: string) {
    s == [] || (!IsSpace(s[0]) && !IsSpace(s[|s| - 1]))
  }

  predicate AllSpace(s: string) {
    forall i :: 0 <= i < |s| ==> IsSpace(s[i])
  }

  /** `s.strip()`: `s` without its leading and trailing whitespace. */
  function Strip(s: string): (r: string)
    ensures |r| <= |s| && IsStripped(r)
    decreases |s|
  {
    if s != [] && IsSpace(s[0]) then Strip(s[1..])
    else if s != [] && IsSpace(s[|s| - 1]) then Strip(s[..|s| - 1])
    else s
  }

  /** `r` sits at offset `i` of `s` with only whitespace around it. */
  predicate Surrounds(s: string, r: string, i: nat) {
    && i + |r| <= |s| && r == s[i..i + |r|]
    && AllSpace(s[..i]) && AllSpace(s[i + |r|..])
  }

  lemma SurroundsAfterSpace(s: string, r: string, i: nat)
    requires s != [] && IsSpace(s[0]) && Surrounds(s[1..], r, i)
    ensures Surrounds(s, r, i + 1)
  {
    assert s[..i + 1] == [s[0]] + s[1..][..i];
    assert s[i + 1 + |r|..] == s[1..][i + |r|..];
  }

  lemma SurroundsBeforeSpace(s: string, r: string, i: nat)
    requires s != [] && IsSpace(s[|s| - 1]) && Surrounds(s[..|s| - 1], r, i)
    ensures Surrounds(s, r, i)
  {
    var t := s[..|s| - 1];
    assert t[..i] == s[..i];
    assert s[i + |r|..] == t[i + |r|..] + [s[|s| - 1]];
  }

  /** What Strip removes is whitespace on either side of a slice of `s`. */
  lemma {:induction false} StripSurrounds(s: string)
    ensures exists i: nat :: Surrounds(s, Strip(s), i)
    decreases |s|
  {
    var r := Strip(s);
    if s != [] && IsSpace(s[0]) {
      StripSurrounds(s[1..]);
      var i: nat :| Surrounds(s[1..], r, i);
      SurroundsAfterSpace(s, r, i);
    } else if s != [] && IsSpace(s[|s| - 1]) {
      StripSurrounds(s[..|s| - 1]);
      var i: nat :| Surrounds(s[..|s| - 1], r, i);
      SurroundsBeforeSpace(s, r, i);
    } else {
      assert Surrounds(s, r, 0);
    }
  }

  /** Strip adds no character. */
  lemma StripNoNewChar(s: string, c: char)
    requires c !in s
    ensures c !in Strip(s)
  {
    StripSurrounds(s);
    var i: nat :| Surrounds(s, Strip(s), i);
    assert forall k :: 0 <= k < |Strip(s)| ==> Strip(s)[k] == s[i + k];
  }

  /** Strip removes exactly the surrounding whitespace: text that has no
      whitespace at its ends, padded with whitespace, strips back to itself. */
  lemma {:induction false} StripExact(pre: string, core: string, post: string)
    requires AllSpace(pre) && AllSpace(post) && IsStripped(core)
    ensures Strip(pre + core + post) == core
    decreases |pre| + |post|
  {
    var s := pre + core + post;
    if pre != [] {
      assert s[0] == pre[0];
      assert s[1..] == pre[1..] + core + post;
      StripExact(pre[1..], core, post);
    } else if post != [] {
      assert s[|s| - 1] == post[|post| - 1];
      if core == [] {
        assert s == [] + [] + post;
        assert s[1..] == [] + [] + post[1..];
        StripExact([], [], post[1..]);
      } else {
        assert s[0] == core[0];
        assert s[..|s| - 1] == [] + core + post[..|post| - 1];
        StripExact([], core, post[..|post| - 1]);
      }
    } else {
      assert s == core;
    }
  }

  /** Strip keeps the first non-blank character in front. */
  lemma {:induction false} StripKeepsFirst(pre: string, rest: string)
    requires AllSpace(pre) && rest != [] && !IsSpace(rest[0])
    ensures Strip(pre + rest) != [] && Strip(pre + rest)[0] == rest[0]
    decreases |pre| + |rest|
  {
    var s := pre + rest;
    if pre != [] {
      assert s[1..] == pre[1..] + rest;
      StripKeepsFirst(pre[1..], rest);
    } else if IsSpace(s[|s| - 1]) {
      assert s == rest;
      assert |rest| > 1;
      assert s[..|s| - 1] == [] + rest[..|rest| - 1];
      StripKeepsFirst([], rest[..|rest| - 1]);
    }
  }

  /** `s.startswith(p)` */
  predicate StartsWith(s: string, p: string) {
    |p| <= |s| && s[..|p|] == p
  }

  /** `s.endswith(p)` */
  predicate EndsWith(s: string, p: string) {
    |p| <= |s| && s[|s| - |p|..] == p
  }

  /** `s.index(c)`: the position of the first occurrence of `c`. */
  function IndexOf(s: string, c: char): (i: nat)
    requires c in s
    ensures i < |s| && s[i] == c && c !in s[..i]
  {
    if s[0] == c then 0 else 1 + IndexOf(s[1..], c)
  }

  /** `s.split(sep, 1)` on a string that contains `sep`: the text before the
      first `sep` and everything after it, which may contain `sep` again. */
  function SplitOnce(s: string, sep: char): (parts: (string, string))
    requires sep in s
    ensures parts.0 + [sep] + parts.1 == s
    ensures sep !in parts.0
  {
    var i := IndexOf(s, sep);
    assert s[..i] + [sep] + s[i + 1..] == s;
    (s[..i], s[i + 1..])
  }

  /** The cut `SplitOnce` makes is the only one with no separator on its left. */
  lemma {:induction false} SplitOnceUnique(s: string, sep: char, before: string, after: string)
    requires before + [sep] + after == s
    requires sep !in before
    ensures sep in s && SplitOnce(s, sep) == (before, after)
  {
    assert s[|before|] == sep;
    assert s[..|before|] == before;
    var i := IndexOf(s, sep);
    assert s[i + 1..] == after;
  }

  /** The case mapping of `str.lower()` on one character, for ASCII letters. */
  function LowerChar(c: char): char {
    if 'A' <= c <= 'Z' then (c as int + 32) as char else c
  }

  /** `s.lower()` */
  function Lower(s: string): (r: string)
    ensures |r| == |s|
    ensures forall i :: 0 <= i < |s| ==> r[i] == LowerChar(s[i])
  {
    seq(|s|, i requires 0 <= i < |s| => LowerChar(s[i]))
  }

  /** "true" in any mix of upper and lower case. */
  predicate SpellsTrue(s: string) {
    && |s| == 4
    && (s[0] == 't' || s[0] == 'T') && (s[1] == 'r' || s[1] == 'R')
    && (s[2] == 'u' || s[2] == 'U') && (s[3] == 'e' || s[3] == 'E')
  }

  /** `s.lower() == "true"` holds exactly for the sixteen case variants of "true". */
  lemma LowerIsTrue(s: string)
    ensures Lower(s) == "true" <==> SpellsTrue(s)
  {
    if SpellsTrue(s) {
      var l := Lower(s);
      assert l == [l[0], l[1], l[2], l[3]];
    }
  }

  predicate IsDigit(c: char) {
    '0' <= c <= '9'
  }

  predicate AllDigits(s: string) {
    forall i :: 0 <= i < |s| ==> IsDigit(s[i])
  }

  /** The number a run of decimal digits denotes. */
  function DigitsValue(s: string): nat
    requires AllDigits(s)
  {
    if s == [] then 0 else DigitsValue(s[..|s| - 1]) * 10 + (s[|s| - 1] as int - '0' as int)
  }

  /** Text `int()` accepts here: one or more ASCII digits, optionally after
      a single sign. */
  predicate IsIntText(s: string) {
    || (s != [] && AllDigits(s))
    || (|s| > 1 && (s[0] == '+' || s[0] == '-') && AllDigits(s[1..]))
  }

  /** `int(s)` for base-10 text: an optional sign followed by one or more
      ASCII digits; anything else raises, which is `None` here. */
  function ParseInt(s: string): (r: Option<int>)
    ensures r.Some? ==> s != [] && (IsDigit(s[0]) || s[0] == '+' || s[0] == '-')
    ensures s != [] && AllDigits(s) ==> r == Some(DigitsValue(s))
  {
    if s == [] then None
    else if s[0] == '+' || s[0] == '-' then
      var digits := s[1..];
      if digits != [] && AllDigits(digits) then
        var n: int := DigitsValue(digits);
        Some(if s[0] == '-' then -n else n)
      else None
    else if AllDigits(s) then Some(DigitsValue(s))
    else None
  }

  /** `int()` succeeds exactly on integer text; a `+` sign leaves the value
      of the digits unchanged and a `-` sign negates it. */
  lemma ParseIntExact(s: string)
    ensures ParseInt(s).Some? <==> IsIntText(s)
    ensures |s| > 1 && s[0] == '+' && AllDigits(s[1..]) ==> ParseInt(s) == Some(DigitsValue(s[1..]))
    ensures |s| > 1 && s[0] == '-' && AllDigits(s[1..]) ==> ParseInt(s) == Some(-(DigitsValue(s[1..]) as int))
  {
  }

  function DigitChar(d: nat): (c: char)
    requires d < 10
    ensures IsDigit(c) && c as int - '0' as int == d
  {
    ('0' as int + d) as char
  }

  /** `str(n)` for a non-negative integer. */
  function NatToString(n: nat): (r: string)
    ensures r != [] && AllDigits(r)
  {
    if n < 10 then [DigitChar(n)] else NatToString(n / 10) + [DigitChar(n % 10)]
  }

  /** `str(n)` */
  function IntToString(n: int): (r: string)
    ensures r != []
  {
    if n < 0 then "-" + NatToString(-n) else NatToString(n)
  }

  lemma {:induction false} NatToStringValue(n: nat)
    ensures DigitsValue(NatToString(n)) == n
  {
    if n >= 10 {
      var s := NatToString(n);
      assert s[..|s| - 1] == NatToString(n / 10);
      NatToStringValue(n / 10);
    }
  }

  /** `int(str(n)) == n`: every integer written out reads back unchanged. */
  lemma IntRoundTrip(n: int)
    ensures ParseInt(IntToString(n)) == Some(n)
  {
    if n < 0 {
      NatToStringValue(-n);
      assert IntToString(n)[1..] == NatToString(-n);
    } else {
      NatToStringValue(n);
    }
  }
}
