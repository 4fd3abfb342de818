/**
 * The string operations the source relies on: JavaScript's `String.prototype.trim`,
 * `String.prototype.toLowerCase` (restricted to ASCII letters) and the first field of
 * `String.prototype.split('-')`.
 */
module Text {

  /** The characters `trim` removes: WhiteSpace and LineTerminator of ECMA-262 (section 12.2 and 12.3). */
  predicate IsWhitespace(c: char) {
    || c == '\t' || c == '\n' || c == '\U{000B}' || c == '\U{000C}' || c == '\r' || c == ' '
    || c == '\U{00A0}' || c == '\U{1680}' || ('\U{2000}' <= c <= '\U{200A}')
    || c == '\U{2028}' || c == '\U{2029}' || c == '\U{202F}' || c == '\U{205F}'
    || c == '\U{3000}' || c == '\U{FEFF}'
  }

  /** Every character of `s` is whitespace; in JavaScript, `!s.trim()` holds exactly for these strings. */
  predicate Blank(s: string) {
    forall i | 0 <= i < |s| :: IsWhitespace(s[i])
  }

  /** Drops the leading whitespace: the result is a suffix of `s` and the dropped part is blank. */
  function TrimStart(s: string): (r: string)
    ensures |r| <= |s| && r == s[|s| - |r|..]
    ensures Blank(s[..|s| - |r|])
    ensures r != [] ==> !IsWhitespace(r[0])
  {
    if s != [] && IsWhitespace(s[0]) then TrimStart(s[1..]) else s
  }

  /** Drops the trailing whitespace: the result is a prefix of `s` and the dropped part is blank. */
  function TrimEnd(s: string): (r: string)
    ensures |r| <= |s| && r == s[..|r|]
    ensures Blank(s[|r|..])
    ensures r != [] ==> !IsWhitespace(r[|r| - 1])
  {
    if s != [] && IsWhitespace(s[|s| - 1]) then TrimEnd(s[..|s| - 1]) else s
  }

  /** `s.trim()`: `s` without its leading and trailing whitespace. */
  function Trim(s: string): (r: string)
    ensures |r| <= |s|
    ensures r == [] <==> Blank(s)
    ensures r != [] ==> !IsWhitespace(r[0]) && !IsWhitespace(r[|r| - 1])
  {
    var t := TrimStart(s);
    var r := TrimEnd(t);
    var k := |s| - |t|;
    assert r == [] ==> Blank(s) by {
      if r == [] {
        assert t == t[|r|..];
        assert s == s[..k] + t;
      }
    }
    r
  }

  /** Removing blank padding around a string with non-blank ends gives back that string. */
  lemma {:induction false} TrimPadded(pre: string, core: string, post: string)
    requires Blank(pre) && Blank(post)
    requires core != [] && !IsWhitespace(core[0]) && !IsWhitespace(core[|core| - 1])
    ensures Trim(pre + core + post) == core
  {
    assert pre + core + post == pre + (core + post);
    TrimStartPadded(pre, core + post);
    TrimEndPadded(core, post);
    assert TrimStart(pre + core + post) == core + post;
    assert TrimEnd(core + post) == core;
  }

  lemma {:induction false} TrimStartPadded(pre: string, rest: string)
    requires Blank(pre)
    requires rest != [] && !IsWhitespace(rest[0])
    ensures TrimStart(pre + rest) == rest
  {
    if pre != [] {
      assert (pre + rest)[1..] == pre[1..] + rest;
      TrimStartPadded(pre[1..], rest);
    } else {
      assert pre + rest == rest;
    }
  }

  lemma {:induction false} TrimEndPadded(rest: string, post: string)
    requires Blank(post)
    requires rest != [] && !IsWhitespace(rest[|rest| - 1])
    ensures TrimEnd(rest + post) == rest
  {
    if post != [] {
      assert (rest + post)[..|rest + post| - 1] == rest + post[..|post| - 1];
      TrimEndPadded(rest, post[..|post| - 1]);
    } else {
      assert rest + post == rest;
    }
  }

  /** The trimmed string is the middle of the input: what lies before it and after it is blank. */
  lemma TrimIsMiddle(s: string) returns (k: nat)
    ensures k + |Trim(s)| <= |s| && Trim(s) == s[k..k + |Trim(s)|]
    ensures Blank(s[..k]) && Blank(s[k + |Trim(s)|..])
  {
    k := SuffixOfPrefix(s, TrimStart(s), Trim(s));
  }

  /** A prefix `r` of a suffix `t` of `s` is a slice of `s`, and blank edges stay blank. */
  lemma SuffixOfPrefix(s: string, t: string, r: string) returns (k: nat)
    requires |t| <= |s| && t == s[|s| - |t|..] && Blank(s[..|s| - |t|])
    requires |r| <= |t| && r == t[..|r|] && Blank(t[|r|..])
    ensures k == |s| - |t| && k + |r| <= |s| && r == s[k..k + |r|]
    ensures Blank(s[..k]) && Blank(s[k + |r|..])
  {
    k := |s| - |t|;
    assert s[k + |r|..] == t[|r|..];
  }

  /** ASCII `toLowerCase` of one character. */
  function LowerChar(c: char): char {
    if 'A' <= c <= 'Z' then (c as int + 32) as char else c
  }

  /** `s.toLowerCase()` on ASCII letters: the string of the lowered characters, position by position. */
  function Lower(s: string): (r: string)
    ensures |r| == |s|
    ensures forall i :: 0 <= i < |s| ==> r[i] == LowerChar(s[i])
    ensures forall i :: 0 <= i < |r| ==> !('A' <= r[i] <= 'Z')
  {
    if s == [] then [] else [LowerChar(s[0])] + Lower(s[1..])
  }

  /** Two strings that differ only in the case of ASCII letters lower to the same string. */
  lemma LowerIgnoresCase(a: string, b: string)
    requires |a| == |b|
    requires forall i :: 0 <= i < |a| ==>
               || a[i] == b[i]
               || ('A' <= a[i] <= 'Z' && b[i] == (a[i] as int + 32) as char)
               || ('A' <= b[i] <= 'Z' && a[i] == (b[i] as int + 32) as char)
    ensures Lower(a) == Lower(b)
  {
    assert forall i :: 0 <= i < |a| ==> Lower(a)[i] == Lower(b)[i];
  }

  /** `s.split(sep)[0]`: the part of `s` before the first `sep`, or all of `s` when there is none. */
  function FirstField(s: string, sep: char): (r: string)
    ensures |r| <= |s| && r == s[..|r|]
    ensures sep !in r
    ensures |r| < |s| ==> s[|r|] == sep
  {
    if s == [] || s[0] == sep then [] else [s[0]] + FirstField(s[1..], sep)
  }
}
