/**
 * Character classes and small string utilities that the source takes from
 * the host's string library (`FChar::IsWhitespace`, `TChar::IsAlpha`,
 * `FString::TrimStartAndEnd`, case-insensitive search).  Only ASCII is
 * classified; see README for what that leaves out.
 */
module Chars {

  /** `FChar::IsWhitespace` on ASCII: space, tab, line feed, vertical tab, form feed, carriage return. */
  predicate IsWhitespace(c: char) {
    c == ' ' || c == '\t' || c == '\n' || c == '\U{000B}' || c == '\U{000C}' || c == '\r'
  }

  /**
   * The regex class `\s` of the host's ICU engine: tab, line feed, form
   * feed, carriage return and the separators of Unicode category Z.  Unlike
   * `IsWhitespace` it leaves out the vertical tab and takes in the no-break
   * and typographic spaces.
   */
  predicate IsRegexSpace(c: char) {
    || c == '\t' || c == '\n' || c == '\U{000C}' || c == '\r'
    || c == ' ' || c == '\U{00A0}' || c == '\U{1680}'
    || ('\U{2000}' <= c <= '\U{200A}')
    || c == '\U{2028}' || c == '\U{2029}' || c == '\U{202F}' || c == '\U{205F}' || c == '\U{3000}'
  }

  predicate IsLetter(c: char) {
    ('a' <= c <= 'z') || ('A' <= c <= 'Z')
  }

  predicate IsDigit(c: char) {
    '0' <= c <= '9'
  }

  predicate AllWhitespace(s: string) {
    forall i :: 0 <= i < |s| ==> IsWhitespace(s[i])
  }

  /** `FString::TrimEnd`: drop trailing whitespace. */
  function TrimEnd(s: string): (r: string)
    ensures |r| <= |s| && r == s[..|r|]
    ensures AllWhitespace(s[|r|..])
    ensures r == [] || !IsWhitespace(r[|r| - 1])
  {
    if s == [] then s
    else if IsWhitespace(s[|s| - 1]) then
      var r := TrimEnd(s[..|s| - 1]);
      assert s[..|s| - 1][..|r|] == s[..|r|];
      assert s[|r|..] == s[..|s| - 1][|r|..] + [s[|s| - 1]];
      r
    else s
  }

  /** `FString::TrimStart`: drop leading whitespace. */
  function TrimStart(s: string): (r: string)
    ensures |r| <= |s| && r == s[|s| - |r|..]
    ensures AllWhitespace(s[..|s| - |r|])
    ensures r == [] || !IsWhitespace(r[0])
  {
    if s == [] then s
    else if IsWhitespace(s[0]) then
      var t := s[1..];
      var r := TrimStart(t);
      assert t[|t| - |r|..] == s[|s| - |r|..];
      assert s[..|s| - |r|] == [s[0]] + t[..|t| - |r|];
      WhitespaceCons(s[0], t[..|t| - |r|]);
      r
    else s
  }

  lemma WhitespaceCons(c: char, t: string)
    requires IsWhitespace(c) && AllWhitespace(t)
    ensures AllWhitespace([c] + t)
  {
  }

  function TrimStartAndEnd(s: string): string {
    TrimStart(TrimEnd(s))
  }

  /** A token is blank, in the sense of `TrimEnd().IsEmpty()`, exactly when every character is whitespace. */
  lemma TrimEndEmptyIffBlank(s: string)
    ensures TrimEnd(s) == [] <==> AllWhitespace(s)
  {
    if TrimEnd(s) != [] {
      var r := TrimEnd(s);
      assert s[|r| - 1] == r[|r| - 1];
    }
  }

  function ToLower(c: char): char {
    if 'A' <= c <= 'Z' then (c as int + 32) as char else c
  }

  function Lower(s: string): (r: string)
    ensures |r| == |s|
    ensures forall i :: 0 <= i < |s| ==> r[i] == ToLower(s[i])
  {
    if s == [] then [] else [ToLower(s[0])] + Lower(s[1..])
  }

  predicate StartsWith(s: string, p: string) {
    |p| <= |s| && s[..|p|] == p
  }

  predicate EndsWith(s: string, p: string) {
    |p| <= |s| && s[|s| - |p|..] == p
  }

  /** A suffix of a suffix is a suffix. */
  lemma EndsWithTrans(a: string, b: string, c: string)
    requires EndsWith(a, b) && EndsWith(b, c)
    ensures EndsWith(a, c)
  {
    assert a[|a| - |c|..] == a[|a| - |b|..][|b| - |c|..];
  }

  /** `FString`'s `==`, which ignores case, with ASCII case folding. */
  predicate EqualsIgnoreCase(a: string, b: string) {
    Lower(a) == Lower(b)
  }

  /** `FString::Contains(P, ESearchCase::IgnoreCase)`, with ASCII case folding. */
  predicate ContainsIgnoreCase(s: string, p: string) {
    exists i :: 0 <= i <= |s| - |p| && MatchesAtIgnoreCase(s, p, i)
  }

  predicate MatchesAtIgnoreCase(s: string, p: string, i: int)
    requires 0 <= i <= |s| - |p|
  {
    Lower(s[i..i + |p|]) == Lower(p)
  }

  /** Every string contains the empty string. */
  lemma ContainsEmpty(s: string)
    ensures ContainsIgnoreCase(s, "")
  {
    assert MatchesAtIgnoreCase(s, "", 0);
  }
}
