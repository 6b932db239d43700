/** Character classes and the small string scanners every log grammar is built from. */
module Chars {
  import opened Wrappers

  /** Python's `str.isspace()`: the set used by `str.strip()`, `str.split()` and `\s` in a str pattern. */
  predicate IsSpace(c: char) { c in Whitespace }

  const Whitespace: set<char> := {' ', '\t', '\n', '\U{b}', '\U{c}', '\r', '\U{1c}', '\U{1d}', '\U{1e}', '\U{1f}',
    '\U{85}', '\U{a0}', '\U{1680}', '\U{2000}', '\U{2001}', '\U{2002}', '\U{2003}', '\U{2004}', '\U{2005}',
    '\U{2006}', '\U{2007}', '\U{2008}', '\U{2009}', '\U{200a}', '\U{2028}', '\U{2029}', '\U{202f}', '\U{205f}', '\U{3000}'}

  /** `\S` */
  predicate IsNonSpace(c: char) { !IsSpace(c) }

  /** `\d`, restricted to the ASCII digits. */
  predicate IsDigit(c: char) { '0' <= c <= '9' }

  /** `[A-Z]` */
  predicate IsUpper(c: char) { 'A' <= c <= 'Z' }

  /** `\w`, restricted to ASCII letters, digits and underscore. */
  predicate IsWordChar(c: char) { IsDigit(c) || IsUpper(c) || ('a' <= c <= 'z') || c == '_' }

  /** `[^[]` */
  predicate NotOpenBracket(c: char) { c != '[' }

  predicate AllOf(s: string, p: char -> bool) {
    forall i :: 0 <= i < |s| ==> p(s[i])
  }

  /** A non-empty run of ASCII digits: what `\d+` captures. */
  predicate Digits(s: string) { |s| > 0 && AllOf(s, IsDigit) }

  /** What `\w+` captures. */
  predicate Word(s: string) { |s| > 0 && AllOf(s, IsWordChar) }

  /** What `\S+` captures: a non-empty string without whitespace. */
  predicate Token(s: string) { |s| > 0 && AllOf(s, IsNonSpace) }

  /** Length of the longest prefix of `s` whose characters all satisfy `p`. */
  function PrefixLen(s: string, p: char -> bool): (n: nat)
    ensures n <= |s|
    ensures forall i :: 0 <= i < n ==> p(s[i])
    ensures n < |s| ==> !p(s[n])
  {
    if s == [] || !p(s[0]) then 0 else 1 + PrefixLen(s[1..], p)
  }

  /** The maximal run of `p`-characters at the start of `s`: what a greedy `x+`/`x*` consumes. */
  function Run(s: string, p: char -> bool): (w: string)
    ensures w <= s
    ensures AllOf(w, p)
    ensures |w| < |s| ==> !p(s[|w|])
  {
    s[..PrefixLen(s, p)]
  }

  /** The length of a maximal prefix is unique. */
  lemma PrefixLenUnique(s: string, p: char -> bool, n: nat)
    requires n <= |s|
    requires forall i :: 0 <= i < n ==> p(s[i])
    requires n < |s| ==> !p(s[n])
    ensures PrefixLen(s, p) == n
  {
  }

  /** The maximal run is unique: any prefix of `p`-characters not followed by one is it. */
  lemma RunOfConcat(w: string, rest: string, p: char -> bool)
    requires AllOf(w, p)
    requires rest == [] || !p(rest[0])
    ensures Run(w + rest, p) == w
  {
    assert (w + rest)[..|w|] == w;
  }

  /** Python's `str.strip()` with no argument: leading and trailing whitespace removed. */
  function Strip(s: string): (r: string)
    ensures StripStart(s) + |r| <= |s|
    ensures r == s[StripStart(s)..StripStart(s) + |r|]
    ensures forall i :: 0 <= i < StripStart(s) ==> IsSpace(s[i])
    ensures forall i :: StripStart(s) + |r| <= i < |s| ==> IsSpace(s[i])
    ensures r == [] || (!IsSpace(r[0]) && !IsSpace(r[|r| - 1]))
  {
    TrimEnd(s[StripStart(s)..])
  }

  /** Where `Strip(s)` begins in `s`. */
  function StripStart(s: string): (a: nat)
    ensures a <= |s|
  {
    PrefixLen(s, IsSpace)
  }

  /** `s` without its trailing whitespace. */
  function TrimEnd(s: string): (r: string)
    ensures r <= s
    ensures forall i :: |r| <= i < |s| ==> IsSpace(s[i])
    ensures r == [] || !IsSpace(r[|r| - 1])
  {
    if s != [] && IsSpace(s[|s| - 1]) then TrimEnd(s[..|s| - 1]) else s
  }

  /**
   * What `(.*)$` captures from a fixed start in Python's `re` (no DOTALL): `.` stops at a newline and
   * `$` matches at the end or just before a final newline.
   */
  function LineRest(t: string): (r: Option<string>)
    ensures r.Some? ==> '\n' !in r.value && (r.value == t || r.value + "\n" == t)
    ensures r.None? <==> exists i :: 0 <= i < |t| - 1 && t[i] == '\n'
  {
    if '\n' !in t then Some(t)
    else if t[|t| - 1] == '\n' && '\n' !in t[..|t| - 1] then Some(t[..|t| - 1])
    else None
  }

  /** `sep.join(parts)`: the parts with `sep` between neighbours. */
  function JoinWith(sep: string, parts: seq<string>): string {
    if parts == [] then "" else if |parts| == 1 then parts[0] else parts[0] + sep + JoinWith(sep, parts[1..])
  }

  /** The decimal digits of `n`, most significant first. */
  function NatToString(n: nat): (s: string)
    ensures Digits(s)
    ensures n == 0 <==> s == "0"
    ensures s[0] == '0' ==> n == 0
    decreases n
  {
    if n < 10 then [DigitChar(n)] else NatToString(n / 10) + [DigitChar(n % 10)]
  }

  function DigitChar(d: nat): (c: char)
    requires d < 10
    ensures IsDigit(c)
  {
    "0123456789"[d]
  }

  /**
   * Python's `str(n)` / `f"{n}"` for an int: the digits of `|n|`, with no leading zero except in
   * `0` itself, and a minus sign before them when `n` is negative.
   */
  function IntToString(n: int): (s: string)
    ensures n >= 0 ==> Digits(s) && DigitsValue(s) == n && (s[0] == '0' ==> s == "0")
    ensures n < 0 ==> |s| > 1 && s[0] == '-' && Digits(s[1..]) && DigitsValue(s[1..]) == -n && s[1] != '0'
  {
    if n >= 0 then
      NatToStringRoundTrip(n);
      NatToString(n)
    else
      NatToStringRoundTrip(-n);
      assert ("-" + NatToString(-n))[1..] == NatToString(-n);
      "-" + NatToString(-n)
  }

  /** The number a string of decimal digits denotes: the inverse of `NatToString`. */
  function DigitsValue(s: string): nat
    requires AllOf(s, IsDigit)
  {
    if s == [] then 0 else DigitsValue(s[..|s| - 1]) * 10 + (s[|s| - 1] as int - '0' as int)
  }

  lemma {:induction false} NatToStringRoundTrip(n: nat)
    ensures DigitsValue(NatToString(n)) == n
    decreases n
  {
    var s := NatToString(n);
    if n < 10 {
      assert s == [DigitChar(n)];
      assert "0123456789"[n] as int - '0' as int == n;
    } else {
      NatToStringRoundTrip(n / 10);
      assert s[..|s| - 1] == NatToString(n / 10);
      assert "0123456789"[n % 10] as int - '0' as int == n % 10;
    }
  }
}
