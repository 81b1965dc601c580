/**
 * Character classes and the string helpers of Python's `str` that the bot
 * relies on: `isspace` (also the `\s` class of a str pattern), `strip`,
 * `rstrip`, and slicing with a possibly negative bound.
 */
module Text {

  /** Python's `str.isspace()` for one character; `\s` in a str pattern matches the same set. */
  predicate IsSpace(c: char) {
    || ('\t' <= c <= '\r')
    || ('\U{1C}' <= c <= ' ')
    || c == '\U{85}' || c == '\U{A0}' || c == '\U{1680}'
    || ('\U{2000}' <= c <= '\U{200A}')
    || c == '\U{2028}' || c == '\U{2029}' || c == '\U{202F}' || c == '\U{205F}' || c == '\U{3000}'
  }

  /** No whitespace at either end: what `strip()` always returns. */
  predicate IsTrimmed(s: string) {
    s == [] || (!IsSpace(s[0]) && !IsSpace(s[|s| - 1]))
  }

  predicate AllSpace(s: string) {
    forall i :: 0 <= i < |s| ==> IsSpace(s[i])
  }

  /** `s.lstrip()`: drops the whitespace prefix and nothing else. */
  function TrimStart(s: string): (r: string)
    ensures |r| <= |s| && r == s[|s| - |r|..]
    ensures AllSpace(s[..|s| - |r|])
    ensures r == [] || !IsSpace(r[0])
  {
    if s != [] && IsSpace(s[0]) then TrimStart(s[1..]) else s
  }

  /** `s.rstrip()`: drops the whitespace suffix and nothing else. */
  function TrimEnd(s: string): (r: string)
    ensures r <= s
    ensures AllSpace(s[|r|..])
    ensures r == [] || !IsSpace(r[|r| - 1])
  {
    if s != [] && IsSpace(s[|s| - 1]) then TrimEnd(s[..|s| - 1]) else s
  }

  /** `s.strip()`. */
  function Trim(s: string): (r: string)
    ensures IsTrimmed(r)
    ensures |r| <= |s|
    ensures r == [] <==> AllSpace(s)
    ensures IsTrimmed(s) ==> r == s
  {
    TrimEnd(TrimStart(s))
  }

  /** A string whose first character is not whitespace keeps a non-empty prefix of itself under strip(). */
  lemma TrimOfLeadingNonSpace(s: string)
    requires s != [] && !IsSpace(s[0])
    ensures Trim(s) != [] && Trim(s) <= s
  {
    assert TrimStart(s) == s;
    assert !AllSpace(s) by { assert !IsSpace(s[0]); }
  }

  /** lstrip() drops a whitespace prefix and stops at the first other character. */
  lemma {:induction false} TrimStartSkips(lead: string, rest: string)
    requires AllSpace(lead) && (rest == [] || !IsSpace(rest[0]))
    ensures TrimStart(lead + rest) == rest
  {
    if lead != [] {
      assert (lead + rest)[1..] == lead[1..] + rest;
      TrimStartSkips(lead[1..], rest);
    }
  }

  /** lstrip() ignores any whitespace put in front. */
  lemma {:induction false} TrimStartAfterSpace(lead: string, s: string)
    requires AllSpace(lead)
    ensures TrimStart(lead + s) == TrimStart(s)
  {
    if lead == [] {
      assert lead + s == s;
    } else {
      assert IsSpace((lead + s)[0]);
      assert (lead + s)[1..] == lead[1..] + s;
      TrimStartAfterSpace(lead[1..], s);
    }
  }

  /**
   * Python's `xs[:n]`: the first `n` elements, or for a negative `n` all but
   * the last `-n`, clamped to the bounds of `xs`.
   */
  function PyPrefix<T>(xs: seq<T>, n: int): (r: seq<T>)
    ensures r <= xs
    ensures 0 <= n ==> |r| == if n <= |xs| then n else |xs|
    ensures n < 0 ==> |r| == if -n <= |xs| then |xs| + n else 0
  {
    if 0 <= n then (if n <= |xs| then xs[..n] else xs)
    else if -n <= |xs| then xs[..|xs| + n] else []
  }
}
