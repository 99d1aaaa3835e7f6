/**
 * The handful of Python `str` operations the chat parser relies on:
 * whitespace stripping, `split(sep, 1)` and the `in` substring test.
 */
module Strings {
  import opened Wrappers

  /**
   * Whitespace as matched by `\s` and removed by `str.strip`, restricted to
   * ASCII: tab, line feed, vertical tab, form feed, carriage return, the four
   * separators 0x1C to 0x1F, and space.
   */
  predicate IsSpace(c: char)
  {
    c == ' ' || '\t' <= c <= '\r' || '\U{1C}' <= c <= '\U{1F}'
  }

  /** `\d` restricted to ASCII digits. */
  predicate IsDigit(c: char)
  {
    '0' <= c <= '9'
  }

  /** `s.lstrip()`: drops the leading whitespace and nothing else. */
  function LStrip(s: string): (r: string)
    ensures |r| <= |s| && r == s[|s| - |r|..]
    ensures forall i :: 0 <= i < |s| - |r| ==> IsSpace(s[i])
    ensures r != [] ==> !IsSpace(r[0])
  {
    if s != [] && IsSpace(s[0]) then LStrip(s[1..]) else s
  }

  /** `s.rstrip()`: drops the trailing whitespace and nothing else. */
  function RStrip(s: string): (r: string)
    ensures |r| <= |s| && r == s[..|r|]
    ensures forall i :: |r| <= i < |s| ==> IsSpace(s[i])
    ensures r != [] ==> !IsSpace(r[|r| - 1])
  {
    if s != [] && IsSpace(s[|s| - 1]) then RStrip(s[..|s| - 1]) else s
  }

  /** `r` is `s` with `a` whitespace characters removed in front and only whitespace removed behind. */
  ghost predicate StrippedAt(s: string, r: string, a: nat)
  {
    a + |r| <= |s| && r == s[a..a + |r|]
    && (forall i :: 0 <= i < a ==> IsSpace(s[i]))
    && (forall i :: a + |r| <= i < |s| ==> IsSpace(s[i]))
  }

  /** `s.strip()`: the longest slice of `s` that neither starts nor ends with whitespace. */
  function Strip(s: string): (r: string)
    ensures |r| <= |s|
    ensures r != [] ==> !IsSpace(r[0]) && !IsSpace(r[|r| - 1])
  {
    RStrip(LStrip(s))
  }

  /** `strip()` removes leading and trailing whitespace and nothing else. */
  lemma StripSpec(s: string)
    ensures exists a :: StrippedAt(s, Strip(s), a)
  {
    var left := LStrip(s);
    assert StrippedAt(s, Strip(s), |s| - |left|);
  }

  /** No character of `s[lo..hi]` is `c`. */
  ghost predicate Lacks(s: string, c: char, lo: int, hi: int)
  {
    forall i :: lo <= i < hi && 0 <= i < |s| ==> s[i] != c
  }

  /** Index of the first occurrence of `c` in `s`, if any. */
  function FindChar(s: string, c: char): (r: Option<nat>)
    ensures r.Some? ==> r.value < |s| && s[r.value] == c && Lacks(s, c, 0, r.value)
    ensures r.None? <==> Lacks(s, c, 0, |s|)
  {
    if s == [] then None
    else if s[0] == c then Some(0)
    else match FindChar(s[1..], c)
      case None => None
      case Some(i) => Some(i + 1)
  }

  /**
   * `before, after = s.split(sep, 1)`: `None` stands for the ValueError raised
   * when `sep` does not occur and the split yields a single piece.
   */
  function SplitOnce(s: string, sep: char): (r: Option<(string, string)>)
    ensures r.None? <==> Lacks(s, sep, 0, |s|)
    ensures r.Some? ==> var n := |r.value.0|;
              n < |s| && r.value.0 == s[..n] && s[n] == sep && r.value.1 == s[n + 1..] && Lacks(s, sep, 0, n)
  {
    match FindChar(s, sep)
    case None => None
    case Some(i) => Some((s[..i], s[i + 1..]))
  }

  /** A separator found at its first occurrence `i` splits `s` around `i`. */
  lemma SplitOnceAt(s: string, sep: char, i: nat)
    requires i < |s| && s[i] == sep && Lacks(s, sep, 0, i)
    ensures SplitOnce(s, sep) == Some((s[..i], s[i + 1..]))
  {
  }

  /** `sub` occurs in `s` starting at index `i`. */
  ghost predicate OccursAt(s: string, sub: string, i: nat)
  {
    i + |sub| <= |s| && s[i..i + |sub|] == sub
  }

  ghost predicate IsSubstring(sub: string, s: string)
  {
    exists i :: OccursAt(s, sub, i)
  }

  function ContainsFrom(s: string, sub: string, i: nat): (r: bool)
    requires i <= |s|
    ensures r <==> exists j :: i <= j && OccursAt(s, sub, j)
    decreases |s| - i
  {
    if i + |sub| > |s| then false
    else if s[i..i + |sub|] == sub then assert OccursAt(s, sub, i); true
    else ContainsFrom(s, sub, i + 1)
  }

  /** Python's `sub in s`. */
  function Contains(s: string, sub: string): (r: bool)
    ensures r <==> IsSubstring(sub, s)
  {
    ContainsFrom(s, sub, 0)
  }
}
