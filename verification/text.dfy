/** The parts of Python's `str` type that the extractor, the scorer and the template tools rely on:
    character classes, `lower()`, `strip()`, and substring tests. */
module Text {
  /** `str.isspace()`: the characters Python's `strip()` removes and that `\s` matches in a str pattern. */
  predicate IsSpace(c: char) {
    || ('\t' <= c <= '\r')
    || ('\U{1C}' <= c <= ' ')
    || c == '\U{85}' || c == '\U{A0}' || c == '\U{1680}'
    || ('\U{2000}' <= c <= '\U{200A}')
    || c == '\U{2028}' || c == '\U{2029}' || c == '\U{202F}' || c == '\U{205F}' || c == '\U{3000}'
  }

  /** A word character, as `\w` matches it, restricted to ASCII letters, digits and the underscore. */
  predicate IsWordChar(c: char) {
    ('a' <= c <= 'z') || ('A' <= c <= 'Z') || ('0' <= c <= '9') || c == '_'
  }

  /** `lower()` on one character, restricted to the ASCII upper-case letters. */
  function LowerChar(c: char): (r: char)
    ensures 'A' <= c <= 'Z' ==> r as int == c as int + 32
    ensures !('A' <= c <= 'Z') ==> r == c
  {
    if 'A' <= c <= 'Z' then (c as int + 32) as char else c
  }

  /** `s.lower()`. */
  function Lower(s: string): (r: string)
    ensures |r| == |s|
    ensures forall k :: 0 <= k < |s| ==> r[k] == LowerChar(s[k])
  {
    seq(|s|, k requires 0 <= k < |s| => LowerChar(s[k]))
  }

  /** `s.strip()`: `s` without its leading and trailing whitespace. */
  function Strip(s: string): (r: string)
    ensures r != [] ==> !IsSpace(r[0]) && !IsSpace(r[|r| - 1])
    ensures Contains(s, r)
    ensures r == [] <==> forall k :: 0 <= k < |s| ==> IsSpace(s[k])
  {
    var t := StripStart(s);
    var r := StripEnd(t);
    assert OccursAt(s, r, |s| - |t|);
    r
  }

  /** `s.lstrip()`. */
  function StripStart(s: string): (r: string)
    ensures |r| <= |s| && r == s[|s| - |r|..]
    ensures forall k :: 0 <= k < |s| - |r| ==> IsSpace(s[k])
    ensures r != [] ==> !IsSpace(r[0])
  {
    if s != [] && IsSpace(s[0]) then StripStart(s[1..]) else s
  }

  /** `s.rstrip()`. */
  function StripEnd(s: string): (r: string)
    ensures |r| <= |s| && r == s[..|r|]
    ensures forall k :: |r| <= k < |s| ==> IsSpace(s[k])
    ensures r != [] ==> !IsSpace(r[|r| - 1])
  {
    if s != [] && IsSpace(s[|s| - 1]) then StripEnd(s[..|s| - 1]) else s
  }

  /** `t` occurs in `s` starting at index `i`. */
  predicate OccursAt(s: string, t: string, i: nat) {
    i + |t| <= |s| && s[i..i + |t|] == t
  }

  /** Python's `t in s` on strings. */
  predicate Contains(s: string, t: string) {
    exists i :: 0 <= i <= |s| - |t| && OccursAt(s, t, i)
  }

  /** Every character of `s[lo..hi]` satisfies `p`. */
  predicate All(s: string, lo: nat, hi: nat, p: char -> bool) {
    lo <= hi <= |s| && forall k :: lo <= k < hi ==> p(s[k])
  }

  /** The end of the greedy run of `p`-characters that starts at `i`: the first index at or after
      `i` whose character fails `p`, or `|s|`. */
  function Run(s: string, i: nat, p: char -> bool): (j: nat)
    requires i <= |s|
    ensures i <= j <= |s|
    ensures All(s, i, j, p)
    ensures j < |s| ==> !p(s[j])
    decreases |s| - i
  {
    if i < |s| && p(s[i]) then Run(s, i + 1, p) else i
  }

  /** A run is determined by where it starts: any `j` with the two defining properties is `Run(s, i, p)`. */
  lemma RunUnique(s: string, i: nat, j: nat, p: char -> bool)
    requires All(s, i, j, p)
    requires j < |s| ==> !p(s[j])
    ensures Run(s, i, p) == j
  {
  }

  /** The start of the greedy run of `p`-characters that ends at `hi`, looking no further left than `lo`. */
  function RunBack(s: string, lo: nat, hi: nat, p: char -> bool): (j: nat)
    requires lo <= hi <= |s|
    ensures lo <= j <= hi
    ensures All(s, j, hi, p)
    ensures lo < j ==> !p(s[j - 1])
    decreases hi
  {
    if lo < hi && p(s[hi - 1]) then RunBack(s, lo, hi - 1, p) else hi
  }

  /** A backward run is determined by where it ends. */
  lemma RunBackUnique(s: string, lo: nat, j: nat, hi: nat, p: char -> bool)
    requires lo <= j && All(s, j, hi, p)
    requires lo < j ==> !p(s[j - 1])
    ensures RunBack(s, lo, hi, p) == j
  {
  }

  /** A slice of `s` occurs in `s`. */
  lemma SliceContained(s: string, lo: nat, hi: nat)
    requires lo <= hi <= |s|
    ensures Contains(s, s[lo..hi])
  {
    assert OccursAt(s, s[lo..hi], lo);
  }

  /** What a slice of `s` contains, `s` contains. */
  lemma ContainsInSlice(s: string, lo: nat, hi: nat, t: string)
    requires lo <= hi <= |s| && Contains(s[lo..hi], t)
    ensures Contains(s, t)
  {
    var j :| 0 <= j <= |s[lo..hi]| - |t| && OccursAt(s[lo..hi], t, j);
    forall m | lo + j <= m < lo + j + |t|
      ensures s[m] == t[m - lo - j]
    {
      assert s[lo..hi][m - lo] == s[m];
    }
    assert OccursAt(s, t, lo + j);
  }

  /** Lower-casing twice is lower-casing once. */
  lemma LowerIdempotent(s: string)
    ensures Lower(Lower(s)) == Lower(s)
  {
  }
}
