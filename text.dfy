/**
 * The parts of Python's `str` that the helpers rely on: clamped slicing,
 * `find`, `startswith`-style prefix tests, `strip`, `lower` and `replace`.
 */
module Text {

  /** Python's `str.isspace()` for one character: the characters `str.strip()` removes. */
  predicate IsSpace(c: char) {
    || ('\t' <= c <= '\r')            // U+0009 .. U+000D
    || ('\U{1C}' <= c <= ' ')          // U+001C .. U+001F and the space
    || c == '\U{85}' || c == '\U{A0}' || c == '\U{1680}'
    || ('\U{2000}' <= c <= '\U{200A}')
    || c == '\U{2028}' || c == '\U{2029}' || c == '\U{202F}' || c == '\U{205F}' || c == '\U{3000}'
  }

  /** `s[:n]` for n >= 0: Python clamps a slice bound past the end. */
  function Take(s: string, n: nat): string {
    if n <= |s| then s[..n] else s
  }

  /** `s[n:]` for n >= 0. */
  function Drop(s: string, n: nat): string {
    if n <= |s| then s[n..] else ""
  }

  /** `s[-n:]` for n >= 1: the last n characters, or all of s when it is shorter. */
  function Tail(s: string, n: nat): string {
    if n <= |s| then s[|s| - n..] else s
  }

  /** `s[a:b]` for 0 <= a, b <= len(s): empty when the bounds cross. */
  function Slice(s: string, a: nat, b: nat): string
    requires a <= |s| && b <= |s|
  {
    if a <= b then s[a..b] else ""
  }

  predicate StartsWith(s: string, p: string) {
    |p| <= |s| && s[..|p|] == p
  }

  predicate EndsWith(s: string, p: string) {
    |p| <= |s| && s[|s| - |p|..] == p
  }

  /** Comparing a clamped slice with a literal is a prefix test. */
  lemma TakeIsPrefixTest(s: string, p: string)
    ensures Take(s, |p|) == p <==> StartsWith(s, p)
  {
  }

  /** Comparing a clamped tail with a literal is a suffix test. */
  lemma TailIsSuffixTest(s: string, p: string)
    requires |p| > 0
    ensures Tail(s, |p|) == p <==> EndsWith(s, p)
  {
  }

  predicate OccursAt(s: string, sub: string, i: int) {
    0 <= i && i + |sub| <= |s| && s[i..i + |sub|] == sub
  }

  predicate Contains(s: string, sub: string) {
    exists i | 0 <= i <= |s| :: OccursAt(s, sub, i)
  }

  /** i is the first position at which sub occurs in s. */
  predicate FirstAt(s: string, sub: string, i: int) {
    OccursAt(s, sub, i) && forall j :: 0 <= j < i ==> !OccursAt(s, sub, j)
  }

  /** `s.find(sub, start)`: the first position at or after `start`, or -1. */
  function FindFrom(s: string, sub: string, start: nat): (r: int)
    ensures r == -1 || (start <= r && OccursAt(s, sub, r))
    ensures r != -1 ==> forall j :: start <= j < r ==> !OccursAt(s, sub, j)
    ensures r == -1 <==> forall j :: start <= j ==> !OccursAt(s, sub, j)
    decreases |s| - start
  {
    if start + |sub| > |s| then -1
    else if OccursAt(s, sub, start) then start
    else FindFrom(s, sub, start + 1)
  }

  /** `s.find(sub)`: the first occurrence of sub in s, or -1 when there is none. */
  function Find(s: string, sub: string): (r: int)
    ensures r == -1 <==> !Contains(s, sub)
    ensures r != -1 ==> FirstAt(s, sub, r)
  {
    FindFrom(s, sub, 0)
  }

  /** `s.lstrip(chars)`, with the stripped characters given by a predicate. */
  function LStrip(s: string, drop: char -> bool): (r: string)
    ensures |r| <= |s| && r == s[|s| - |r|..]
    ensures forall i :: 0 <= i < |s| - |r| ==> drop(s[i])
    ensures r == [] || !drop(r[0])
  {
    if |s| > 0 && drop(s[0]) then LStrip(s[1..], drop) else s
  }

  /** `s.rstrip(chars)`. */
  function RStrip(s: string, drop: char -> bool): (r: string)
    ensures |r| <= |s| && r == s[..|r|]
    ensures forall i :: |r| <= i < |s| ==> drop(s[i])
    ensures r == [] || !drop(r[|r| - 1])
  {
    if |s| > 0 && drop(s[|s| - 1]) then RStrip(s[..|s| - 1], drop) else s
  }

  /** r is the part of s that starts at lo, and everything around it is dropped. */
  predicate TrimmedAt(s: string, r: string, lo: int, drop: char -> bool) {
    && 0 <= lo && lo + |r| <= |s| && r == s[lo..lo + |r|]
    && (forall i :: 0 <= i < lo ==> drop(s[i]))
    && (forall i :: lo + |r| <= i < |s| ==> drop(s[i]))
  }

  /** `s.strip(chars)`: an infix of s with only dropped characters around it,
      and neither end of it a dropped character. */
  function Strip(s: string, drop: char -> bool): (r: string)
    ensures |r| <= |s|
    ensures exists lo :: TrimmedAt(s, r, lo, drop)
    ensures r == [] || (!drop(r[0]) && !drop(r[|r| - 1]))
  {
    var l := LStrip(s, drop);
    var r := RStrip(l, drop);
    assert r != [] ==> r[0] == l[0];
    StripTrimmed(s, l, r, drop);
    r
  }

  lemma StripTrimmed(s: string, l: string, r: string, drop: char -> bool)
    requires |l| <= |s| && l == s[|s| - |l|..] && forall i :: 0 <= i < |s| - |l| ==> drop(s[i])
    requires |r| <= |l| && r == l[..|r|] && forall i :: |r| <= i < |l| ==> drop(l[i])
    ensures TrimmedAt(s, r, |s| - |l|, drop)
  {
    var lo := |s| - |l|;
    assert s[lo..lo + |r|] == r;
    forall i | lo + |r| <= i < |s| ensures drop(s[i]) {
      assert s[i] == l[i - lo];
    }
  }

  /** Stripping a string whose ends are already kept changes nothing. */
  lemma StripKeeps(s: string, drop: char -> bool)
    requires s == [] || (!drop(s[0]) && !drop(s[|s| - 1]))
    ensures Strip(s, drop) == s
  {
  }

  /** `s.strip()` with no argument. */
  function StripSpace(s: string): string {
    Strip(s, IsSpace)
  }

  /** `s.strip('/')`. */
  function StripSlashes(s: string): string {
    Strip(s, c => c == '/')
  }

  function LowerChar(c: char): char {
    if 'A' <= c <= 'Z' then (c as int + 32) as char else c
  }

  /** `s.lower()` on the ASCII letters (see README for why that is enough here). */
  function Lower(s: string): (r: string)
    ensures |r| == |s|
  {
    seq(|s|, i requires 0 <= i < |s| => LowerChar(s[i]))
  }

  /** `s.replace(a, b)` for single characters a and b. */
  function ReplaceChar(s: string, a: char, b: char): (r: string)
    ensures |r| == |s|
  {
    seq(|s|, i requires 0 <= i < |s| => if s[i] == a then b else s[i])
  }
}
