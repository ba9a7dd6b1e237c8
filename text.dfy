/**
 * String helpers shared by the resolver: ASCII lower-casing (standing in for
 * `String.prototype.toLowerCase`), substring search (`includes`) and the two
 * character-class tests that replace the source's regular expressions.
 */
module Text {

  /** Lower-cases an ASCII capital letter and leaves every other character alone. */
  function LowerChar(c: char): char {
    if 'A' <= c <= 'Z' then (c as int + 32) as char else c
  }

  /** The lower-cased form of `s`, character by character. */
  function Lower(s: string): (r: string)
    ensures |r| == |s|
    ensures forall i :: 0 <= i < |s| ==> r[i] == LowerChar(s[i])
  {
    if s == [] then [] else [LowerChar(s[0])] + Lower(s[1..])
  }

  predicate StartsWith(s: string, prefix: string) {
    |prefix| <= |s| && s[..|prefix|] == prefix
  }

  /** `s.includes(t)`: `t` occurs in `s` at some position (the empty string occurs everywhere). */
  predicate Contains(s: string, t: string)
    decreases |s|
  {
    StartsWith(s, t) || (|s| > 0 && Contains(s[1..], t))
  }

  predicate IsAsciiLetter(c: char) {
    'a' <= c <= 'z' || 'A' <= c <= 'Z'
  }

  /** `col.match(/[a-zA-Z]/)` succeeds. */
  predicate HasAsciiLetter(s: string) {
    exists i :: 0 <= i < |s| && IsAsciiLetter(s[i])
  }

  /** `col.match(/sales|amount|price|value|total/i)` succeeds. */
  predicate IsValueLike(s: string) {
    var l := Lower(s);
    Contains(l, "sales") || Contains(l, "amount") || Contains(l, "price")
    || Contains(l, "value") || Contains(l, "total")
  }
}
