/** The ASCII case mapping PHP's `strtolower` / `strtoupper` perform
    (locale-independent since PHP 8.2). */
module Text {

  predicate IsUpper(c: char) {
    'A' <= c <= 'Z'
  }

  predicate IsLower(c: char) {
    'a' <= c <= 'z'
  }

  function LowerChar(c: char): char {
    if IsUpper(c) then (c as int + 32) as char else c
  }

  function UpperChar(c: char): char {
    if IsLower(c) then (c as int - 32) as char else c
  }

  /** No upper-case ASCII letter occurs in `s`. */
  predicate IsLowerCase(s: string) {
    forall i | 0 <= i < |s| :: !IsUpper(s[i])
  }

  /** strtolower: every upper-case ASCII letter is mapped to its lower-case
      partner; every other character is kept. */
  function Lower(s: string): (r: string)
    ensures |r| == |s|
    ensures IsLowerCase(r)
    ensures forall i | 0 <= i < |s| && !IsUpper(s[i]) :: r[i] == s[i]
    ensures forall i | 0 <= i < |s| && IsUpper(s[i]) :: r[i] != s[i] && UpperChar(r[i]) == s[i]
  {
    seq(|s|, i requires 0 <= i < |s| => LowerChar(s[i]))
  }

  /** strtoupper: the mirror image of `Lower`. */
  function Upper(s: string): (r: string)
    ensures |r| == |s|
    ensures forall i | 0 <= i < |r| :: !IsLower(r[i])
    ensures forall i | 0 <= i < |s| && !IsLower(s[i]) :: r[i] == s[i]
    ensures forall i | 0 <= i < |s| && IsLower(s[i]) :: r[i] != s[i] && LowerChar(r[i]) == s[i]
  {
    seq(|s|, i requires 0 <= i < |s| => UpperChar(s[i]))
  }

  /** A string that is already lower case is its own lower-case form; in
      particular lowering twice is lowering once. */
  lemma LowerOfLowerCase(s: string)
    requires IsLowerCase(s)
    ensures Lower(s) == s
  {
  }

  lemma LowerIdempotent(s: string)
    ensures Lower(Lower(s)) == Lower(s)
  {
    LowerOfLowerCase(Lower(s));
  }
}
