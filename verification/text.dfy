/**
 ASCII case conversion and substring search, the string primitives both
 core pieces rely on: JavaScript's `String.prototype.toLowerCase` and
 `String.prototype.includes` in the marker classifier, and Python's
 `str.upper` in the query builder. Only the 26 ASCII letters change case
 here; every other character is left as it is.
 */
module AsciiText {

  predicate IsAsciiUpper(c: char) { 'A' <= c <= 'Z' }

  predicate IsAsciiLower(c: char) { 'a' <= c <= 'z' }

  /** The distance between an ASCII capital and its small letter. */
  const CaseOffset: int := 'a' as int - 'A' as int

  function LowerChar(c: char): (lowered: char) {
    if IsAsciiUpper(c) then (c as int + CaseOffset) as char else c
  }

  function UpperChar(c: char): (raised: char) {
    if IsAsciiLower(c) then (c as int - CaseOffset) as char else c
  }

  /** Two characters that are equal or are the two cases of one ASCII letter. */
  predicate SameLetterIgnoringCase(a: char, b: char) {
    || a == b
    || (IsAsciiUpper(a) && b as int == a as int + CaseOffset)
    || (IsAsciiLower(a) && b as int == a as int - CaseOffset)
  }

  /** `x` and `y` differ at most in the case of their ASCII letters. */
  ghost predicate DifferOnlyInCase(x: string, y: string) {
    && |x| == |y|
    && forall i :: 0 <= i < |x| ==> SameLetterIgnoringCase(x[i], y[i])
  }

  /** `toLowerCase` restricted to ASCII: only the case of letters changes,
      and no capital is left. */
  function Lower(s: string): (r: string)
    ensures DifferOnlyInCase(s, r)
    ensures forall i :: 0 <= i < |r| ==> !IsAsciiUpper(r[i])
  {
    seq(|s|, i requires 0 <= i < |s| => LowerChar(s[i]))
  }

  /** `upper()` restricted to ASCII: only the case of letters changes, and
      no small letter is left. */
  function Upper(s: string): (r: string)
    ensures DifferOnlyInCase(s, r)
    ensures forall i :: 0 <= i < |r| ==> !IsAsciiLower(r[i])
  {
    seq(|s|, i requires 0 <= i < |s| => UpperChar(s[i]))
  }

  /** The two cases of one letter lower-case alike and upper-case alike. */
  lemma CaseFoldIgnoresCase(a: char, b: char)
    requires SameLetterIgnoringCase(a, b)
    ensures LowerChar(a) == LowerChar(b)
    ensures UpperChar(a) == UpperChar(b)
  {}

  /** Characters with the same lower-case (or upper-case) form are the two
      cases of one letter, or equal. */
  lemma SameCharFoldMeansSameLetter(a: char, b: char)
    requires LowerChar(a) == LowerChar(b) || UpperChar(a) == UpperChar(b)
    ensures SameLetterIgnoringCase(a, b)
  {}

  /** Lower-casing forgets the case of ASCII letters. */
  lemma LowerIgnoresCase(x: string, y: string)
    requires DifferOnlyInCase(x, y)
    ensures Lower(x) == Lower(y)
  {
    forall i | 0 <= i < |x|
      ensures Lower(x)[i] == Lower(y)[i]
    {
      CaseFoldIgnoresCase(x[i], y[i]);
    }
  }

  /** Upper-casing forgets the case of ASCII letters. */
  lemma UpperIgnoresCase(x: string, y: string)
    requires DifferOnlyInCase(x, y)
    ensures Upper(x) == Upper(y)
  {
    forall i | 0 <= i < |x|
      ensures Upper(x)[i] == Upper(y)[i]
    {
      CaseFoldIgnoresCase(x[i], y[i]);
    }
  }

  /** Converse of `LowerIgnoresCase`: lower-casing forgets nothing but case. */
  lemma SameLowerMeansDifferOnlyInCase(x: string, y: string)
    requires Lower(x) == Lower(y)
    ensures DifferOnlyInCase(x, y)
  {
    forall i | 0 <= i < |x|
      ensures SameLetterIgnoringCase(x[i], y[i])
    {
      assert Lower(x)[i] == Lower(y)[i];
      SameCharFoldMeansSameLetter(x[i], y[i]);
    }
  }

  /** Converse of `UpperIgnoresCase`: upper-casing forgets nothing but case. */
  lemma SameUpperMeansDifferOnlyInCase(x: string, y: string)
    requires Upper(x) == Upper(y)
    ensures DifferOnlyInCase(x, y)
  {
    forall i | 0 <= i < |x|
      ensures SameLetterIgnoringCase(x[i], y[i])
    {
      assert Upper(x)[i] == Upper(y)[i];
      SameCharFoldMeansSameLetter(x[i], y[i]);
    }
  }

  /** Lower-casing twice is lower-casing once. */
  lemma LowerIdempotent(s: string)
    ensures Lower(Lower(s)) == Lower(s)
  {
    LowerIgnoresCase(s, Lower(s));
  }

  /** `p` is found in `s` starting at position `i`. */
  predicate OccursAt(p: string, s: string, i: int) {
    0 <= i <= |s| - |p| && s[i..i + |p|] == p
  }

  /** Reference meaning of substring membership: `p` sits somewhere inside `s`. */
  ghost predicate Occurs(p: string, s: string) {
    exists i :: OccursAt(p, s, i)
  }

  /** Moving past a first character that does not start `p` loses no occurrence. */
  lemma OccursInTail(p: string, s: string)
    requires |p| <= |s|
    requires s[..|p|] != p
    ensures Occurs(p, s) <==> Occurs(p, s[1..])
  {
    if Occurs(p, s) {
      var i :| OccursAt(p, s, i);
      assert i != 0;
      assert s[1..][i - 1..i - 1 + |p|] == s[i..i + |p|];
      assert OccursAt(p, s[1..], i - 1);
    }
    if Occurs(p, s[1..]) {
      var j :| OccursAt(p, s[1..], j);
      assert s[j + 1..j + 1 + |p|] == s[1..][j..j + |p|];
      assert OccursAt(p, s, j + 1);
    }
  }

  /** A pattern cannot occur in a string that lacks one of its characters. */
  lemma MissingCharacter(p: string, s: string, c: char)
    requires c in p && c !in s
    ensures !Occurs(p, s)
  {}

  /** `s.includes(p)`: scans the start positions of `s` from left to right. */
  function Contains(s: string, p: string): (r: bool)
    ensures r <==> Occurs(p, s)
    decreases |s|
  {
    if |p| > |s| then false
    else if s[..|p|] == p then
      assert OccursAt(p, s, 0);
      true
    else
      OccursInTail(p, s);
      Contains(s[1..], p)
  }
}
