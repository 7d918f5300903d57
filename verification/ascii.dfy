/**
 * ASCII case folding, the part of Kotlin's `String.toLowerCase()` the
 * router depends on: upper-case letters `A`..`Z` become `a`..`z`, every
 * other character is left alone.
 */
module Ascii {

  /** The distance between an upper-case ASCII letter and its lower-case partner. */
  const CaseOffset: int := 'a' as int - 'A' as int

  predicate IsUpper(c: char) {
    'A' <= c <= 'Z'
  }

  /** `x` and `y` are the same character, or the two cases of one ASCII letter. */
  ghost predicate SameLetterIgnoringCase(x: char, y: char) {
    || x == y
    || (IsUpper(x) && y as int == x as int + CaseOffset)
    || (IsUpper(y) && x as int == y as int + CaseOffset)
  }

  /** Two strings that differ at most in the case of their ASCII letters. */
  ghost predicate EqualsIgnoreCase(a: string, b: string) {
    && |a| == |b|
    && forall i :: 0 <= i < |a| ==> SameLetterIgnoringCase(a[i], b[i])
  }

  ghost predicate HasNoUpper(s: string) {
    forall i :: 0 <= i < |s| ==> !IsUpper(s[i])
  }

  /** The lower-case form of one character. */
  function LowerChar(c: char): char {
    if IsUpper(c) then (c as int + CaseOffset) as char else c
  }

  /** The lower-case form of a string, character by character. */
  function Lower(s: string): string {
    seq(|s|, i requires 0 <= i < |s| => LowerChar(s[i]))
  }

  /** The lower-case form has the same letters up to case and none of them is upper-case. */
  lemma LowerCharacterized(s: string)
    ensures EqualsIgnoreCase(s, Lower(s))
    ensures HasNoUpper(Lower(s))
  {
    forall i | 0 <= i < |s| {
      LowerCharCharacterized(s[i]);
    }
  }

  /** A folded character is never upper-case and is the same letter up to case. */
  lemma LowerCharCharacterized(c: char)
    ensures !IsUpper(LowerChar(c))
    ensures SameLetterIgnoringCase(c, LowerChar(c))
  {
  }

  /** Two characters fold to the same character exactly when they match ignoring case. */
  lemma LowerCharAgree(x: char, y: char)
    ensures LowerChar(x) == LowerChar(y) <==> SameLetterIgnoringCase(x, y)
  {
  }

  /**
   * Lowering is a case-insensitive comparison key: two strings have the
   * same lower-case form if and only if they are equal ignoring case.
   */
  lemma LowerIsCaseInsensitive(a: string, b: string)
    ensures Lower(a) == Lower(b) <==> EqualsIgnoreCase(a, b)
  {
    if Lower(a) == Lower(b) {
      forall i | 0 <= i < |a|
        ensures SameLetterIgnoringCase(a[i], b[i])
      {
        assert Lower(a)[i] == LowerChar(a[i]);
        assert Lower(b)[i] == LowerChar(b[i]);
        LowerCharAgree(a[i], b[i]);
      }
    }
    if EqualsIgnoreCase(a, b) {
      forall i | 0 <= i < |a|
        ensures Lower(a)[i] == Lower(b)[i]
      {
        LowerCharAgree(a[i], b[i]);
      }
    }
  }

  /** A string with no upper-case letters is its own lower-case form. */
  lemma LowerOfLowerCase(s: string)
    requires HasNoUpper(s)
    ensures Lower(s) == s
  {
  }

  /** Lowering twice is lowering once. */
  lemma LowerIdempotent(s: string)
    ensures Lower(Lower(s)) == Lower(s)
  {
    LowerCharacterized(s);
    LowerOfLowerCase(Lower(s));
  }
}
