/**
 The comparison of two code hashes: both are case-folded and then compared
 for equality. Case folding is that of Python's `str.lower` restricted to
 ASCII letters, which is all a hexadecimal digest can contain.
 */
module Comparator {

  /** One character lowered: `A`..`Z` become `a`..`z`, everything else is kept. */
  function LowerChar(c: char): (r: char)
    ensures !('A' <= r <= 'Z')
    ensures r != c ==> 'A' <= c <= 'Z' && r as int == c as int + 32
  {
    if 'A' <= c <= 'Z' then (c as int + 32) as char else c
  }

  /** The string lowered character by character. */
  function Lower(s: string): (r: string)
    ensures |r| == |s|
  {
    if s == [] then [] else [LowerChar(s[0])] + Lower(s[1..])
  }

  /** No upper-case ASCII letter occurs in `s` (the form a hex digest is printed in). */
  predicate IsLowerCase(s: string)
  {
    forall i :: 0 <= i < |s| ==> !('A' <= s[i] <= 'Z')
  }

  /** `a` and `b` differ at most in the case of their letters. */
  predicate SameUpToCase(a: string, b: string)
  {
    |a| == |b| && forall i :: 0 <= i < |a| ==> LowerChar(a[i]) == LowerChar(b[i])
  }

  /** The hash comparison: `a.lower() == b.lower()`. */
  predicate Matches(a: string, b: string): (r: bool)
    ensures a == b ==> r
    ensures r ==> |a| == |b|
  {
    Lower(a) == Lower(b)
  }

  /** Each character of the lowered string is the lowered character at the same place. */
  lemma {:induction false} LowerAt(s: string, i: nat)
    requires i < |s|
    ensures Lower(s)[i] == LowerChar(s[i])
  {
    if i > 0 {
      LowerAt(s[1..], i - 1);
    }
  }

  lemma {:induction false} LowerIsLowerCase(s: string)
    ensures IsLowerCase(Lower(s))
    ensures Lower(Lower(s)) == Lower(s)
  {
    forall i | 0 <= i < |s|
      ensures !('A' <= Lower(s)[i] <= 'Z') && Lower(Lower(s))[i] == Lower(s)[i]
    {
      LowerAt(s, i);
      LowerAt(Lower(s), i);
    }
  }

  /** Lowering leaves a string that is already lower case unchanged. */
  lemma {:induction false} LowerFixesLowerCase(s: string)
    requires IsLowerCase(s)
    ensures Lower(s) == s
  {
    forall i | 0 <= i < |s|
      ensures Lower(s)[i] == s[i]
    {
      LowerAt(s, i);
    }
  }

  /** Two strings have the same lowering exactly when they differ only in case. */
  lemma {:induction false} LowerEqualIffSameUpToCase(a: string, b: string)
    ensures Lower(a) == Lower(b) <==> SameUpToCase(a, b)
  {
    if |a| == |b| {
      forall i | 0 <= i < |a|
        ensures Lower(a)[i] == LowerChar(a[i]) && Lower(b)[i] == LowerChar(b[i])
      {
        LowerAt(a, i);
        LowerAt(b, i);
      }
    }
  }

  lemma MatchesReflexive(a: string)
    ensures Matches(a, a)
  {
  }

  lemma MatchesSymmetric(a: string, b: string)
    ensures Matches(a, b) <==> Matches(b, a)
  {
  }

  lemma MatchesTransitive(a: string, b: string, c: string)
    requires Matches(a, b) && Matches(b, c)
    ensures Matches(a, c)
  {
  }

  /** The verdict does not change when either argument changes only in letter case. */
  lemma {:induction false} MatchesIgnoresCase(a: string, a': string, b: string, b': string)
    requires SameUpToCase(a, a') && SameUpToCase(b, b')
    ensures Matches(a, b) <==> Matches(a', b')
  {
    LowerEqualIffSameUpToCase(a, a');
    LowerEqualIffSameUpToCase(b, b');
  }

  /** The verdict is `true` exactly when the two hashes differ only in letter case. */
  lemma {:induction false} MatchesIffSameUpToCase(a: string, b: string)
    ensures Matches(a, b) <==> SameUpToCase(a, b)
  {
    LowerEqualIffSameUpToCase(a, b);
  }

  /** On two lower-case strings, such as two hex digests, the comparison is plain equality. */
  lemma {:induction false} MatchesOnLowerCaseIsEquality(a: string, b: string)
    requires IsLowerCase(a) && IsLowerCase(b)
    ensures Matches(a, b) <==> a == b
  {
    LowerFixesLowerCase(a);
    LowerFixesLowerCase(b);
  }

  /** A concrete instance: a digest written in capitals matches its lower-case form. */
  lemma MatchesMixedCaseDigest()
    ensures Matches("0xAB01", "0xab01")
    ensures !Matches("0xab01", "0xab02")
  {
    assert Lower("0xab02")[5] == '2';
  }
}
