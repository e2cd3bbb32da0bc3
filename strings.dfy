/**
 * JavaScript's `String.prototype.includes`, the only string primitive the
 * scoring engine relies on: a case-sensitive search for a contiguous
 * occurrence of one string inside another.
 */
module Strings {

  /** `p` occurs in `s` starting at index `k`. */
  predicate OccursAt(s: string, p: string, k: int)
  {
    0 <= k && k + |p| <= |s| && s[k..k + |p|] == p
  }

  /** `s.includes(p)`: some position of `s` starts an occurrence of `p`. */
  predicate Includes(s: string, p: string)
    ensures Includes(s, p) ==> |p| <= |s|
    ensures p == [] ==> Includes(s, p)
  {
    assert p == [] ==> OccursAt(s, p, 0);
    exists k | 0 <= k <= |s| - |p| :: OccursAt(s, p, k)
  }

  /** Every string includes itself. */
  lemma IncludesSelf(p: string)
    ensures Includes(p, p)
  {
    assert p[0..|p|] == p;
    assert OccursAt(p, p, 0);
  }

  /** A string is included in anything written around it. */
  lemma IncludesInfix(a: string, p: string, b: string)
    ensures Includes(a + p + b, p)
  {
    var s := a + p + b;
    assert s[|a|..|a| + |p|] == p;
    assert OccursAt(s, p, |a|);
  }

  /** A pattern longer than the text is never included. */
  lemma NotIncludesLonger(s: string, p: string)
    requires |s| < |p|
    ensures !Includes(s, p)
  {
  }

  /** A pattern holding a character that does not occur in the text is never included. */
  lemma NotIncludesCharAbsent(s: string, p: string, j: int)
    requires 0 <= j < |p| && p[j] !in s
    ensures !Includes(s, p)
  {
    forall k | 0 <= k <= |s| - |p|
      ensures !OccursAt(s, p, k)
    {
      assert s[k..k + |p|][j] == s[k + j];
    }
  }

  /** A non-empty pattern whose first character does not occur in the text is never included. */
  lemma NotIncludesFirstAbsent(s: string, p: string)
    requires |p| > 0 && p[0] !in s
    ensures !Includes(s, p)
  {
    NotIncludesCharAbsent(s, p, 0);
  }
}
