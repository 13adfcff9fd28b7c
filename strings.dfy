/**
 * The two string tests the worker relies on: `startsWith` (the admin check)
 * and `includes` (the generation check during activation), each defined the
 * way a character-by-character scan computes it and proved equal to the
 * definition by slices and occurrences.
 */
module Strings {

  /** `s.startsWith(p)`, compared one character at a time. */
  predicate StartsWith(s: string, p: string)
    decreases |p|
  {
    p == [] || (s != [] && s[0] == p[0] && StartsWith(s[1..], p[1..]))
  }

  /** The scan agrees with "p is the first |p| characters of s". */
  lemma {:induction false} StartsWithIsPrefix(s: string, p: string)
    ensures StartsWith(s, p) <==> |p| <= |s| && s[..|p|] == p
    decreases |p|
  {
    if p != [] && s != [] {
      StartsWithIsPrefix(s[1..], p[1..]);
      if |p| <= |s| && s[..|p|] == p {
        assert s[0] == p[0];
        assert s[1..][..|p| - 1] == s[..|p|][1..];
      }
      if StartsWith(s, p) {
        assert s[..|p|] == [s[0]] + s[1..][..|p| - 1];
        assert p == [p[0]] + p[1..];
      }
    }
  }

  /** `s.includes(sub)`: some suffix of s starts with sub. */
  predicate Contains(s: string, sub: string)
    decreases |s|
  {
    StartsWith(s, sub) || (s != [] && Contains(s[1..], sub))
  }

  /** sub occurs in s at position i. */
  predicate OccursAt(s: string, sub: string, i: nat)
  {
    i <= |s| && StartsWith(s[i..], sub)
  }

  /** `includes` holds exactly when there is a position where sub occurs. */
  lemma {:induction false} ContainsIffOccurs(s: string, sub: string)
    ensures Contains(s, sub) <==> exists i: nat :: OccursAt(s, sub, i)
    decreases |s|
  {
    assert s[0..] == s;
    if StartsWith(s, sub) {
      assert OccursAt(s, sub, 0);
    }
    if s != [] {
      ContainsIffOccurs(s[1..], sub);
      if Contains(s[1..], sub) {
        var i: nat :| OccursAt(s[1..], sub, i);
        assert s[1..][i..] == s[i + 1..];
        assert OccursAt(s, sub, i + 1);
      }
      if i: nat :| OccursAt(s, sub, i) {
        if i > 0 {
          assert s[1..][i - 1..] == s[i..];
          assert OccursAt(s[1..], sub, i - 1);
        }
      }
    }
  }

  /** A string built as a + b + c includes b. */
  lemma {:induction false} ContainsInfix(a: string, b: string, c: string)
    ensures Contains(a + b + c, b)
    decreases |a|
  {
    if a == [] {
      assert a + b + c == b + c;
      assert (b + c)[..|b|] == b;
      StartsWithIsPrefix(b + c, b);
    } else {
      ContainsInfix(a[1..], b, c);
      assert (a + b + c)[1..] == a[1..] + b + c;
    }
  }
}
