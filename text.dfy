/**
 String helpers: substring search, the spelling check behind "no atan",
 and Python's `str.lower().startswith(...)`.
 */
module Text {

  /** `p` occurs in `s` as a contiguous substring (Python's `p in s`). */
  predicate Contains(s: string, p: string) {
    exists k :: 0 <= k <= |s| - |p| && OccursAt(s, p, k)
  }

  predicate OccursAt(s: string, p: string, k: int)
    requires 0 <= k <= |s| - |p|
  {
    s[k..k + |p|] == p
  }

  lemma ContainsInMiddle(a: string, p: string, b: string)
    ensures Contains(a + p + b, p)
  {
    var s := a + p + b;
    assert OccursAt(s, p, |a|);
  }

  lemma ContainsPrefix(p: string, q: string)
    ensures Contains(p + q, p)
  {
    assert OccursAt(p + q, p, 0);
  }

  /** A substring of a substring is a substring. */
  lemma ContainsTransitive(s: string, u: string, p: string)
    requires Contains(s, u) && Contains(u, p)
    ensures Contains(s, p)
  {
    var k :| 0 <= k <= |s| - |u| && OccursAt(s, u, k);
    var j :| 0 <= j <= |u| - |p| && OccursAt(u, p, j);
    assert forall i :: 0 <= i < |p| ==> s[k + j + i] == u[j + i] == p[i];
    assert OccursAt(s, p, k + j);
  }

  /** Every letter `a` of `s` starts the word `atn`. */
  predicate AOnlyInAtn(s: string) {
    forall i :: 0 <= i < |s| && s[i] == 'a' ==> i + 2 < |s| && s[i + 1] == 't' && s[i + 2] == 'n'
  }

  /** The property survives concatenation: an `a` of either side is
      followed by its `tn` on the same side. */
  lemma AOnlyInAtnConcat(a: string, b: string)
    requires AOnlyInAtn(a) && AOnlyInAtn(b)
    ensures AOnlyInAtn(a + b)
  {
    forall i | 0 <= i < |a + b| && (a + b)[i] == 'a'
      ensures i + 2 < |a + b| && (a + b)[i + 1] == 't' && (a + b)[i + 2] == 'n'
    {
      if i >= |a| {
        assert (a + b)[i] == b[i - |a|];
      }
    }
  }

  /** Every character of `s` is one of `alphabet`. */
  predicate CharsIn(s: string, alphabet: string) {
    forall i :: 0 <= i < |s| ==> s[i] in alphabet
  }

  /** A string in which every `a` begins `atn` cannot contain `atan`. */
  lemma NoAtan(s: string)
    requires AOnlyInAtn(s)
    ensures !Contains(s, "atan")
  {
    forall k | 0 <= k <= |s| - 4
      ensures !OccursAt(s, "atan", k)
    {
      if s[k] == 'a' {
        assert s[k + 2] == 'n';
      }
    }
  }

  /** ASCII lower-casing of one character. */
  function LowerChar(c: char): (l: char)
    ensures 'A' <= c <= 'Z' ==> 'a' <= l <= 'z' && l as int - c as int == 32
    ensures !('A' <= c <= 'Z') ==> l == c
  {
    if 'A' <= c <= 'Z' then (c as int + 32) as char else c
  }

  function Lower(s: string): (l: string)
    ensures |l| == |s| && forall i :: 0 <= i < |s| ==> l[i] == LowerChar(s[i])
  {
    seq(|s|, i requires 0 <= i < |s| => LowerChar(s[i]))
  }

  predicate StartsWith(s: string, p: string) {
    |p| <= |s| && s[..|p|] == p
  }

  /** `m.lower().startswith(p)`: only the first |p| characters of `m` matter. */
  lemma LowerStartsWithPrefix(a: string, b: string, p: string)
    requires |p| <= |a|
    ensures StartsWith(Lower(a + b), p) <==> StartsWith(Lower(a), p)
  {
    assert Lower(a + b)[..|p|] == Lower(a)[..|p|];
  }

  /** A text whose first letter lowers to something other than the first
      letter of `p` does not start with `p` once lowered. */
  lemma LowerFirstMismatch(a: string, b: string, p: string)
    requires |a| > 0 && |p| > 0 && LowerChar(a[0]) != p[0]
    ensures !StartsWith(Lower(a + b), p)
  {
    assert (a + b)[0] == a[0];
    assert Lower(a + b)[0] != p[0];
  }
}
