/** Sequences as bags: taking one element out and finding its twin in a reordering. */
module Bags {

  function Without<T>(s: seq<T>, i: nat): seq<T>
    requires i < |s|
  {
    s[..i] + s[i + 1..]
  }

  lemma WithoutBag<T>(s: seq<T>, i: nat)
    requires i < |s|
    ensures multiset(s) == multiset(Without(s, i)) + multiset{s[i]}
  {
    assert s == s[..i] + [s[i]] + s[i + 1..];
  }

  /** A reordering holds the same elements, so any one of them can be matched. */
  lemma Twin<T>(s: seq<T>, t: seq<T>, j: nat) returns (i: nat)
    requires multiset(s) == multiset(t) && j < |t|
    ensures i < |s| && s[i] == t[j]
    ensures multiset(Without(s, i)) == multiset(Without(t, j))
  {
    assert t[j] in multiset(s);
    i :| i < |s| && s[i] == t[j];
    WithoutBag(s, i);
    WithoutBag(t, j);
    assert multiset(Without(s, i)) == multiset(s) - multiset{s[i]};
    assert multiset(Without(t, j)) == multiset(t) - multiset{t[j]};
  }

  lemma SameSize<T>(s: seq<T>, t: seq<T>)
    requires multiset(s) == multiset(t)
    ensures |s| == |t|
  {
    assert |multiset(s)| == |s| && |multiset(t)| == |t|;
  }
}
