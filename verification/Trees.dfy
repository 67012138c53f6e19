/** Labelled trees whose siblings have no order. */
module Trees {
  import opened Bags

  datatype Tree<L> = Tree(root: L, kids: seq<Tree<L>>)

  predicate Permutation(p: seq<nat>, n: nat) {
    && |p| == n
    && (forall i :: 0 <= i < n ==> p[i] < n)
    && (forall i, j :: 0 <= i < j < n ==> p[i] != p[j])
  }

  /** Equal up to reordering siblings at every level. */
  ghost predicate Iso<L(!new)>(a: Tree<L>, b: Tree<L>)
    decreases a, 1
  {
    a.root == b.root && |a.kids| == |b.kids| && exists p: seq<nat> :: KidsMatch(p, a, b)
  }

  ghost predicate KidsMatch<L(!new)>(p: seq<nat>, a: Tree<L>, b: Tree<L>)
    requires |a.kids| == |b.kids|
    decreases a, 0
  {
    Permutation(p, |a.kids|) && forall i :: 0 <= i < |a.kids| ==> Iso(a.kids[i], b.kids[p[i]])
  }

  lemma MatchOf<L(!new)>(a: Tree<L>, b: Tree<L>) returns (p: seq<nat>)
    requires Iso(a, b)
    ensures KidsMatch(p, a, b)
  {
    p :| KidsMatch(p, a, b);
  }

  // --- A permutation matches two sequences exactly when they are equal as bags ---

  ghost predicate Matches<K>(p: seq<nat>, s: seq<K>, t: seq<K>) {
    Permutation(p, |s|) && |s| == |t| && forall i :: 0 <= i < |s| ==> s[i] == t[p[i]]
  }

  /** p with the position j taken out of its range. */
  function Closed(p: seq<nat>, j: nat): seq<nat> {
    seq(|p|, i requires 0 <= i < |p| => if p[i] > j then p[i] - 1 else p[i])
  }

  /** p with the position j made free in its range. */
  function Opened(p: seq<nat>, j: nat): seq<nat> {
    seq(|p|, i requires 0 <= i < |p| => if p[i] >= j then p[i] + 1 else p[i])
  }

  lemma {:induction false} MatchedBags<K>(p: seq<nat>, s: seq<K>, t: seq<K>)
    requires Matches(p, s, t)
    ensures multiset(s) == multiset(t)
    decreases |s|
  {
    if s != [] {
      var n := |s| - 1;
      var j := p[n];
      var t' := Without(t, j);
      var p' := Closed(p[..n], j);
      assert forall i :: 0 <= i < n ==> p[i] != j && p'[i] < n && t'[p'[i]] == t[p[i]];
      MatchedBags(p', s[..n], t');
      WithoutBag(t, j);
      assert s == s[..n] + [s[n]];
    }
  }

  lemma {:induction false} BagsMatch<K>(s: seq<K>, t: seq<K>) returns (p: seq<nat>)
    requires multiset(s) == multiset(t)
    ensures Matches(p, s, t)
    decreases |s|
  {
    SameSize(s, t);
    p := [];
    if s != [] {
      var n := |s| - 1;
      var j := Twin(t, s, n);
      assert Without(s, n) == s[..n];
      var q := BagsMatch(s[..n], Without(t, j));
      p := Opened(q, j) + [j];
      OpenedMatches(q, s, t, j);
    }
  }

  lemma OpenedMatches<K>(q: seq<nat>, s: seq<K>, t: seq<K>, j: nat)
    requires |s| == |t| > 0 && j < |t| && s[|s| - 1] == t[j] && Matches(q, s[..|s| - 1], Without(t, j))
    ensures Matches(Opened(q, j) + [j], s, t)
  {
    var p, n := Opened(q, j) + [j], |s| - 1;
    forall i | 0 <= i < n
      ensures p[i] <= n && p[i] != j && s[i] == t[p[i]]
    {
      assert s[i] == s[..n][i] == Without(t, j)[q[i]];
    }
  }

  // --- Keys that tell trees apart up to order ---

  function Keys<L, K>(key: Tree<L> -> K, kids: seq<Tree<L>>): seq<K> {
    seq(|kids|, i requires 0 <= i < |kids| => key(kids[i]))
  }

  lemma KeysCons<L, K>(key: Tree<L> -> K, t: Tree<L>, kids: seq<Tree<L>>)
    ensures Keys(key, [t] + kids) == [key(t)] + Keys(key, kids)
  {
  }

  /** If `key` tells the children of a and b apart exactly up to order, then a and b are
      equal up to order exactly when their labels and their bags of child keys agree. */
  lemma IsoByKeys<L(!new), K>(key: Tree<L> -> K, a: Tree<L>, b: Tree<L>)
    requires forall i, j :: 0 <= i < |a.kids| && 0 <= j < |b.kids| ==>
             (Iso(a.kids[i], b.kids[j]) <==> key(a.kids[i]) == key(b.kids[j]))
    ensures Iso(a, b) <==> a.root == b.root && multiset(Keys(key, a.kids)) == multiset(Keys(key, b.kids))
  {
    var s, t := Keys(key, a.kids), Keys(key, b.kids);
    if Iso(a, b) {
      var p := MatchOf(a, b);
      assert Matches(p, s, t);
      MatchedBags(p, s, t);
    }
    if a.root == b.root && multiset(s) == multiset(t) {
      var p := BagsMatch(s, t);
      assert KidsMatch(p, a, b);
    }
  }

  /** One direction, for a key that only never tells reordered trees apart. */
  lemma IsoKeepsKeys<L(!new), K>(key: Tree<L> -> K, a: Tree<L>, b: Tree<L>)
    requires Iso(a, b)
    requires forall i, j :: 0 <= i < |a.kids| && 0 <= j < |b.kids| && Iso(a.kids[i], b.kids[j]) ==>
             key(a.kids[i]) == key(b.kids[j])
    ensures multiset(Keys(key, a.kids)) == multiset(Keys(key, b.kids))
  {
    var p := MatchOf(a, b);
    MatchedBags(p, Keys(key, a.kids), Keys(key, b.kids));
  }
}
