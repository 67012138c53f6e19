/** Sorting by a total order gives every bag one canonical sequence. */
module Sorting {
  import opened Bags

  ghost predicate TotalOrder<T(!new)>(le: (T, T) -> bool) {
    && (forall x, y :: le(x, y) || le(y, x))
    && (forall x, y :: le(x, y) && le(y, x) ==> x == y)
    && (forall x, y, z :: le(x, y) && le(y, z) ==> le(x, z))
  }

  function Insert<T>(le: (T, T) -> bool, x: T, s: seq<T>): seq<T> {
    if s == [] then [x] else if le(x, s[0]) then [x] + s else [s[0]] + Insert(le, x, s[1..])
  }

  function Sort<T>(le: (T, T) -> bool, s: seq<T>): seq<T> {
    if s == [] then [] else Insert(le, s[0], Sort(le, s[1..]))
  }

  predicate Sorted<T>(le: (T, T) -> bool, s: seq<T>) {
    forall i, j :: 0 <= i < j < |s| ==> le(s[i], s[j])
  }

  lemma {:induction false} InsertBag<T>(le: (T, T) -> bool, x: T, s: seq<T>)
    ensures multiset(Insert(le, x, s)) == multiset{x} + multiset(s)
  {
    if s != [] {
      InsertBag(le, x, s[1..]);
      assert s == [s[0]] + s[1..];
    }
  }

  lemma {:induction false} InsertSorts<T(!new)>(le: (T, T) -> bool, x: T, s: seq<T>)
    requires TotalOrder(le) && Sorted(le, s)
    ensures Sorted(le, Insert(le, x, s))
  {
    if s != [] && !le(x, s[0]) {
      InsertSorts(le, x, s[1..]);
      InsertBag(le, x, s[1..]);
      var rest := Insert(le, x, s[1..]);
      forall i | 0 <= i < |rest|
        ensures le(s[0], rest[i])
      {
        assert rest[i] in multiset(rest);
        assert rest[i] == x || rest[i] in s[1..];
      }
    }
  }

  lemma {:induction false} SortSorts<T(!new)>(le: (T, T) -> bool, s: seq<T>)
    requires TotalOrder(le)
    ensures Sorted(le, Sort(le, s)) && multiset(Sort(le, s)) == multiset(s)
  {
    if s != [] {
      SortSorts(le, s[1..]);
      InsertSorts(le, s[0], Sort(le, s[1..]));
      InsertBag(le, s[0], Sort(le, s[1..]));
      assert s == [s[0]] + s[1..];
    }
  }

  lemma LeastFirst<T(!new)>(le: (T, T) -> bool, s: seq<T>, t: seq<T>)
    requires TotalOrder(le) && Sorted(le, s) && multiset(s) == multiset(t) && |s| > 0 && |t| > 0
    ensures le(s[0], t[0])
  {
    var i := Twin(s, t, 0);
  }

  /** A bag has one sorted arrangement. */
  lemma {:induction false} SortedUnique<T(!new)>(le: (T, T) -> bool, s: seq<T>, t: seq<T>)
    requires TotalOrder(le) && Sorted(le, s) && Sorted(le, t) && multiset(s) == multiset(t)
    ensures s == t
    decreases |s|
  {
    SameSize(s, t);
    if s != [] {
      LeastFirst(le, s, t);
      LeastFirst(le, t, s);
      assert Without(s, 0) == s[1..] && Without(t, 0) == t[1..];
      WithoutBag(s, 0);
      WithoutBag(t, 0);
      assert multiset(s[1..]) == multiset(s) - multiset{s[0]} == multiset(t[1..]);
      SortedUnique(le, s[1..], t[1..]);
    }
  }

  lemma SortIsCanonical<T(!new)>(le: (T, T) -> bool, s: seq<T>, t: seq<T>)
    requires TotalOrder(le)
    ensures Sort(le, s) == Sort(le, t) <==> multiset(s) == multiset(t)
  {
    SortSorts(le, s);
    SortSorts(le, t);
    if multiset(s) == multiset(t) {
      SortedUnique(le, Sort(le, s), Sort(le, t));
    }
  }

  // --- Lexicographic order ---

  function LexLe<T(==)>(le: (T, T) -> bool, s: seq<T>, t: seq<T>): bool {
    s == [] || (t != [] && if s[0] == t[0] then LexLe(le, s[1..], t[1..]) else le(s[0], t[0]))
  }

  lemma {:induction false} LexTotal<T(!new)>(le: (T, T) -> bool, s: seq<T>, t: seq<T>)
    requires TotalOrder(le)
    ensures LexLe(le, s, t) || LexLe(le, t, s)
    ensures LexLe(le, s, t) && LexLe(le, t, s) ==> s == t
  {
    if s != [] && t != [] && s[0] == t[0] {
      LexTotal(le, s[1..], t[1..]);
      assert s == [s[0]] + s[1..] && t == [t[0]] + t[1..];
    }
  }

  lemma {:induction false} LexTransitive<T(!new)>(le: (T, T) -> bool, s: seq<T>, t: seq<T>, u: seq<T>)
    requires TotalOrder(le) && LexLe(le, s, t) && LexLe(le, t, u)
    ensures LexLe(le, s, u)
  {
    if s != [] && s[0] == t[0] == u[0] {
      LexTransitive(le, s[1..], t[1..], u[1..]);
    }
  }

  function CharLe(a: char, b: char): bool {
    a <= b
  }

  /** Python's order on strings. */
  function StringLe(s: string, t: string): bool {
    LexLe(CharLe, s, t)
  }

  lemma StringsAreOrdered()
    ensures TotalOrder(StringLe)
  {
    assert TotalOrder(CharLe);
    forall s, t
      ensures (StringLe(s, t) || StringLe(t, s)) && (StringLe(s, t) && StringLe(t, s) ==> s == t)
    {
      LexTotal(CharLe, s, t);
    }
    forall s, t, u | StringLe(s, t) && StringLe(t, u)
      ensures StringLe(s, u)
    {
      LexTransitive(CharLe, s, t, u);
    }
  }

  /** s is a front part of t, or smaller at the first character where they differ. */
  ghost predicate Alphabetic(s: string, t: string) {
    s <= t || exists i: nat :: SmallerAt(s, t, i)
  }

  ghost predicate SmallerAt(s: string, t: string, i: nat) {
    i < |s| && i < |t| && s[..i] == t[..i] && s[i] < t[i]
  }

  lemma {:induction false} AlphabeticExactly(s: string, t: string)
    ensures StringLe(s, t) <==> Alphabetic(s, t)
  {
    if s != [] && t != [] && s[0] == t[0] {
      AlphabeticExactly(s[1..], t[1..]);
      AlphabeticTail(s, t);
    } else if s != [] && t != [] && s[0] < t[0] {
      assert SmallerAt(s, t, 0);
    }
  }

  lemma AlphabeticTail(s: string, t: string)
    requires s != [] && t != [] && s[0] == t[0]
    ensures Alphabetic(s, t) <==> Alphabetic(s[1..], t[1..])
  {
    assert s == [s[0]] + s[1..] && t == [t[0]] + t[1..];
    if i: nat :| SmallerAt(s, t, i) {
      assert s[1..][..i - 1] == s[..i][1..] && t[1..][..i - 1] == t[..i][1..];
      assert SmallerAt(s[1..], t[1..], i - 1);
    }
    if i: nat :| SmallerAt(s[1..], t[1..], i) {
      assert s[..i + 1] == [s[0]] + s[1..][..i] && t[..i + 1] == [t[0]] + t[1..][..i];
      assert SmallerAt(s, t, i + 1);
    }
  }
}
