/** The summary stored beside a fingerprint, gathered by an explicit-stack walk. */
module PageSummary {
  import opened Text
  import opened Bags
  import opened Sorting
  import opened Trees
  import opened Fingerprint

  const SUMMARY_NAMED_CAP: nat := 50

  type Named = (string, string)

  datatype Summary = Summary(elementCount: nat, roles: map<string, nat>, named: seq<Named>)

  /** The key an element is counted under. */
  function KeyOf(e: Element): string {
    if e.tag != "" then e.tag else e.role
  }

  predicate Lists(e: Element, p: Named) {
    e.name != "" && p.1 == e.name && p.0 == if e.tag != "" then e.tag else e.role
  }

  /** Python's order on [key, name] lists. */
  function PairLe(p: Named, q: Named): bool {
    if p.0 == q.0 then StringLe(p.1, q.1) else StringLe(p.0, q.0)
  }

  lemma PairsAreOrdered()
    ensures TotalOrder(PairLe)
  {
    StringsAreOrdered();
  }

  // --- Recursive definitions ---

  /** The sum of f over a forest. */
  ghost function Total(f: Element -> nat, forest: seq<Node>): nat
    decreases forest
  {
    if forest == [] then 0 else TotalOf(f, forest[0]) + Total(f, forest[1..])
  }

  ghost function TotalOf(f: Element -> nat, n: Node): nat
    decreases n
  {
    f(n.root) + Total(f, n.kids)
  }

  ghost function One(): Element -> nat {
    _ => 1
  }

  ghost function HasKey(k: string): Element -> nat {
    (e: Element) => if (e.tag != "" && e.tag == k) || (e.tag == "" && e.role == k) then 1 else 0
  }

  ghost function HasName(p: Named): Element -> nat {
    e => if Lists(e, p) then 1 else 0
  }

  ghost predicate CountsRoles(roles: map<string, nat>, forest: seq<Node>) {
    forall k :: (k in roles <==> Total(HasKey(k), forest) > 0) && (k in roles ==> roles[k] == Total(HasKey(k), forest))
  }

  ghost predicate ListsNamed(named: seq<Named>, forest: seq<Node>) {
    forall p :: multiset(named)[p] == Total(HasName(p), forest)
  }

  /** The pairs in alphabetical order of keys, and of names under one key. */
  ghost predicate InOrder(named: seq<Named>) {
    forall i, j :: 0 <= i < j < |named| ==> Precedes(named[i], named[j])
  }

  ghost predicate Precedes(p: Named, q: Named) {
    if p.0 == q.0 then Alphabetic(p.1, q.1) else Alphabetic(p.0, q.0)
  }

  lemma SortedExactly(named: seq<Named>)
    ensures InOrder(named) <==> Sorted(PairLe, named)
  {
    forall p: Named, q: Named
      ensures Precedes(p, q) <==> PairLe(p, q)
    {
      AlphabeticExactly(p.0, q.0);
      AlphabeticExactly(p.1, q.1);
    }
  }

  function Capped(named: seq<Named>): seq<Named> {
    if |named| <= SUMMARY_NAMED_CAP then named else named[..SUMMARY_NAMED_CAP]
  }

  /** The first fifty of the forest's named elements, in order. */
  ghost predicate NamesShown(named: seq<Named>, forest: seq<Node>) {
    exists all :: ListsNamed(all, forest) && InOrder(all) && named == if |all| <= 50 then all else all[..50]
  }

  ghost predicate Summarises(s: Summary, forest: seq<Node>) {
    && s.elementCount == Total(One(), forest)
    && CountsRoles(s.roles, forest)
    && NamesShown(s.named, forest)
  }

  // --- The walk ---

  lemma {:induction false} TotalAppend(f: Element -> nat, a: seq<Node>, b: seq<Node>)
    ensures Total(f, a + b) == Total(f, a) + Total(f, b)
    decreases |a|
  {
    if a == [] {
      assert a + b == b;
    } else {
      assert (a + b)[1..] == a[1..] + b;
      TotalAppend(f, a[1..], b);
    }
  }

  /** Popping a node and pushing its children moves its own share out of the stack. */
  lemma Popped(f: Element -> nat, stack: seq<Node>)
    requires stack != []
    ensures var n := stack[|stack| - 1];
            Total(f, stack) == f(n.root) + Total(f, stack[..|stack| - 1] + n.kids)
  {
    var rest, n := stack[..|stack| - 1], stack[|stack| - 1];
    assert stack == rest + [n];
    TotalAppend(f, rest, [n]);
    TotalAppend(f, rest, n.kids);
  }

  /** What the walk has gathered plus what is still on the stack is the whole forest. */
  ghost predicate RolesSoFar(roles: map<string, nat>, stack: seq<Node>, forest: seq<Node>) {
    && (forall k :: k in roles ==> roles[k] > 0)
    && forall k :: (if k in roles then roles[k] else 0) + Total(HasKey(k), stack) == Total(HasKey(k), forest)
  }

  ghost predicate NamedSoFar(named: seq<Named>, stack: seq<Node>, forest: seq<Node>) {
    forall p :: multiset(named)[p] + Total(HasName(p), stack) == Total(HasName(p), forest)
  }

  lemma RolesStep(roles: map<string, nat>, stack: seq<Node>, forest: seq<Node>)
    requires RolesSoFar(roles, stack, forest) && stack != []
    ensures var n := stack[|stack| - 1];
            var key := KeyOf(n.root);
            RolesSoFar(roles[key := (if key in roles then roles[key] else 0) + 1], stack[..|stack| - 1] + n.kids,
                forest)
  {
    forall k {:trigger HasKey(k)}
      ensures Total(HasKey(k), stack) == HasKey(k)(stack[|stack| - 1].root) +
              Total(HasKey(k), stack[..|stack| - 1] + stack[|stack| - 1].kids)
    {
      Popped(HasKey(k), stack);
    }
  }

  lemma NamedStep(named: seq<Named>, stack: seq<Node>, forest: seq<Node>)
    requires NamedSoFar(named, stack, forest) && stack != []
    ensures var n := stack[|stack| - 1];
            NamedSoFar(if n.root.name != "" then named + [(KeyOf(n.root), n.root.name)] else named,
                       stack[..|stack| - 1] + n.kids, forest)
  {
    forall p {:trigger HasName(p)}
      ensures Total(HasName(p), stack) == HasName(p)(stack[|stack| - 1].root) +
              Total(HasName(p), stack[..|stack| - 1] + stack[|stack| - 1].kids)
    {
      Popped(HasName(p), stack);
    }
  }

  /** `_fingerprint_from_tree`: the digest, and the summary by a loop over a stack. */
  method FingerprintFromTree(h: string -> string, children: seq<Node>) returns (sha: string, summary: Summary)
    ensures sha == Hash(h, Tree(Element("", "", ""), children))
    ensures Summarises(summary, children)
  {
    sha := Hash(h, Tree(PAGE, children));
    var roles: map<string, nat> := map[];
    var named: seq<Named> := [];
    var count := 0;
    var stack := children;
    while stack != []
      invariant count + Total(One(), stack) == Total(One(), children)
      invariant RolesSoFar(roles, stack, children)
      invariant NamedSoFar(named, stack, children)
      decreases Total(One(), stack)
    {
      var n := stack[|stack| - 1];
      Popped(One(), stack);
      RolesStep(roles, stack, children);
      NamedStep(named, stack, children);
      stack := stack[..|stack| - 1] + n.kids;
      count := count + 1;
      var key := KeyOf(n.root);
      roles := roles[key := (if key in roles then roles[key] else 0) + 1];
      if n.root.name != "" {
        named := named + [(key, n.root.name)];
      }
    }
    SortedNamesShown(named, children);
    summary := Summary(count, roles, Capped(Sort(PairLe, named)));
  }

  lemma SortedNamesShown(named: seq<Named>, forest: seq<Node>)
    requires ListsNamed(named, forest)
    ensures NamesShown(Capped(Sort(PairLe, named)), forest)
  {
    PairsAreOrdered();
    SortSorts(PairLe, named);
    var all := Sort(PairLe, named);
    SortedExactly(all);
    assert ListsNamed(all, forest);
  }

  // --- Equal fingerprints have equal summaries ---

  ghost function Sum(s: seq<nat>): nat {
    if s == [] then 0 else s[0] + Sum(s[1..])
  }

  lemma {:induction false} SumWithout(s: seq<nat>, i: nat)
    requires i < |s|
    ensures Sum(s) == s[i] + Sum(Without(s, i))
  {
    if i == 0 {
      assert Without(s, i) == s[1..];
    } else {
      SumWithout(s[1..], i - 1);
      assert Without(s, i)[1..] == Without(s[1..], i - 1);
    }
  }

  lemma {:induction false} SumOfBag(s: seq<nat>, t: seq<nat>)
    requires multiset(s) == multiset(t)
    ensures Sum(s) == Sum(t)
    decreases |s|
  {
    SameSize(s, t);
    if s != [] {
      var i := Twin(s, t, 0);
      SumWithout(s, i);
      SumWithout(t, 0);
      SumOfBag(Without(s, i), Without(t, 0));
    }
  }

  ghost function Totals(f: Element -> nat): Node -> nat {
    n => TotalOf(f, n)
  }

  lemma {:induction false} TotalIsSum(f: Element -> nat, forest: seq<Node>)
    ensures Total(f, forest) == Sum(Keys(Totals(f), forest))
  {
    if forest != [] {
      TotalIsSum(f, forest[1..]);
      assert Keys(Totals(f), forest)[1..] == Keys(Totals(f), forest[1..]);
    }
  }

  lemma {:induction false} OrderKeepsTotals(f: Element -> nat, a: Node, b: Node)
    requires Iso(a, b)
    ensures TotalOf(f, a) == TotalOf(f, b)
    decreases a
  {
    forall i, j | 0 <= i < |a.kids| && 0 <= j < |b.kids| && Iso(a.kids[i], b.kids[j])
      ensures Totals(f)(a.kids[i]) == Totals(f)(b.kids[j])
    {
      OrderKeepsTotals(f, a.kids[i], b.kids[j]);
    }
    IsoKeepsKeys(Totals(f), a, b);
    TotalIsSum(f, a.kids);
    TotalIsSum(f, b.kids);
    SumOfBag(Keys(Totals(f), a.kids), Keys(Totals(f), b.kids));
  }

  lemma NamedIsUnique(s: seq<Named>, t: seq<Named>, a: seq<Node>, b: seq<Node>)
    requires ListsNamed(s, a) && ListsNamed(t, b) && Sorted(PairLe, s) && Sorted(PairLe, t)
    requires forall p :: Total(HasName(p), a) == Total(HasName(p), b)
    ensures s == t
  {
    PairsAreOrdered();
    assert forall p :: multiset(s)[p] == Total(HasName(p), a) == Total(HasName(p), b) == multiset(t)[p];
    assert multiset(s) == multiset(t);
    SortedUnique(PairLe, s, t);
  }

  /** Pages that differ only in the order of siblings have one summary. */
  lemma OrderKeepsSummary(s: Summary, t: Summary, a: Node, b: Node)
    requires Iso(a, b) && Summarises(s, a.kids) && Summarises(t, b.kids)
    ensures s == t
  {
    forall f: Element -> nat
      ensures Total(f, a.kids) == Total(f, b.kids)
    {
      OrderKeepsTotals(f, a, b);
    }
    assert s.roles == t.roles;
    assert forall p :: Total(HasName(p), a.kids) == Total(HasName(p), b.kids);
    NamesShownOnce(s.named, t.named, a.kids, b.kids);
  }

  lemma NamesShownOnce(s: seq<Named>, t: seq<Named>, a: seq<Node>, b: seq<Node>)
    requires NamesShown(s, a) && NamesShown(t, b) && forall p :: Total(HasName(p), a) == Total(HasName(p), b)
    ensures s == t
  {
    var p :| ListsNamed(p, a) && InOrder(p) && s == if |p| <= 50 then p else p[..50];
    var q :| ListsNamed(q, b) && InOrder(q) && t == if |q| <= 50 then q else q[..50];
    SortedExactly(p);
    SortedExactly(q);
    NamedIsUnique(p, q, a, b);
  }

  /** Equal fingerprints have equal summaries. */
  lemma EqualHashesEqualSummaries(h: string -> string, a: seq<Node>, b: seq<Node>, s: Summary, t: Summary)
    requires HexValued(h) && NoCollision(h, Blur(Tree(PAGE, a)), Blur(Tree(PAGE, b)))
    requires AllPlain(Tree(PAGE, a)) && AllPlain(Tree(PAGE, b))
    requires Hash(h, Tree(PAGE, a)) == Hash(h, Tree(PAGE, b))
    requires Summarises(s, a) && Summarises(t, b)
    ensures s == t
  {
    FingerprintDecides(h, Tree(PAGE, a), Tree(PAGE, b));
    OrderKeepsSummary(s, t, Tree(PAGE, a), Tree(PAGE, b));
  }
}
