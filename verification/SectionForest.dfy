/** The sections page: flattening a forest given by parent references, which may dangle or
    run in circles. A row is named by its position in the query result. */
module SectionForest {
  import opened Text

  datatype Section = Section(id: string, name: string, parent: Option<string>)

  datatype Entry = Entry(id: string, name: string, parent: Option<string>, depth: nat)

  type Sections = seq<Section>

  predicate UniqueIds(rows: Sections) {
    forall i, j :: 0 <= i < j < |rows| ==> rows[i].id != rows[j].id
  }

  // --- Chains of parents ---

  /** The parent reference of the rows below a chain. */
  function Key(rows: Sections, c: seq<nat>): Option<string>
    requires c != [] ==> c[|c| - 1] < |rows|
  {
    if c == [] then None else Some(rows[c[|c| - 1]].id)
  }

  /** Rows from a top-level one downwards, each the parent of the next. */
  predicate Chain(rows: Sections, c: seq<nat>)
    decreases |c|
  {
    c == [] ||
    var front, last := c[..|c| - 1], c[|c| - 1];
    Chain(rows, front) && last < |rows| && rows[last].parent == Key(rows, front)
  }

  lemma {:induction false} FrontOfChain(rows: Sections, c: seq<nat>, k: nat)
    requires Chain(rows, c) && k <= |c|
    ensures Chain(rows, c[..k])
  {
    if k == |c| {
      assert c[..k] == c;
    } else {
      FrontOfChain(rows, c[..|c| - 1], k);
      assert c[..|c| - 1][..k] == c[..k];
    }
  }

  /** A row hangs below one chain only. */
  lemma {:induction false} ChainUnique(rows: Sections, c: seq<nat>, d: seq<nat>)
    requires UniqueIds(rows) && Chain(rows, c) && Chain(rows, d) && c != [] && d != []
    requires c[|c| - 1] == d[|d| - 1]
    ensures c == d
    decreases |c|
  {
    var c', d' := c[..|c| - 1], d[..|d| - 1];
    assert Key(rows, c') == Key(rows, d');
    if c' != [] && d' != [] {
      ChainUnique(rows, c', d');
    }
    assert c == c' + [c[|c| - 1]] && d == d' + [d[|d| - 1]];
  }

  /** So a chain never comes back to a row: circles of parents are not on any chain. */
  lemma ChainRepeatsNothing(rows: Sections, c: seq<nat>, j: nat, k: nat)
    requires UniqueIds(rows) && Chain(rows, c) && j < k < |c|
    ensures c[j] != c[k]
  {
    FrontOfChain(rows, c, j + 1);
    FrontOfChain(rows, c, k + 1);
    if c[j] == c[k] {
      ChainUnique(rows, c[..j + 1], c[..k + 1]);
    }
  }

  /** A sequence of different positions is no longer than the table. */
  lemma {:induction false} Pigeonhole(c: seq<nat>, n: nat)
    requires forall k :: 0 <= k < |c| ==> c[k] < n
    requires forall j, k :: 0 <= j < k < |c| ==> c[j] != c[k]
    ensures |c| <= n
    decreases n
  {
    if c != [] {
      assert c[0] < n;
      if exists k :: 0 <= k < |c| && c[k] == n - 1 {
        var k :| 0 <= k < |c| && c[k] == n - 1;
        Pigeonhole(c[..k] + c[k + 1..], n - 1);
      } else {
        Pigeonhole(c, n - 1);
      }
    }
  }

  lemma ChainInTable(rows: Sections, c: seq<nat>)
    requires Chain(rows, c)
    ensures forall k :: 0 <= k < |c| ==> c[k] < |rows|
  {
    forall k | 0 <= k < |c|
      ensures c[k] < |rows|
    {
      FrontOfChain(rows, c, k + 1);
    }
  }

  lemma ChainFits(rows: Sections, c: seq<nat>)
    requires UniqueIds(rows) && Chain(rows, c)
    ensures |c| <= |rows|
  {
    forall j, k | 0 <= j < k < |c|
      ensures c[j] != c[k]
    {
      ChainRepeatsNothing(rows, c, j, k);
    }
    ChainInTable(rows, c);
    Pigeonhole(c, |rows|);
  }

  // --- The listing ---

  /** The children of a parent reference among the first n rows, in query order. */
  function Children(rows: Sections, parent: Option<string>, n: nat): seq<nat>
    requires n <= |rows|
  {
    if n == 0 then []
    else Children(rows, parent, n - 1) + if rows[n - 1].parent == parent then [n - 1] else []
  }

  /** All rows under the reference among the first n, in query order. */
  ghost predicate ChildList(rows: Sections, parent: Option<string>, n: nat, kids: seq<nat>)
    requires n <= |rows|
  {
    && (forall k :: 0 <= k < |kids| ==> kids[k] < n && rows[kids[k]].parent == parent)
    && Increasing(kids)
    && (forall i :: 0 <= i < n && rows[i].parent == parent ==> i in kids)
  }

  predicate Increasing(kids: seq<nat>) {
    forall j, k :: 0 <= j < k < |kids| ==> kids[j] < kids[k]
  }

  lemma {:induction false} ChildrenInOrder(rows: Sections, parent: Option<string>, n: nat)
    requires n <= |rows|
    ensures ChildList(rows, parent, n, Children(rows, parent, n))
  {
    if n > 0 {
      ChildrenInOrder(rows, parent, n - 1);
    }
  }

  function Below(rows: Sections, c: seq<nat>): (kids: seq<nat>)
    requires Chain(rows, c)
    ensures KidsOf(rows, c, kids)
  {
    ChildrenInOrder(rows, Key(rows, c), |rows|);
    Children(rows, Key(rows, c), |rows|)
  }

  /** Children of the last row of c. */
  predicate KidsOf(rows: Sections, c: seq<nat>, kids: seq<nat>)
    requires Chain(rows, c)
  {
    forall k :: 0 <= k < |kids| ==> kids[k] < |rows| && rows[kids[k]].parent == Key(rows, c)
  }

  lemma ChildChain(rows: Sections, c: seq<nat>, kid: nat)
    requires UniqueIds(rows) && Chain(rows, c) && kid < |rows| && rows[kid].parent == Key(rows, c)
    ensures Chain(rows, c + [kid]) && |c| < |rows|
  {
    assert (c + [kid])[..|c|] == c;
    ChainFits(rows, c + [kid]);
  }

  /** The chains through c and one of `kids`, each child before what hangs below it. */
  ghost function Listing(rows: Sections, c: seq<nat>, kids: seq<nat>): seq<seq<nat>>
    requires UniqueIds(rows) && Chain(rows, c)
    requires KidsOf(rows, c, kids)
    decreases |rows| - |c|, |kids|
  {
    if kids == [] then []
    else
      var d := c + [kids[0]];
      ChildChain(rows, c, kids[0]);
      [d] + Listing(rows, d, Below(rows, d)) + Listing(rows, c, kids[1..])
  }

  function EntryOf(rows: Sections, c: seq<nat>): Entry
    requires Chain(rows, c) && c != []
  {
    var r := rows[c[|c| - 1]];
    Entry(r.id, r.name, r.parent, |c| - 1)
  }

  /** The entries of a listing, as the walk appends them. */
  ghost function Shown(rows: Sections, c: seq<nat>, kids: seq<nat>): seq<Entry>
    requires UniqueIds(rows) && Chain(rows, c)
    requires KidsOf(rows, c, kids)
    decreases |rows| - |c|, |kids|
  {
    if kids == [] then []
    else
      var d := c + [kids[0]];
      ChildChain(rows, c, kids[0]);
      [EntryOf(rows, d)] + Shown(rows, d, Below(rows, d)) + Shown(rows, c, kids[1..])
  }

  // --- Preorder ---

  /** a comes before b in preorder with siblings in query order: a is a proper front of b, or
      the smaller at the first place they differ. */
  ghost predicate Before(a: seq<nat>, b: seq<nat>) {
    exists k :: 0 <= k <= |a| && k < |b| && a[..k] == b[..k] && (k == |a| || a[k] < b[k])
  }

  ghost predicate InPreorder(cs: seq<seq<nat>>) {
    forall i, j :: 0 <= i < j < |cs| ==> Before(cs[i], cs[j])
  }

  ghost predicate Passes(c: seq<nat>, kids: seq<nat>, d: seq<nat>) {
    |d| > |c| && d[..|c|] == c && d[|c|] in kids
  }

  lemma {:induction false} ListingMembers(rows: Sections, c: seq<nat>, kids: seq<nat>)
    requires UniqueIds(rows) && Chain(rows, c)
    requires KidsOf(rows, c, kids)
    ensures forall d :: d in Listing(rows, c, kids) <==> Chain(rows, d) && Passes(c, kids, d)
    decreases |rows| - |c|, |kids|
  {
    if kids != [] {
      var d := c + [kids[0]];
      ChildChain(rows, c, kids[0]);
      ListingMembers(rows, d, Below(rows, d));
      ListingMembers(rows, c, kids[1..]);
      forall e
        ensures e in Listing(rows, c, kids) <==> Chain(rows, e) && Passes(c, kids, e)
      {
        MembersStep(rows, c, kids, e);
      }
    }
  }

  /** The chains through d are d itself and the chains through its children. */
  lemma ThroughOrBelow(rows: Sections, d: seq<nat>, e: seq<nat>)
    requires UniqueIds(rows) && Chain(rows, d) && Chain(rows, e) && |e| >= |d| && e[..|d|] == d
    ensures e == d || Passes(d, Below(rows, d), e)
  {
    if |e| > |d| {
      FrontOfChain(rows, e, |d| + 1);
      ChildrenInOrder(rows, Key(rows, d), |rows|);
      assert e[..|d| + 1][..|d|] == d;
    } else {
      assert e[..|d|] == e;
    }
  }

  lemma MembersStep(rows: Sections, c: seq<nat>, kids: seq<nat>, e: seq<nat>)
    requires UniqueIds(rows) && Chain(rows, c) && kids != []
    requires KidsOf(rows, c, kids)
    ensures var d := c + [kids[0]];
            Chain(rows, d) &&
            (Chain(rows, e) && Passes(c, kids, e) <==>
             e == d || (Chain(rows, e) && Passes(d, Below(rows, d), e)) || (Chain(rows, e) && Passes(c, kids[1..], e)))
  {
    var d := c + [kids[0]];
    assert d[..|c|] == c;
    assert kids == [kids[0]] + kids[1..];
    if Chain(rows, e) && Passes(c, kids, e) && e[|c|] == kids[0] {
      assert e[..|d|] == d;
      ThroughOrBelow(rows, d, e);
    }
    if Passes(d, Below(rows, d), e) {
      assert e[..|c|] == e[..|d|][..|c|] == c;
      assert e[|c|] == e[..|d|][|c|] == kids[0];
    }
  }

  ghost predicate Through(c: seq<nat>, kid: nat, e: seq<nat>) {
    |e| > |c| && e[..|c|] == c && e[|c|] == kid
  }

  lemma PassesThrough(c: seq<nat>, kid: nat, kids: seq<nat>, e: seq<nat>)
    requires Passes(c + [kid], kids, e)
    ensures Before(c + [kid], e) && Through(c, kid, e)
  {
    var d := c + [kid];
    assert e[..|d|] == d && d[..|d|] == d;
    assert e[..|c|] == e[..|d|][..|c|] == c;
    assert e[|c|] == e[..|d|][|c|];
  }

  lemma PassingInOrder(c: seq<nat>, a: seq<nat>, b: seq<nat>)
    requires |a| > |c| && |b| > |c| && a[..|c|] == c && b[..|c|] == c && a[|c|] < b[|c|]
    ensures Before(a, b)
  {
  }

  lemma InnerThrough(c: seq<nat>, kid: nat, kids: seq<nat>, inner: seq<seq<nat>>)
    requires forall e :: e in inner ==> Passes(c + [kid], kids, e)
    ensures forall e :: e in inner ==> Before(c + [kid], e) && Through(c, kid, e)
  {
    forall e | e in inner
      ensures Before(c + [kid], e) && Through(c, kid, e)
    {
      PassesThrough(c, kid, kids, e);
    }
  }

  lemma LaterThrough(c: seq<nat>, kids: seq<nat>, later: seq<seq<nat>>)
    requires kids != [] && Increasing(kids) && forall e :: e in later ==> Passes(c, kids[1..], e)
    ensures forall e :: e in later ==> |e| > |c| && e[..|c|] == c && kids[0] < e[|c|]
  {
  }

  /** The listing is in preorder, so nothing is listed twice. */
  lemma {:induction false} ListingInOrder(rows: Sections, c: seq<nat>, kids: seq<nat>)
    requires UniqueIds(rows) && Chain(rows, c)
    requires KidsOf(rows, c, kids)
    requires Increasing(kids)
    ensures InPreorder(Listing(rows, c, kids))
    decreases |rows| - |c|, |kids|
  {
    if kids != [] {
      var d := c + [kids[0]];
      ChildChain(rows, c, kids[0]);
      var inner, later := Listing(rows, d, Below(rows, d)), Listing(rows, c, kids[1..]);
      ChildrenInOrder(rows, Key(rows, d), |rows|);
      ListingInOrder(rows, d, Below(rows, d));
      ListingInOrder(rows, c, kids[1..]);
      ListingMembers(rows, d, Below(rows, d));
      ListingMembers(rows, c, kids[1..]);
      InnerThrough(c, kids[0], Below(rows, d), inner);
      LaterThrough(c, kids, later);
      Concatenated(c, d, inner, later, kids[0]);
    }
  }

  lemma Concatenated(c: seq<nat>, d: seq<nat>, inner: seq<seq<nat>>, later: seq<seq<nat>>, kid: nat)
    requires d == c + [kid]
    requires InPreorder(inner) && InPreorder(later)
    requires forall e :: e in inner ==> Before(d, e) && Through(c, kid, e)
    requires forall e :: e in later ==> |e| > |c| && e[..|c|] == c && kid < e[|c|]
    ensures InPreorder([d] + inner + later)
  {
    var cs := [d] + inner + later;
    forall i, j | 0 <= i < j < |cs|
      ensures Before(cs[i], cs[j])
    {
      if j > |inner| {
        assert cs[j] in later;
        if i <= |inner| {
          assert i > 0 ==> cs[i] in inner;
          assert d[..|c|] == c;
          PassingInOrder(c, cs[i], cs[j]);
        }
      } else {
        assert cs[j] in inner;
      }
    }
  }

  lemma NotBeforeItself(a: seq<nat>)
    ensures !Before(a, a)
  {
  }

  // --- The page's walk ---

  function Group(groups: map<Option<string>, seq<nat>>, p: Option<string>): seq<nat> {
    if p in groups then groups[p] else []
  }

  /** The rows so far, grouped by their parent reference. */
  ghost predicate Grouped(rows: Sections, groups: map<Option<string>, seq<nat>>, n: nat)
    requires n <= |rows|
  {
    forall p :: Group(groups, p) == Children(rows, p, n)
  }

  lemma GroupOneMore(rows: Sections, groups: map<Option<string>, seq<nat>>, n: nat)
    requires n < |rows| && Grouped(rows, groups, n)
    ensures Grouped(rows, groups[rows[n].parent := Group(groups, rows[n].parent) + [n]], n + 1)
  {
    var after := groups[rows[n].parent := Group(groups, rows[n].parent) + [n]];
    forall p
      ensures Group(after, p) == Children(rows, p, n + 1)
    {
      assert Children(rows, p, n) + [] == Children(rows, p, n);
      assert Group(after, p) == if p == rows[n].parent then Group(groups, p) + [n] else Group(groups, p);
    }
  }

  class SectionList {
    const rows: Sections
    var byParent: map<Option<string>, seq<nat>>
    var flat: seq<Entry>

    constructor (rows: Sections)
      ensures this.rows == rows && flat == [] && Grouped(rows, byParent, |rows|)
    {
      this.rows, flat := rows, [];
      var groups: map<Option<string>, seq<nat>> := map[];
      for i := 0 to |rows|
        invariant Grouped(rows, groups, i)
      {
        GroupOneMore(rows, groups, i);
        var p := rows[i].parent;
        if p !in groups {
          groups := groups[p := []];
        }
        groups := groups[p := groups[p] + [i]];
      }
      byParent := groups;
    }

    /** Appends everything below a row; c is the chain that leads to it. */
    method Walk(parent: Option<string>, depth: nat, ghost c: seq<nat>)
      requires UniqueIds(rows) && Grouped(rows, byParent, |rows|)
      requires Chain(rows, c) && parent == Key(rows, c) && depth == |c|
      modifies this`flat
      ensures flat == old(flat) + Shown(rows, c, Below(rows, c))
      decreases |rows| - |c|, 1
    {
      var kids := if parent in byParent then byParent[parent] else [];
      assert kids == Group(byParent, parent) == Below(rows, c);
      WalkAll(kids, depth, c);
    }

    /** The loop over the rows of one parent. */
    method WalkAll(kids: seq<nat>, depth: nat, ghost c: seq<nat>)
      requires UniqueIds(rows) && Grouped(rows, byParent, |rows|)
      requires Chain(rows, c) && depth == |c| && KidsOf(rows, c, kids)
      modifies this`flat
      ensures flat == old(flat) + Shown(rows, c, kids)
      decreases |rows| - |c|, 0
    {
      ghost var goal := flat + Shown(rows, c, kids);
      for k := 0 to |kids|
        invariant KidsOf(rows, c, kids[k..]) && flat + Shown(rows, c, kids[k..]) == goal
      {
        ghost var d := c + [kids[k]];
        ghost var before := flat;
        OneMoreShown(rows, c, kids, k);
        var node := rows[kids[k]];
        flat := flat + [Entry(node.id, node.name, node.parent, depth)];
        Walk(Some(node.id), depth + 1, d);
        Regroup(before, [EntryOf(rows, d)], Shown(rows, d, Below(rows, d)), Shown(rows, c, kids[k + 1..]));
      }
    }

    method Flatten()
      requires UniqueIds(rows) && Grouped(rows, byParent, |rows|) && flat == []
      modifies this`flat
      ensures flat == Page(rows)
    {
      Walk(None, 0, []);
    }
  }

  lemma Regroup(a: seq<Entry>, b: seq<Entry>, c: seq<Entry>, d: seq<Entry>)
    ensures a + (b + c + d) == a + b + c + d
  {
  }

  lemma OneMoreShown(rows: Sections, c: seq<nat>, kids: seq<nat>, k: nat)
    requires UniqueIds(rows) && Chain(rows, c) && KidsOf(rows, c, kids) && k < |kids|
    ensures Chain(rows, c + [kids[k]]) && |c| < |rows|
    ensures KidsOf(rows, c, kids[k..]) && KidsOf(rows, c, kids[k + 1..])
    ensures Shown(rows, c, kids[k..]) ==
            [EntryOf(rows, c + [kids[k]])] + Shown(rows, c + [kids[k]], Below(rows, c + [kids[k]])) +
                Shown(rows, c, kids[k + 1..])
  {
    ChildChain(rows, c, kids[k]);
    assert kids[k..][1..] == kids[k + 1..];
  }

  // --- What the page shows ---

  ghost function Page(rows: Sections): seq<Entry>
    requires UniqueIds(rows)
  {
    Shown(rows, [], Below(rows, []))
  }

  /** es are the entries of the chains cs. */
  ghost predicate Shows(rows: Sections, es: seq<Entry>, cs: seq<seq<nat>>) {
    |es| == |cs| && forall i :: 0 <= i < |cs| ==> cs[i] != [] && Chain(rows, cs[i]) && es[i] == EntryOf(rows, cs[i])
  }

  lemma ShowsBoth(rows: Sections, es: seq<Entry>, cs: seq<seq<nat>>, es': seq<Entry>, cs': seq<seq<nat>>)
    requires Shows(rows, es, cs) && Shows(rows, es', cs')
    ensures Shows(rows, es + es', cs + cs')
  {
  }

  lemma {:induction false} ShownIsListing(rows: Sections, c: seq<nat>, kids: seq<nat>)
    requires UniqueIds(rows) && Chain(rows, c) && KidsOf(rows, c, kids)
    ensures Shows(rows, Shown(rows, c, kids), Listing(rows, c, kids))
    decreases |rows| - |c|, |kids|
  {
    if kids != [] {
      var d := c + [kids[0]];
      ChildChain(rows, c, kids[0]);
      ShownIsListing(rows, d, Below(rows, d));
      ShownIsListing(rows, c, kids[1..]);
      ShowsBoth(rows, [EntryOf(rows, d)], [d], Shown(rows, d, Below(rows, d)), Listing(rows, d, Below(rows, d)));
      ShowsBoth(rows, [EntryOf(rows, d)] + Shown(rows, d, Below(rows, d)), [d] + Listing(rows, d, Below(rows, d)),
                Shown(rows, c, kids[1..]), Listing(rows, c, kids[1..]));
    }
  }

  /** The page shows exactly the rows whose parent chain ends at a top-level row, each once, in
      preorder with siblings in query order, and with depth one less than the chain's length. */
  lemma PageIsPreorder(rows: Sections) returns (cs: seq<seq<nat>>)
    requires UniqueIds(rows)
    ensures |cs| == |Page(rows)|
    ensures forall i :: 0 <= i < |cs| ==> cs[i] != [] && Chain(rows, cs[i]) && Page(rows)[i] == EntryOf(rows, cs[i])
    ensures forall c :: c != [] && Chain(rows, c) ==> c in cs
    ensures forall i, j :: 0 <= i < j < |cs| ==> Before(cs[i], cs[j]) && cs[i][|cs[i]| - 1] != cs[j][|cs[j]| - 1]
  {
    var kids := Below(rows, []);
    cs := Listing(rows, [], kids);
    ShownIsListing(rows, [], kids);
    ListingMembers(rows, [], kids);
    ChildrenInOrder(rows, None, |rows|);
    ListingInOrder(rows, [], kids);
    forall c | c != [] && Chain(rows, c)
      ensures c in cs
    {
      ThroughOrBelow(rows, [], c);
    }
    forall i, j | 0 <= i < j < |cs|
      ensures cs[i][|cs[i]| - 1] != cs[j][|cs[j]| - 1]
    {
      assert Before(cs[i], cs[j]);
      NotBeforeItself(cs[i]);
      if cs[i][|cs[i]| - 1] == cs[j][|cs[j]| - 1] {
        ChainUnique(rows, cs[i], cs[j]);
      }
    }
  }
}
