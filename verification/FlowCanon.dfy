/** The semantic comparison of two flow documents: a recursively sorted canonical form. */
module FlowCanon {
  import opened Text
  import opened Sorting
  import opened Trees

  /** Tag (local name) and trimmed text. */
  datatype Tag = Tag(name: string, text: string)

  datatype Element = Element(tag: string, text: Option<string>, kids: seq<Element>)

  /** What follows the last closing brace of a namespaced tag. */
  function LocalName(tag: string): string {
    if tag == "" || tag[|tag| - 1] == '}' then "" else LocalName(tag[..|tag| - 1]) + [tag[|tag| - 1]]
  }

  lemma {:induction false} LocalNameDropsNamespace(ns: string, name: string)
    requires '}' !in name
    ensures LocalName(ns + ['}'] + name) == name
  {
    var tag := ns + ['}'] + name;
    if name != "" {
      LocalNameDropsNamespace(ns, name[..|name| - 1]);
      assert tag[..|tag| - 1] == ns + ['}'] + name[..|name| - 1];
    }
  }

  function TagOf(e: Element): Tag {
    Tag(LocalName(e.tag), Strip(if e.text.Some? then e.text.value else ""))
  }

  /** The Metadata API elides this element when it holds its default. */
  const DEFAULT_ELISION := Tag("storeOutputAutomatically", "false")

  predicate Elided(e: Element) {
    TagOf(e) == DEFAULT_ELISION
  }

  /** The document's tree: local names, trimmed text, elided defaults dropped at every level. */
  function Normal(e: Element): Tree<Tag>
    decreases e
  {
    Tree(TagOf(e), NormalKids(e.kids))
  }

  function NormalKids(kids: seq<Element>): seq<Tree<Tag>>
    decreases kids
  {
    if kids == [] then []
    else (if Elided(kids[0]) then [] else [Normal(kids[0])]) + NormalKids(kids[1..])
  }

  /** `_canon`: nested tuples with sorted children. */
  function Canon(e: Element): Tree<Tag>
    decreases e
  {
    Tree(TagOf(e), Sort(TreeLe, CanonKids(e.kids)))
  }

  function CanonKids(kids: seq<Element>): seq<Tree<Tag>>
    decreases kids
  {
    if kids == [] then []
    else (if Elided(kids[0]) then [] else [Canon(kids[0])]) + CanonKids(kids[1..])
  }

  // --- Python's order on the nested tuples ---

  predicate TreeLe(a: Tree<Tag>, b: Tree<Tag>)
    decreases a, |a.kids| + 1
  {
    if a.root.name != b.root.name then StringLe(a.root.name, b.root.name)
    else if a.root.text != b.root.text then StringLe(a.root.text, b.root.text)
    else KidsLe(a, b, 0)
  }

  /** The order of the children from position i on. */
  predicate KidsLe(a: Tree<Tag>, b: Tree<Tag>, i: nat)
    requires i <= |a.kids|
    decreases a, |a.kids| - i
  {
    i == |a.kids| || (i < |b.kids| && if a.kids[i] == b.kids[i] then KidsLe(a, b, i + 1)
        else TreeLe(a.kids[i], b.kids[i]))
  }

  lemma {:induction false} TreesCompare(a: Tree<Tag>, b: Tree<Tag>)
    ensures TreeLe(a, b) || TreeLe(b, a)
    ensures TreeLe(a, b) && TreeLe(b, a) ==> a == b
    decreases a, |a.kids| + 1
  {
    StringsAreOrdered();
    KidsCompare(a, b, 0);
  }

  lemma {:induction false} KidsCompare(a: Tree<Tag>, b: Tree<Tag>, i: nat)
    requires i <= |a.kids| && i <= |b.kids| && a.kids[..i] == b.kids[..i]
    ensures KidsLe(a, b, i) || KidsLe(b, a, i)
    ensures KidsLe(a, b, i) && KidsLe(b, a, i) ==> a.kids == b.kids
    decreases a, |a.kids| - i
  {
    if i < |a.kids| && i < |b.kids| {
      if a.kids[i] == b.kids[i] {
        KidsCompare(a, b, i + 1);
      } else {
        TreesCompare(a.kids[i], b.kids[i]);
      }
    }
  }

  lemma {:induction false} TreesChain(a: Tree<Tag>, b: Tree<Tag>, c: Tree<Tag>)
    requires TreeLe(a, b) && TreeLe(b, c)
    ensures TreeLe(a, c)
    decreases a, |a.kids| + 1
  {
    StringsAreOrdered();
    if a.root == b.root == c.root {
      KidsChain(a, b, c, 0);
    }
  }

  lemma {:induction false} KidsChain(a: Tree<Tag>, b: Tree<Tag>, c: Tree<Tag>, i: nat)
    requires i <= |a.kids| && i <= |b.kids| && KidsLe(a, b, i) && KidsLe(b, c, i)
    ensures KidsLe(a, c, i)
    decreases a, |a.kids| - i
  {
    if i < |a.kids| {
      var x, y, z := a.kids[i], b.kids[i], c.kids[i];
      if x == y == z {
        KidsChain(a, b, c, i + 1);
      } else if x != y && y != z {
        TreesChain(x, y, z);
        TreesCompare(x, y);
      }
    }
  }

  lemma TreesAreOrdered()
    ensures TotalOrder(TreeLe)
  {
    forall a, b
      ensures (TreeLe(a, b) || TreeLe(b, a)) && (TreeLe(a, b) && TreeLe(b, a) ==> a == b)
    {
      TreesCompare(a, b);
    }
    forall a, b, c | TreeLe(a, b) && TreeLe(b, c)
      ensures TreeLe(a, c)
    {
      TreesChain(a, b, c);
    }
  }

  // --- The canonical form decides equality up to order ---

  function SortTree(t: Tree<Tag>): Tree<Tag> {
    Tree(t.root, Sort(TreeLe, seq(|t.kids|, i requires 0 <= i < |t.kids| => SortTree(t.kids[i]))))
  }

  lemma SortTreeOf(t: Tree<Tag>)
    ensures SortTree(t) == Tree(t.root, Sort(TreeLe, Keys(SortTree, t.kids)))
  {
    assert Keys(SortTree, t.kids) == seq(|t.kids|, i requires 0 <= i < |t.kids| => SortTree(t.kids[i]));
  }

  lemma {:induction false} SortTreeDecides(a: Tree<Tag>, b: Tree<Tag>)
    ensures SortTree(a) == SortTree(b) <==> Iso(a, b)
    decreases a
  {
    forall i, j | 0 <= i < |a.kids| && 0 <= j < |b.kids|
      ensures Iso(a.kids[i], b.kids[j]) <==> SortTree(a.kids[i]) == SortTree(b.kids[j])
    {
      SortTreeDecides(a.kids[i], b.kids[j]);
    }
    IsoByKeys(SortTree, a, b);
    TreesAreOrdered();
    SortIsCanonical(TreeLe, Keys(SortTree, a.kids), Keys(SortTree, b.kids));
    SortTreeOf(a);
    SortTreeOf(b);
  }

  lemma {:induction false} CanonSortsNormal(e: Element)
    ensures Canon(e) == SortTree(Normal(e))
    decreases e
  {
    CanonKidsSortNormal(e.kids);
    SortTreeOf(Normal(e));
  }

  lemma {:induction false} CanonKidsSortNormal(kids: seq<Element>)
    ensures CanonKids(kids) == Keys(SortTree, NormalKids(kids))
    decreases kids
  {
    if kids != [] {
      CanonSortsNormal(kids[0]);
      CanonKidsSortNormal(kids[1..]);
      KeysCons(SortTree, Normal(kids[0]), NormalKids(kids[1..]));
      if Elided(kids[0]) {
        assert [] + NormalKids(kids[1..]) == NormalKids(kids[1..]) && [] + CanonKids(kids[1..]) == CanonKids(kids[1..]);
      }
    }
  }

  // --- The document's tree, said without its functions ---

  /** The name follows the last closing brace, if there is one, and the text is trimmed. */
  ghost predicate Labels(e: Element, t: Tag) {
    && '}' !in t.name && (e.tag == t.name || exists ns :: e.tag == ns + "}" + t.name)
    && Trims(if e.text == None then "" else e.text.value, t.text)
  }

  lemma {:induction false} LocalNameIsTail(tag: string)
    ensures '}' !in LocalName(tag)
    ensures LocalName(tag) == tag || exists ns :: tag == ns + "}" + LocalName(tag)
  {
    if tag != "" && tag[|tag| - 1] != '}' {
      var front, c := tag[..|tag| - 1], tag[|tag| - 1];
      LocalNameIsTail(front);
      if LocalName(front) != front {
        var ns :| front == ns + "}" + LocalName(front);
        assert tag == ns + "}" + LocalName(tag);
      }
    } else if tag != "" {
      assert tag == tag[..|tag| - 1] + "}" + "";
    }
  }

  lemma {:induction false} LocalNameKeeps(tag: string)
    requires '}' !in tag
    ensures LocalName(tag) == tag
  {
    if tag != "" {
      LocalNameKeeps(tag[..|tag| - 1]);
    }
  }

  lemma LabelsExactly(e: Element, t: Tag)
    ensures Labels(e, t) <==> t == TagOf(e)
  {
    var text := if e.text.Some? then e.text.value else "";
    StripExactly(text, t.text);
    LocalNameIsTail(e.tag);
    if Labels(e, t) {
      if e.tag == t.name {
        LocalNameKeeps(e.tag);
      } else {
        var ns :| e.tag == ns + "}" + t.name;
        LocalNameDropsNamespace(ns, t.name);
      }
    }
  }

  /** t is the document's tree: its label, and the trees of its children but for those that only
      spell out that output is not stored automatically. */
  ghost predicate StandsFor(e: Element, t: Tree<Tag>)
    decreases e
  {
    Labels(e, t.root) && KidsStandFor(e.kids, t.kids)
  }

  ghost predicate KidsStandFor(kids: seq<Element>, ts: seq<Tree<Tag>>)
    decreases kids
  {
    if kids == [] then ts == []
    else if Labels(kids[0], Tag("storeOutputAutomatically", "false")) then KidsStandFor(kids[1..], ts)
    else ts != [] && StandsFor(kids[0], ts[0]) && KidsStandFor(kids[1..], ts[1..])
  }

  lemma {:induction false} NormalExactly(e: Element, t: Tree<Tag>)
    ensures StandsFor(e, t) <==> t == Normal(e)
    decreases e
  {
    LabelsExactly(e, t.root);
    NormalKidsExactly(e.kids, t.kids);
  }

  lemma {:induction false} NormalKidsExactly(kids: seq<Element>, ts: seq<Tree<Tag>>)
    ensures KidsStandFor(kids, ts) <==> ts == NormalKids(kids)
    decreases kids
  {
    if kids != [] {
      LabelsExactly(kids[0], Tag("storeOutputAutomatically", "false"));
      NormalKidsExactly(kids[1..], ts);
      assert [] + NormalKids(kids[1..]) == NormalKids(kids[1..]);
      if ts != [] {
        NormalExactly(kids[0], ts[0]);
        NormalKidsExactly(kids[1..], ts[1..]);
        assert ts == [ts[0]] + ts[1..];
      }
    }
  }

  /** Two documents have equal canonical forms exactly when, defaults dropped and text
      trimmed, they are equal up to reordering siblings at every level. */
  lemma CanonDecides(x: Element, y: Element)
    ensures Canon(x) == Canon(y) <==> Iso(Normal(x), Normal(y))
    ensures forall s, t :: StandsFor(x, s) && StandsFor(y, t) ==> (Canon(x) == Canon(y) <==> Iso(s, t))
    ensures StandsFor(x, Normal(x)) && StandsFor(y, Normal(y))
  {
    forall s, t | StandsFor(x, s) && StandsFor(y, t)
      ensures s == Normal(x) && t == Normal(y)
    {
      NormalExactly(x, s);
      NormalExactly(y, t);
    }
    NormalExactly(x, Normal(x));
    NormalExactly(y, Normal(y));
    CanonSortsNormal(x);
    CanonSortsNormal(y);
    SortTreeDecides(Normal(x), Normal(y));
  }

  lemma {:induction false} DefaultsDropOut(front: seq<Element>, default: Element, back: seq<Element>)
    requires Elided(default)
    ensures NormalKids(front + [default] + back) == NormalKids(front + back)
  {
    if front == [] {
      assert front + [default] + back == [default] + back && front + back == back;
    } else {
      assert (front + [default] + back)[1..] == front[1..] + [default] + back;
      assert (front + back)[1..] == front[1..] + back;
      DefaultsDropOut(front[1..], default, back);
    }
  }

  /** Spelling a default out, anywhere among the children, makes no difference. */
  lemma SpelledOutDefault(e: Element, i: nat, default: Element)
    requires i <= |e.kids| && Elided(default)
    ensures Canon(e.(kids := e.kids[..i] + [default] + e.kids[i..])) == Canon(e)
  {
    var more := e.(kids := e.kids[..i] + [default] + e.kids[i..]);
    assert e.kids == e.kids[..i] + e.kids[i..];
    DefaultsDropOut(e.kids[..i], default, e.kids[i..]);
    assert Normal(more) == Normal(e);
    CanonSortsNormal(e);
    CanonSortsNormal(more);
  }
}
