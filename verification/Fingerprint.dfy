/** The semantic fingerprint of a page: a digest over the tree of meaningful elements in which
    sibling order is invisible, and the compact summary stored beside it. */
module Fingerprint {
  import opened Text
  import opened Bags
  import opened Sorting
  import opened Trees

  datatype Element = Element(role: string, name: string, tag: string)

  type Node = Tree<Element>

  const PAGE := Element("", "", "")

  // --- The digest ---

  function Join(parts: seq<string>): string {
    if parts == [] then "" else if |parts| == 1 then parts[0] else parts[0] + "," + Join(parts[1..])
  }

  function Printed(e: Element): string {
    e.role + "|" + e.name + "|" + e.tag
  }

  function Canonical(front: string, digests: seq<string>): string {
    front + "|[" + Join(Sort(StringLe, digests)) + "]"
  }

  /** `_hash_fingerprint_node`; h is the hex digest of a string. */
  function Hash(h: string -> string, n: Node): string
    decreases n
  {
    h(Canonical(Printed(n.root), HashKids(h, n.kids)))
  }

  function HashKids(h: string -> string, kids: seq<Node>): seq<string>
    decreases kids
  {
    if kids == [] then [] else [Hash(h, kids[0])] + HashKids(h, kids[1..])
  }

  lemma {:induction false} HashKidsAt(h: string -> string, kids: seq<Node>)
    ensures HashKids(h, kids) == Keys((n: Node) => Hash(h, n), kids)
  {
    if kids != [] {
      HashKidsAt(h, kids[1..]);
    }
  }

  /** Reordering siblings is invisible, whatever the digest. */
  lemma {:induction false} ReorderingIsInvisible(h: string -> string, a: Node, b: Node)
    requires Iso(a, b)
    ensures Hash(h, a) == Hash(h, b)
    decreases a
  {
    var key := (n: Node) => Hash(h, n);
    forall i, j | 0 <= i < |a.kids| && 0 <= j < |b.kids| && Iso(a.kids[i], b.kids[j])
      ensures key(a.kids[i]) == key(b.kids[j])
    {
      ReorderingIsInvisible(h, a.kids[i], b.kids[j]);
    }
    IsoKeepsKeys(key, a, b);
    HashKidsAt(h, a.kids);
    HashKidsAt(h, b.kids);
    StringsAreOrdered();
    SortIsCanonical(StringLe, HashKids(h, a.kids), HashKids(h, b.kids));
  }

  // --- What the digest tells apart ---

  /** Digests are non-empty strings of hex digits. */
  predicate Hex(s: string) {
    s != "" && forall i :: 0 <= i < |s| ==> '0' <= s[i] <= '9' || 'a' <= s[i] <= 'f'
  }

  ghost predicate HexValued(h: string -> string) {
    forall s :: Hex(h(s))
  }

  lemma {:induction false} JoinFree(parts: seq<string>, c: char)
    requires c != ',' && forall i :: 0 <= i < |parts| ==> c !in parts[i]
    ensures c !in Join(parts)
  {
    if |parts| > 1 {
      JoinFree(parts[1..], c);
    }
  }

  lemma JoinShape(parts: seq<string>)
    requires forall i :: 0 <= i < |parts| ==> Hex(parts[i])
    ensures Join(parts) == "" <==> parts == []
    ensures ',' in Join(parts) <==> |parts| > 1
  {
    if |parts| > 1 {
      assert Join(parts)[|parts[0]|] == ',';
    }
  }

  lemma {:induction false} JoinInjective(p: seq<string>, q: seq<string>)
    requires forall i :: 0 <= i < |p| ==> Hex(p[i])
    requires forall i :: 0 <= i < |q| ==> Hex(q[i])
    requires Join(p) == Join(q)
    ensures p == q
  {
    JoinShape(p);
    JoinShape(q);
    if |p| > 1 {
      FirstSplit(',', p[0], Join(p[1..]), q[0], Join(q[1..]));
      JoinInjective(p[1..], q[1..]);
      assert p == [p[0]] + p[1..] && q == [q[0]] + q[1..];
    }
  }

  lemma SortedDigests(p: seq<string>)
    requires forall i :: 0 <= i < |p| ==> Hex(p[i])
    ensures var sp := Sort(StringLe, p);
            (forall i :: 0 <= i < |sp| ==> Hex(sp[i])) && multiset(sp) == multiset(p) && '|' !in Join(sp)
  {
    StringsAreOrdered();
    SortSorts(StringLe, p);
    var sp := Sort(StringLe, p);
    forall i | 0 <= i < |sp|
      ensures Hex(sp[i]) && '|' !in sp[i]
    {
      assert sp[i] in multiset(p);
    }
    JoinFree(sp, '|');
  }

  function Bracketed(s: string): string {
    "[" + s + "]"
  }

  lemma BracketsComeOff(s: string, t: string)
    requires Bracketed(s) == Bracketed(t)
    ensures s == t
  {
    assert s == Bracketed(s)[1..|Bracketed(s)| - 1];
    assert t == Bracketed(t)[1..|Bracketed(t)| - 1];
  }

  lemma CanonicalShape(front: string, digests: seq<string>)
    ensures Canonical(front, digests) == front + ['|'] + Bracketed(Join(Sort(StringLe, digests)))
  {
  }

  /** The printed form is unambiguous up to where the label ends. */
  lemma CanonicalInjective(front: string, p: seq<string>, front': string, q: seq<string>)
    requires forall i :: 0 <= i < |p| ==> Hex(p[i])
    requires forall i :: 0 <= i < |q| ==> Hex(q[i])
    requires Canonical(front, p) == Canonical(front', q)
    ensures front == front' && multiset(p) == multiset(q)
  {
    SortedDigests(p);
    SortedDigests(q);
    var sp, sq := Sort(StringLe, p), Sort(StringLe, q);
    CanonicalShape(front, p);
    CanonicalShape(front', q);
    LastSplit('|', front, Bracketed(Join(sp)), front', Bracketed(Join(sq)));
    BracketsComeOff(Join(sp), Join(sq));
    JoinInjective(sp, sq);
  }

  /** The digest of a tree whose labels are already printed. */
  function TextHash(h: string -> string, t: Tree<string>): string {
    h(Canonical(t.root, seq(|t.kids|, i requires 0 <= i < |t.kids| => TextHash(h, t.kids[i]))))
  }

  ghost function Hashing(h: string -> string): Tree<string> -> string {
    t => TextHash(h, t)
  }

  lemma TextHashOf(h: string -> string, t: Tree<string>)
    ensures TextHash(h, t) == h(Canonical(t.root, Keys(Hashing(h), t.kids)))
  {
    assert Keys(Hashing(h), t.kids) == seq(|t.kids|, i requires 0 <= i < |t.kids| => TextHash(h, t.kids[i]));
  }

  /** s is hashed while hashing t. */
  ghost predicate Hashes(h: string -> string, t: Tree<string>, s: string)
    decreases t
  {
    s == Canonical(t.root, Keys(Hashing(h), t.kids)) || exists i :: 0 <= i < |t.kids| && Hashes(h, t.kids[i], s)
  }

  /** No two different strings hashed for a and b collide; an injective digest has this for all trees. */
  ghost predicate NoCollision(h: string -> string, a: Tree<string>, b: Tree<string>) {
    forall s, t :: Hashes(h, a, s) && Hashes(h, b, t) && h(s) == h(t) ==> s == t
  }

  lemma NoCollisionBelow(h: string -> string, a: Tree<string>, b: Tree<string>, i: nat, j: nat)
    requires NoCollision(h, a, b) && i < |a.kids| && j < |b.kids|
    ensures NoCollision(h, a.kids[i], b.kids[j])
  {
    forall s, t | Hashes(h, a.kids[i], s) && Hashes(h, b.kids[j], t) && h(s) == h(t)
      ensures s == t
    {
      assert Hashes(h, a, s) && Hashes(h, b, t);
    }
  }

  lemma {:induction false} TextHashDecides(h: string -> string, a: Tree<string>, b: Tree<string>)
    requires HexValued(h) && NoCollision(h, a, b)
    ensures TextHash(h, a) == TextHash(h, b) <==> Iso(a, b)
    decreases a
  {
    var key := Hashing(h);
    forall i, j | 0 <= i < |a.kids| && 0 <= j < |b.kids|
      ensures Iso(a.kids[i], b.kids[j]) <==> key(a.kids[i]) == key(b.kids[j])
    {
      NoCollisionBelow(h, a, b, i, j);
      TextHashDecides(h, a.kids[i], b.kids[j]);
    }
    IsoByKeys(key, a, b);
    TextHashOf(h, a);
    TextHashOf(h, b);
    var p, q := Keys(key, a.kids), Keys(key, b.kids);
    if TextHash(h, a) == TextHash(h, b) {
      assert Hashes(h, a, Canonical(a.root, p)) && Hashes(h, b, Canonical(b.root, q));
      CanonicalInjective(a.root, p, b.root, q);
    } else if Iso(a, b) {
      StringsAreOrdered();
      SortIsCanonical(StringLe, p, q);
    }
  }

  /** The tree of printed labels: all of a tree that its digest can depend on. */
  function Blur(n: Node): Tree<string>
    decreases n
  {
    Tree(Printed(n.root), BlurKids(n.kids))
  }

  function BlurKids(kids: seq<Node>): (b: seq<Tree<string>>)
    ensures |b| == |kids|
    ensures forall i :: 0 <= i < |kids| ==> b[i] == Blur(kids[i])
    decreases kids
  {
    if kids == [] then [] else [Blur(kids[0])] + BlurKids(kids[1..])
  }

  lemma {:induction false} HashReadsBlur(h: string -> string, n: Node)
    ensures Hash(h, n) == TextHash(h, Blur(n))
    decreases n
  {
    HashKidsReadBlur(h, n.kids);
    TextHashOf(h, Blur(n));
  }

  lemma {:induction false} HashKidsReadBlur(h: string -> string, kids: seq<Node>)
    ensures HashKids(h, kids) == Keys(Hashing(h), BlurKids(kids))
    decreases kids
  {
    if kids != [] {
      HashReadsBlur(h, kids[0]);
      HashKidsReadBlur(h, kids[1..]);
    }
  }

  /** What equal fingerprints mean, for any labels at all: the printed labels form the same
      unordered tree. */
  lemma EqualHashesExactly(h: string -> string, a: Node, b: Node)
    requires HexValued(h) && NoCollision(h, Blur(a), Blur(b))
    ensures Hash(h, a) == Hash(h, b) <==> Iso(Blur(a), Blur(b))
  {
    HashReadsBlur(h, a);
    HashReadsBlur(h, b);
    TextHashDecides(h, Blur(a), Blur(b));
  }

  // --- Labels without a bar ---

  predicate Plain(e: Element) {
    '|' !in e.role && '|' !in e.tag
  }

  ghost predicate AllPlain(n: Node)
    decreases n
  {
    Plain(n.root) && forall i :: 0 <= i < |n.kids| ==> AllPlain(n.kids[i])
  }

  lemma PrintedInjective(e: Element, f: Element)
    requires Plain(e) && Plain(f) && Printed(e) == Printed(f)
    ensures e == f
  {
    assert Printed(e) == e.role + ['|'] + (e.name + ['|'] + e.tag);
    assert Printed(f) == f.role + ['|'] + (f.name + ['|'] + f.tag);
    FirstSplit('|', e.role, e.name + ['|'] + e.tag, f.role, f.name + ['|'] + f.tag);
    LastSplit('|', e.name, e.tag, f.name, f.tag);
  }

  lemma {:induction false} BlurKeepsShape(a: Node, b: Node)
    requires AllPlain(a) && AllPlain(b)
    ensures Iso(Blur(a), Blur(b)) <==> Iso(a, b)
    decreases a
  {
    if |a.kids| == |b.kids| {
      forall i, j | 0 <= i < |a.kids| && 0 <= j < |b.kids|
        ensures Iso(Blur(a.kids[i]), Blur(b.kids[j])) <==> Iso(a.kids[i], b.kids[j])
      {
        BlurKeepsShape(a.kids[i], b.kids[j]);
      }
      if a.root != b.root && Printed(a.root) == Printed(b.root) {
        PrintedInjective(a.root, b.root);
      }
      if Iso(Blur(a), Blur(b)) {
        var p := MatchOf(Blur(a), Blur(b));
        assert KidsMatch(p, a, b);
      }
      if Iso(a, b) {
        var p := MatchOf(a, b);
        assert KidsMatch(p, Blur(a), Blur(b));
      }
    }
  }

  /** Equal fingerprints mean equal pages, up to the order of siblings. */
  lemma FingerprintDecides(h: string -> string, a: Node, b: Node)
    requires HexValued(h) && NoCollision(h, Blur(a), Blur(b))
    requires AllPlain(a) && AllPlain(b)
    ensures Hash(h, a) == Hash(h, b) <==> Iso(a, b)
  {
    EqualHashesExactly(h, a, b);
    BlurKeepsShape(a, b);
  }

  /** With a bar in a role the fingerprint can miss a difference, whatever the digest. */
  lemma BarsAreAmbiguous(h: string -> string) returns (a: Node, b: Node)
    ensures !Iso(a, b) && Hash(h, a) == Hash(h, b)
  {
    a, b := Tree(Element("a|b", "c", ""), []), Tree(Element("a", "b|c", ""), []);
    assert Printed(a.root) == "a|b|c|" == Printed(b.root);
    assert "a|b"[1] == '|';
    assert a.root != b.root;
  }

  // --- The hypotheses can be met ---

  /** Each character's number, ended by the letter a. */
  function Spelled(s: string): string {
    if s == "" then "" else Decimal(s[0] as nat) + ['a'] + Spelled(s[1..])
  }

  lemma {:induction false} SpelledIsHex(s: string)
    ensures Hex("f" + Spelled(s))
  {
    if s != "" {
      SpelledIsHex(s[1..]);
      DecimalIsDigits(s[0] as nat);
      var rest := "f" + Spelled(s[1..]);
      assert forall i :: 0 <= i < |Spelled(s[1..])| ==> Spelled(s[1..])[i] == rest[i + 1];
    }
  }

  lemma {:induction false} SpelledInjective(s: string, t: string)
    requires Spelled(s) == Spelled(t)
    ensures s == t
  {
    if s != "" && t != "" {
      DecimalIsDigits(s[0] as nat);
      DecimalIsDigits(t[0] as nat);
      FirstSplit('a', Decimal(s[0] as nat), Spelled(s[1..]), Decimal(t[0] as nat), Spelled(t[1..]));
      DecimalInjective(s[0] as nat, t[0] as nat);
      SpelledInjective(s[1..], t[1..]);
      assert s == [s[0]] + s[1..] && t == [t[0]] + t[1..];
    }
  }

  /** Some digest writes hex and never collides. */
  lemma HypothesesAreConsistent() returns (h: string -> string)
    ensures HexValued(h) && forall a, b :: NoCollision(h, a, b)
  {
    h := s => "f" + Spelled(s);
    forall s
      ensures Hex(h(s))
    {
      SpelledIsHex(s);
    }
    forall s, t | h(s) == h(t)
      ensures s == t
    {
      assert h(s)[1..] == Spelled(s) && h(t)[1..] == Spelled(t);
      SpelledInjective(s, t);
    }
  }
}
