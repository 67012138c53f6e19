/** The branches of a template target: every `{% if %}` taken and not taken. */
module TemplateBranches {
  import opened Text

  /** A target as the sweep's patterns see it. `Stmt` is any statement but if and endif. */
  datatype Token = Ch(c: char) | Expr(js: bool) | Stmt | IfOpen | EndIf

  type Tokens = seq<Token>

  /** The first x at or after `from`, or the length. */
  function FirstOf(t: Tokens, x: Token, from: nat): (i: nat)
    requires from <= |t|
    ensures from <= i <= |t| && (i < |t| ==> t[i] == x)
    ensures forall k :: from <= k < i ==> t[k] != x
    decreases |t| - from
  {
    if from == |t| || t[from] == x then from else FirstOf(t, x, from + 1)
  }

  /** The leftmost match of the if pattern: its opening and the nearest endif after it. */
  function IfMatch(t: Tokens): (m: Option<(nat, nat)>)
    ensures m.Some? ==> m.value.0 < m.value.1 < |t|
  {
    var i := FirstOf(t, IfOpen, 0);
    if i == |t| then None
    else
      var j := FirstOf(t, EndIf, i + 1);
      if j == |t| then None else Some((i, j))
  }

  /** The target with the matched if taken: its body stays. */
  function Taken(t: Tokens, i: nat, j: nat): (r: Tokens)
    requires i < j < |t|
    ensures |r| < |t|
  {
    t[..i] + t[i + 1..j] + t[j + 1..]
  }

  function NotTaken(t: Tokens, i: nat, j: nat): (r: Tokens)
    requires i < j < |t|
    ensures |r| < |t|
  {
    t[..i] + t[j + 1..]
  }

  function Branches(t: Tokens): seq<Tokens>
    decreases |t|
  {
    match IfMatch(t)
    case None => [t]
    case Some(m) => Branches(Taken(t, m.0, m.1)) + Branches(NotTaken(t, m.0, m.1))
  }

  /** No branch of any token string still holds a complete if. */
  lemma {:induction false} BranchesAreFlat(t: Tokens, i: nat, p: nat, q: nat)
    requires i < |Branches(t)| && p < q < |Branches(t)[i]|
    ensures !(Branches(t)[i][p] == IfOpen && Branches(t)[i][q] == EndIf)
    decreases |t|
  {
    match IfMatch(t) {
      case None =>
      case Some(m) =>
        var with, without := Taken(t, m.0, m.1), NotTaken(t, m.0, m.1);
        if i < |Branches(with)| {
          BranchesAreFlat(with, i, p, q);
        } else {
          BranchesAreFlat(without, i - |Branches(with)|, p, q);
        }
    }
  }

  // --- Else-free templates without nesting ---

  datatype Part = Plain(body: Tokens) | Optional(body: Tokens)

  predicate NoIf(t: Tokens) {
    IfOpen !in t && EndIf !in t
  }

  predicate Simple(parts: seq<Part>) {
    forall i :: 0 <= i < |parts| ==> NoIf(parts[i].body)
  }

  function Source(parts: seq<Part>): Tokens {
    if parts == [] then []
    else (match parts[0]
          case Plain(body) => body
          case Optional(body) => [IfOpen] + body + [EndIf]) + Source(parts[1..])
  }

  function Prefixed(front: Tokens, ts: seq<Tokens>): (r: seq<Tokens>)
    ensures |r| == |ts| && forall i :: 0 <= i < |ts| ==> r[i] == front + ts[i]
  {
    seq(|ts|, i requires 0 <= i < |ts| => front + ts[i])
  }

  /** What the template can render to, each optional part first present, then absent. */
  function Renderings(parts: seq<Part>): seq<Tokens> {
    if parts == [] then [[]]
    else
      var rest := Renderings(parts[1..]);
      match parts[0]
      case Plain(body) => Prefixed(body, rest)
      case Optional(body) => Prefixed(body, rest) + rest
  }

  function Choices(parts: seq<Part>): nat {
    if parts == [] then 1 else Choices(parts[1..]) * if parts[0].Optional? then 2 else 1
  }

  lemma {:induction false} AsManyAsChoices(parts: seq<Part>)
    ensures |Renderings(parts)| == Choices(parts)
  {
    if parts != [] {
      AsManyAsChoices(parts[1..]);
    }
  }

  lemma PrefixTwice(a: Tokens, b: Tokens, ts: seq<Tokens>)
    ensures Prefixed(a, Prefixed(b, ts)) == Prefixed(a + b, ts)
  {
    forall i | 0 <= i < |ts|
      ensures a + (b + ts[i]) == (a + b) + ts[i]
    {
    }
  }

  lemma FirstIf(front: Tokens, body: Tokens, rest: Tokens)
    requires NoIf(front) && NoIf(body)
    ensures IfMatch(front + [IfOpen] + body + [EndIf] + rest) == Some((|front|, |front| + 1 + |body|))
  {
    var t := front + [IfOpen] + body + [EndIf] + rest;
    assert t[|front|] == IfOpen && t[|front| + 1 + |body|] == EndIf;
    assert forall k :: 0 <= k < |front| ==> t[k] == front[k];
    assert forall k :: |front| < k < |front| + 1 + |body| ==> t[k] == body[k - |front| - 1];
  }

  lemma Slices(front: Tokens, body: Tokens, rest: Tokens)
    ensures var t := front + [IfOpen] + body + [EndIf] + rest;
            && Taken(t, |front|, |front| + 1 + |body|) == front + body + rest
            && NotTaken(t, |front|, |front| + 1 + |body|) == front + rest
  {
    var t := front + [IfOpen] + body + [EndIf] + rest;
    assert t[..|front|] == front && t[|front| + 1..|front| + 1 + |body|] == body && t[|front| + 2 + |body|..] == rest;
  }

  lemma BranchesAt(t: Tokens, i: nat, j: nat)
    requires IfMatch(t) == Some((i, j)) && i < j < |t|
    ensures Branches(t) == Branches(Taken(t, i, j)) + Branches(NotTaken(t, i, j))
  {
  }

  lemma OneIf(front: Tokens, body: Tokens, rest: Tokens)
    requires NoIf(front) && NoIf(body)
    ensures Branches(front + [IfOpen] + body + [EndIf] + rest) == Branches(front + body + rest) + Branches(front + rest)
  {
    var t := front + [IfOpen] + body + [EndIf] + rest;
    FirstIf(front, body, rest);
    Slices(front, body, rest);
    BranchesAt(t, |front|, |front| + 1 + |body|);
  }

  lemma PrefixApart(front: Tokens, a: seq<Tokens>, b: seq<Tokens>)
    ensures Prefixed(front, a + b) == Prefixed(front, a) + Prefixed(front, b)
  {
  }

  lemma PrefixNothing(ts: seq<Tokens>)
    ensures Prefixed([], ts) == ts
  {
    assert forall i :: 0 <= i < |ts| ==> [] + ts[i] == ts[i];
  }

  lemma {:induction false} BranchesFrom(front: Tokens, parts: seq<Part>)
    requires NoIf(front) && Simple(parts)
    ensures Branches(front + Source(parts)) == Prefixed(front, Renderings(parts))
    decreases |parts|
  {
    if parts == [] {
      assert front + [] == front;
      assert Prefixed(front, [[]])[0] == front;
      assert Branches(front) == [front];
    } else {
      var body, rest := parts[0].body, parts[1..];
      BranchesFrom(front + body, rest);
      PrefixTwice(front, body, Renderings(rest));
      match parts[0] {
        case Plain(_) =>
          assert front + Source(parts) == front + body + Source(rest);
        case Optional(_) =>
          assert front + Source(parts) == front + [IfOpen] + body + [EndIf] + Source(rest);
          OneIf(front, body, Source(rest));
          BranchesFrom(front, rest);
          PrefixApart(front, Prefixed(body, Renderings(rest)), Renderings(rest));
      }
    }
  }

  /** The branches are exactly the renderings, 2 to the number of ifs of them. */
  lemma BranchesAreRenderings(parts: seq<Part>)
    requires Simple(parts)
    ensures Branches(Source(parts)) == Renderings(parts)
    ensures |Branches(Source(parts))| == Choices(parts)
  {
    BranchesFrom([], parts);
    assert [] + Source(parts) == Source(parts);
    PrefixNothing(Renderings(parts));
    AsManyAsChoices(parts);
  }
}
