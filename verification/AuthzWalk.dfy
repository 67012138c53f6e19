/** Reading the authorization gates of a live view function: a worklist walk over closures. */
module AuthzWalk {
  import opened Text

  /** What a closure cell holds: nothing yet, a tier, or an object. */
  datatype Cell = Empty | Tier(level: nat) | Holds(target: nat)

  /** A Python object as the walk sees it, named by its identity. */
  datatype Thing = Thing(code: Option<string>, callable: bool, cells: seq<Cell>, wrapped: Option<nat>)

  type Heap = nat -> Thing

  const SEEN_CAP: nat := 60

  /** The cells the walk follows: callables with code. */
  predicate Follows(h: Heap, c: Cell) {
    c.Holds? && h(c.target).callable && h(c.target).code.Some?
  }

  ghost predicate Edge(h: Heap, a: nat, b: nat) {
    || h(a).wrapped == Some(b)
    || exists i :: 0 <= i < |h(a).cells| && h(a).cells[i] == Holds(b) && h(b).callable && h(b).code != None
  }

  ghost predicate Path(h: Heap, root: nat, p: seq<nat>) {
    p != [] && p[0] == root && forall i :: 0 <= i < |p| - 1 ==> Edge(h, p[i], p[i + 1])
  }

  ghost predicate Reachable(h: Heap, root: nat, n: nat) {
    exists p :: Path(h, root, p) && p[|p| - 1] == n
  }

  lemma ReachesItself(h: Heap, root: nat)
    ensures Reachable(h, root, root)
  {
    assert Path(h, root, [root]);
  }

  lemma ReachesNext(h: Heap, root: nat, a: nat, b: nat)
    requires Reachable(h, root, a) && Edge(h, a, b)
    ensures Reachable(h, root, b)
  {
    var p :| Path(h, root, p) && p[|p| - 1] == a;
    assert Path(h, root, p + [b]) && (p + [b])[|p|] == b;
  }

  /** A set that holds the root and is closed under edges holds all that is reachable. */
  lemma {:induction false} ClosedHoldsPath(h: Heap, root: nat, closed: set<nat>, p: seq<nat>)
    requires root in closed && Path(h, root, p)
    requires forall a, b :: a in closed && Edge(h, a, b) ==> b in closed
    ensures p[|p| - 1] in closed
    decreases |p|
  {
    if |p| > 1 {
      ClosedHoldsPath(h, root, closed, p[..|p| - 1]);
      assert Edge(h, p[|p| - 2], p[|p| - 1]);
    }
  }

  /** Everything reachable is in the finite set s. */
  ghost predicate Covers(h: Heap, root: nat, s: set<nat>) {
    forall n :: Reachable(h, root, n) ==> n in s
  }

  /** The targets pushed for one object's cells. */
  method CellTargets(h: Heap, cells: seq<Cell>) returns (targets: seq<nat>)
    ensures forall n :: n in targets <==> exists i :: 0 <= i < |cells| && Follows(h, cells[i]) && cells[i].target == n
  {
    targets := [];
    for i := 0 to |cells|
      invariant forall n :: n in targets <==> exists j :: 0 <= j < i && Follows(h, cells[j]) && cells[j].target == n
    {
      if Follows(h, cells[i]) {
        targets := targets + [cells[i].target];
      }
    }
  }

  predicate HasCode(h: Heap, n: nat) {
    h(n).code.Some?
  }

  predicate NoRepeats(s: seq<nat>) {
    forall i, j :: 0 <= i < j < |s| ==> s[i] != s[j]
  }

  ghost predicate Pending(h: Heap, root: nat, seen: set<nat>, stack: seq<nat>) {
    && (root in seen || root in stack)
    && forall a, b :: a in seen && Edge(h, a, b) ==> b in seen || b in stack
  }

  /** At most 61 objects are reachable. */
  ghost predicate Small(h: Heap, root: nat) {
    exists s: set<nat> :: Covers(h, root, s) && |s| <= 61
  }

  /** `walk`: terminates on any heap, circular or endless; returns reachable functions only,
      each once, and all of them when at most 61 objects are reachable. `seen` is what it
      visits: everything exactly in that case, and 61 objects otherwise. */
  method Walk(h: Heap, root: nat) returns (out: seq<nat>, ghost seen: set<nat>)
    ensures NoRepeats(out) && |out| <= 61
    ensures forall n :: n in out ==> HasCode(h, n) && Reachable(h, root, n)
    ensures Small(h, root) ==> forall n :: HasCode(h, n) && Reachable(h, root, n) ==> n in out
    ensures forall n :: n in out <==> n in seen && HasCode(h, n)
    ensures Covers(h, root, seen) <==> Small(h, root)
    ensures Small(h, root) || |seen| == 61
  {
    var visited: set<nat> := {};
    var stack := [root];
    out := [];
    ReachesItself(h, root);
    while stack != []
      invariant forall n :: n in stack ==> Reachable(h, root, n)
      invariant forall n :: n in visited ==> Reachable(h, root, n)
      invariant |visited| <= SEEN_CAP + 1
      invariant |visited| <= SEEN_CAP ==> Pending(h, root, visited, stack)
      invariant NoRepeats(out) && forall n :: n in out <==> n in visited && HasCode(h, n)
      decreases SEEN_CAP + 1 - |visited|, |stack|
    {
      var cur := stack[|stack| - 1];
      ghost var before := stack;
      stack := stack[..|stack| - 1];
      assert before == stack + [cur];
      if cur in visited || |visited| > SEEN_CAP {
        continue;
      }
      ghost var known := visited;
      visited := visited + {cur};
      if HasCode(h, cur) {
        out := out + [cur];
      }
      var targets := CellTargets(h, h(cur).cells);
      if h(cur).wrapped.Some? {
        targets := targets + [h(cur).wrapped.value];
      }
      assert forall n :: n in targets <==> Edge(h, cur, n);
      forall n | n in targets
        ensures Reachable(h, root, n)
      {
        ReachesNext(h, root, cur, n);
      }
      stack := stack + targets;
    }
    seen := visited;
    Complete(h, root, seen);
    NoMoreThan(out, seen);
  }

  /** Short of the cap nothing reachable was missed; at the cap, a cover no larger is the
      visited set itself. */
  lemma Complete(h: Heap, root: nat, seen: set<nat>)
    requires forall n :: n in seen ==> Reachable(h, root, n)
    requires |seen| <= SEEN_CAP + 1
    requires |seen| <= SEEN_CAP ==> Pending(h, root, seen, [])
    ensures Covers(h, root, seen) <==> Small(h, root)
    ensures Small(h, root) || |seen| == SEEN_CAP + 1
  {
    if |seen| <= SEEN_CAP {
      forall n | Reachable(h, root, n)
        ensures n in seen
      {
        var p :| Path(h, root, p) && p[|p| - 1] == n;
        ClosedHoldsPath(h, root, seen, p);
      }
    } else if Small(h, root) {
      var s: set<nat> :| Covers(h, root, s) && |s| <= SEEN_CAP + 1;
      SameWhenAsLarge(seen, s);
    }
  }

  lemma SameWhenAsLarge(a: set<nat>, b: set<nat>)
    requires a <= b && |a| >= |b|
    ensures a == b
  {
    assert b == a + (b - a);
  }

  lemma {:induction false} NoMoreThan(s: seq<nat>, all: set<nat>)
    requires NoRepeats(s) && forall n :: n in s ==> n in all
    ensures |s| <= |all|
  {
    if s != [] {
      var n := |s| - 1;
      assert forall k :: k in s[..n] ==> k in s;
      NoMoreThan(s[..n], all - {s[n]});
    }
  }

  // --- Gates ---

  datatype Gate = Gate(name: string, tier: Option<nat>)

  predicate IsLadder(name: string) {
    name == "require_tier" || name == "require_tier_api"
  }

  /** The first tier among the cells. */
  function FirstTier(cells: seq<Cell>): Option<nat> {
    if cells == [] then None else if cells[0].Tier? then Some(cells[0].level) else FirstTier(cells[1..])
  }

  function GateAt(h: Heap, codes: map<string, string>, n: nat): Option<Gate> {
    var code := h(n).code;
    if code.None? || code.value !in codes then None
    else
      var name := codes[code.value];
      Some(Gate(name, if name in {"require_tier", "require_tier_api"} then FirstTier(h(n).cells) else None))
  }

  method TierInClosure(h: Heap, n: nat) returns (tier: Option<nat>)
    ensures tier == FirstTier(h(n).cells)
  {
    var cells := h(n).cells;
    for i := 0 to |cells|
      invariant FirstTier(cells) == FirstTier(cells[i..])
    {
      if cells[i].Tier? {
        return Some(cells[i].level);
      }
    }
    tier := None;
  }

  /** A ladder gate with this tier. */
  predicate Demands(h: Heap, codes: map<string, string>, n: nat, tier: nat) {
    GateAt(h, codes, n).Some? && GateAt(h, codes, n).value.tier == Some(tier)
  }

  ghost predicate IsGateIn(h: Heap, codes: map<string, string>, nodes: set<nat>, g: Gate) {
    exists n :: n in nodes && GateAt(h, codes, n) == Some(g)
  }

  /** The highest tier among the ladder gates in `nodes`, if there is one. */
  ghost predicate HighestTier(h: Heap, codes: map<string, string>, nodes: set<nat>, tier: Option<nat>) {
    match tier
    case None => forall n: nat, u: nat :: n in nodes ==> !Demands(h, codes, n, u)
    case Some(t) =>
      && (exists n :: n in nodes && Demands(h, codes, n, t))
      && forall n: nat, u: nat :: n in nodes && Demands(h, codes, n, u) ==> u <= t
  }

  /** What the loop has computed, said of the walk. */
  lemma GatesInWords(h: Heap, codes: map<string, string>, root: nat, found: seq<nat>, done: set<nat>, gates: set<Gate>,
                     minTier: Option<nat>)
    requires done == set k | 0 <= k < |found| :: found[k]
    requires forall g :: g in gates <==> IsGateIn(h, codes, done, g)
    requires HighestTier(h, codes, done, minTier)
    ensures forall n :: n in done <==> n in found
    ensures forall g :: g in gates ==> exists n :: n in found && GateAt(h, codes, n) == Some(g)
    ensures forall n :: n in found && GateAt(h, codes, n).Some? ==> GateAt(h, codes, n).value in gates
  {
    forall n | n in found && GateAt(h, codes, n).Some?
      ensures IsGateIn(h, codes, done, GateAt(h, codes, n).value)
    {
    }
  }

  /** Reports only gates of reachable functions, and a tier one of them demands; when at most
      61 objects are reachable, all gates and the highest tier. */
  method GatesOf(h: Heap, codes: map<string, string>, root: nat) returns (gates: set<Gate>, minTier: Option<nat>)
    ensures forall g :: g in gates ==> exists n :: Reachable(h, root, n) && GateAt(h, codes, n) == Some(g)
    ensures minTier.Some? ==> exists n :: Reachable(h, root, n) && Demands(h, codes, n, minTier.value)
    ensures Small(h, root) ==>
              && (forall n :: Reachable(h, root, n) && GateAt(h, codes, n).Some? ==> GateAt(h, codes, n).value in gates)
              && (forall n: nat, t: nat :: Reachable(h, root, n) && Demands(h, codes, n, t) ==>
                 minTier.Some? && t <= minTier.value)
  {
    var found, _ := Walk(h, root);
    gates, minTier := {}, None;
    ghost var done: set<nat> := {};
    for i := 0 to |found|
      invariant done == set k | 0 <= k < i :: found[k]
      invariant forall g :: g in gates <==> IsGateIn(h, codes, done, g)
      invariant HighestTier(h, codes, done, minTier)
    {
      var n := found[i];
      var name := if h(n).code.Some? && h(n).code.value in codes then Some(codes[h(n).code.value]) else None;
      if name.Some? {
        var tier := None;
        if IsLadder(name.value) {
          tier := TierInClosure(h, n);
          if tier.Some? && (minTier.None? || tier.value > minTier.value) {
            minTier := tier;
          }
        }
        gates := gates + {Gate(name.value, tier)};
      }
      done := done + {n};
    }
    GatesInWords(h, codes, root, found, done, gates, minTier);
  }
}
