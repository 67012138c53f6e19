/** The dead-link gate: resolving a template target against the live route table. */
module DeadLinks {
  import opened Text
  import opened TemplateBranches
  import opened RouteMatch
  import opened TargetPaths

  datatype Kind = UrlFor | Script | HtmxAjax | Attribute

  datatype Target = Target(kind: Kind, raw: Tokens, verb: string, endpoint: string, kwargs: set<string>)

  datatype Answer = Alive | Dead | Unresolvable

  predicate IsBlank(t: Token) {
    t.Ch? && IsSpace(t.c)
  }

  function StripFront(t: Tokens): Tokens {
    if t != [] && IsBlank(t[0]) then StripFront(t[1..]) else t
  }

  function StripBack(t: Tokens): Tokens {
    if t != [] && IsBlank(t[|t| - 1]) then StripBack(t[..|t| - 1]) else t
  }

  function Stripped(t: Tokens): Tokens {
    StripBack(StripFront(t))
  }

  predicate StartsWith(t: Tokens, text: string) {
    |t| >= |text| && forall i :: 0 <= i < |text| ==> t[i] == Ch(text[i])
  }

  /** The target's first characters are Jinja. */
  predicate DynamicBase(raw: Tokens) {
    && raw != []
    && (raw[0] in {Expr(false), Stmt, IfOpen, EndIf} || StartsWith(raw, "{{") || StartsWith(raw, "{%"))
  }

  predicate Internal(raw: Tokens) {
    StartsWith(raw, "/") && !StartsWith(raw, "//")
  }

  predicate Static(path: Path) {
    |path| >= 2 && path[0] == Lit("") && path[1] == Lit("static")
  }

  /** Nothing literal to resolve against. */
  predicate AllDynamic(path: Path) {
    Wild in path && forall i :: 0 <= i < |path| ==> path[i] in {Wild, Lit("")}
  }

  function WithoutStops(t: Tokens): Tokens {
    if t != [] && t[|t| - 1] in {Ch('?'), Ch('#')} then WithoutStops(t[..|t| - 1]) else t
  }

  /** A script literal ending in a slash is a prefix the code appends an id to. */
  predicate IsPrefix(kind: Kind, raw: Tokens) {
    var t := WithoutStops(raw);
    kind in {Script, HtmxAjax} && t != [] && t[|t| - 1] == Ch('/')
  }

  ghost predicate Reaches(rules: seq<Rule>, path: Path, verb: string, prefix: bool) {
    Routed(rules, path, verb) || (prefix && Routed(rules, path + [Wild], verb))
  }

  // --- The conditions, spelled out ---

  /** Below /static, or /static itself. */
  ghost predicate UnderStatic(path: Path) {
    exists rest :: path == [Lit(""), Lit("static")] + rest
  }

  /** Some segment is a wildcard, and no other has text. */
  ghost predicate NothingLiteral(path: Path) {
    (exists i :: 0 <= i < |path| && path[i].Wild?) && forall i :: 0 <= i < |path| && path[i].Lit? ==> path[i].text == ""
  }

  lemma PathExactly(path: Path)
    ensures UnderStatic(path) <==> Static(path)
    ensures NothingLiteral(path) <==> AllDynamic(path)
  {
    if Static(path) {
      assert path == [Lit(""), Lit("static")] + path[2..];
    }
    if AllDynamic(path) {
      var i :| 0 <= i < |path| && path[i] == Wild;
    }
    forall i | 0 <= i < |path|
      ensures path[i] in {Wild, Lit("")} <==> (path[i].Lit? ==> path[i].text == "")
    {
    }
  }

  predicate WhiteToken(t: Token) {
    t.Ch? && t.c as int in WHITE
  }

  /** The target without the white space around it. */
  ghost predicate Bare(raw: Tokens, core: Tokens) {
    && (core != [] ==> !WhiteToken(core[0]) && !WhiteToken(core[|core| - 1]))
    && exists i: nat, j: nat :: CoreAt(raw, core, i, j)
  }

  ghost predicate CoreAt(raw: Tokens, core: Tokens, i: nat, j: nat) {
    && i <= j <= |raw| && core == raw[i..j]
    && (forall k :: 0 <= k < i ==> WhiteToken(raw[k])) && (forall k :: j <= k < |raw| ==> WhiteToken(raw[k]))
  }

  lemma BlankExactly(t: Token)
    ensures IsBlank(t) <==> WhiteToken(t)
  {
    if t.Ch? {
      SpaceExactly(t.c);
    }
  }

  lemma {:induction false} FrontIsBlank(t: Tokens) returns (i: nat)
    ensures i <= |t| && StripFront(t) == t[i..] && forall k :: 0 <= k < i ==> WhiteToken(t[k])
    ensures i < |t| ==> !WhiteToken(t[i])
  {
    i := 0;
    if t != [] {
      BlankExactly(t[0]);
      if IsBlank(t[0]) {
        var n := FrontIsBlank(t[1..]);
        i := n + 1;
        assert t[1..][n..] == t[i..];
      }
    }
  }

  lemma {:induction false} BackIsBlank(t: Tokens) returns (j: nat)
    ensures j <= |t| && StripBack(t) == t[..j] && forall k :: j <= k < |t| ==> WhiteToken(t[k])
    ensures j > 0 ==> !WhiteToken(t[j - 1])
  {
    j := |t|;
    if t != [] {
      BlankExactly(t[|t| - 1]);
      if IsBlank(t[|t| - 1]) {
        j := BackIsBlank(t[..|t| - 1]);
        assert t[..|t| - 1][..j] == t[..j];
      }
    }
  }

  lemma StrippedIsBare(raw: Tokens)
    ensures Bare(raw, Stripped(raw))
  {
    var i := FrontIsBlank(raw);
    var rest := raw[i..];
    var j := BackIsBlank(rest);
    assert Stripped(raw) == rest[..j] == raw[i..i + j];
    assert forall k :: i + j <= k < |raw| ==> raw[k] == rest[k - i];
    assert j > 0 ==> rest[0] == raw[i] && rest[j - 1] == raw[i + j - 1];
    assert CoreAt(raw, Stripped(raw), i, i + j);
  }

  /** Begins with Jinja: a token of it, or its opening signs in plain text. */
  predicate BeginsWithJinja(core: Tokens) {
    && core != []
    && (core[0].Stmt? || core[0].IfOpen? || core[0].EndIf? || core[0] == Expr(false)
        || (|core| >= 2 && core[0] == Ch('{') && (core[1] == Ch('{') || core[1] == Ch('%'))))
  }

  predicate SitePath(core: Tokens) {
    core != [] && core[0] == Ch('/') && !(|core| >= 2 && core[1] == Ch('/'))
  }

  /** A slash with nothing after it but question marks and number signs. */
  ghost predicate EndsInSlash(core: Tokens) {
    exists n :: 0 <= n < |core| && core[n] == Ch('/') &&
      forall k :: n < k < |core| ==> core[k] == Ch('?') || core[k] == Ch('#')
  }

  lemma {:induction false} StopsEnd(t: Tokens) returns (n: nat)
    ensures n <= |t| && WithoutStops(t) == t[..n] && (n > 0 ==> t[n - 1] != Ch('?') && t[n - 1] != Ch('#'))
    ensures forall k :: n <= k < |t| ==> t[k] == Ch('?') || t[k] == Ch('#')
  {
    n := |t|;
    if t != [] && t[|t| - 1] in {Ch('?'), Ch('#')} {
      n := StopsEnd(t[..|t| - 1]);
      assert t[..|t| - 1][..n] == t[..n];
    }
  }

  lemma TargetExactly(kind: Kind, core: Tokens)
    ensures core != [] ==> (BeginsWithJinja(core) <==> DynamicBase(core))
    ensures SitePath(core) <==> Internal(core)
    ensures IsPrefix(kind, core) <==> (kind.Script? || kind.HtmxAjax?) && EndsInSlash(core)
  {
    var n := StopsEnd(core);
    if IsPrefix(kind, core) {
      assert core[n - 1] == Ch('/');
    }
    if EndsInSlash(core) {
      var m :| 0 <= m < |core| && core[m] == Ch('/') &&
               forall k :: m < k < |core| ==> core[k] == Ch('?') || core[k] == Ch('#');
      assert n == m + 1;
    }
  }

  /** What the gate decides about one branch. */
  ghost function BranchAnswer(rules: seq<Rule>, path: Path, verb: string, prefix: bool): Answer {
    if UnderStatic(path) then Alive
    else if NothingLiteral(path) then Unresolvable
    else if Reaches(rules, path, verb, prefix) then Alive else Dead
  }

  /** What the gate decides about a target whose text, trimmed, is `core`. */
  ghost predicate Judged(rules: seq<Rule>, t: Target, core: Tokens, answer: Answer) {
    if core == [] || BeginsWithJinja(core) then answer == Unresolvable
    else if !SitePath(core) then answer == Alive
    else Decided(rules, Branches(core), t.verb, (t.kind.Script? || t.kind.HtmxAjax?) && EndsInSlash(core), answer)
  }

  /** The first branch that is not alive decides. */
  ghost predicate Decided(rules: seq<Rule>, branches: seq<Tokens>, verb: string, prefix: bool, answer: Answer) {
    if answer == Alive then forall i :: 0 <= i < |branches| ==>
        BranchAnswer(rules, NormalPath(branches[i]), verb, prefix) == Alive
    else
      exists i :: && 0 <= i < |branches|
                  && BranchAnswer(rules, NormalPath(branches[i]), verb, prefix) == answer
                  && forall j :: 0 <= j < i ==> BranchAnswer(rules, NormalPath(branches[j]), verb, prefix) == Alive
  }

  /** url_for builds an address: the endpoint exists, and some rule's parameters are all given. */
  predicate Buildable(endpoints: map<string, seq<set<string>>>, t: Target) {
    t.endpoint in endpoints && exists i :: 0 <= i < |endpoints[t.endpoint]| && endpoints[t.endpoint][i] <= t.kwargs
  }

  /** The parameter sets of an endpoint's rules among the first n, in table order. */
  function ArgumentsOf(table: seq<Rule>, n: nat, endpoint: string): seq<set<string>>
    requires n <= |table|
  {
    if n == 0 then []
    else
      ArgumentsOf(table, n - 1, endpoint) + if table[n - 1].endpoint == endpoint then [table[n - 1].arguments] else []
  }

  function Listed(endpoints: map<string, seq<set<string>>>, endpoint: string): seq<set<string>> {
    if endpoint in endpoints then endpoints[endpoint] else []
  }

  ghost predicate EndpointsOf(table: seq<Rule>, n: nat, endpoints: map<string, seq<set<string>>>)
    requires n <= |table|
  {
    forall e :: Listed(endpoints, e) == ArgumentsOf(table, n, e) && (e in endpoints ==> endpoints[e] != [])
  }

  lemma OneMoreRule(table: seq<Rule>, n: nat, endpoints: map<string, seq<set<string>>>)
    requires n < |table| && EndpointsOf(table, n, endpoints)
    ensures var e := table[n].endpoint;
            EndpointsOf(table, n + 1, endpoints[e := Listed(endpoints, e) + [table[n].arguments]])
  {
    var r := table[n];
    var more := endpoints[r.endpoint := Listed(endpoints, r.endpoint) + [r.arguments]];
    forall e
      ensures Listed(more, e) == ArgumentsOf(table, n + 1, e)
    {
      assert ArgumentsOf(table, n, e) + [] == ArgumentsOf(table, n, e);
      assert Listed(more, e) == if e == r.endpoint then Listed(endpoints, e) + [r.arguments] else Listed(endpoints, e);
    }
  }

  lemma WildcardEnds(path: Path)
    ensures Trimmed(path + [Wild]) == path + [Wild]
    ensures Slashless(path) ==> Slashless(path + [Wild])
  {
    assert (path + [Wild])[|path|] == Wild;
  }

  class Resolver {
    var rules: seq<Rule>
    var endpoints: map<string, seq<set<string>>>

    /** Reads the route table, methods a browser does not submit with left out. */
    constructor (table: seq<Rule>)
      ensures |rules| == |table|
      ensures forall i :: 0 <= i < |table| ==> rules[i] == table[i].(methods := table[i].methods - {"HEAD", "OPTIONS"})
      ensures EndpointsOf(table, |table|, endpoints)
    {
      rules, endpoints := [], map[];
      new;
      for i := 0 to |table|
        invariant |rules| == i
        invariant forall j :: 0 <= j < i ==> rules[j] == table[j].(methods := table[j].methods - {"HEAD", "OPTIONS"})
        invariant EndpointsOf(table, i, endpoints)
      {
        var r := table[i];
        OneMoreRule(table, i, endpoints);
        rules := rules + [r.(methods := r.methods - {"HEAD", "OPTIONS"})];
        if r.endpoint !in endpoints {
          endpoints := endpoints[r.endpoint := []];
        }
        endpoints := endpoints[r.endpoint := endpoints[r.endpoint] + [r.arguments]];
      }
    }

    method ResolveEndpoint(t: Target) returns (answer: Answer)
      ensures answer == if Buildable(endpoints, t) then Alive else Dead
    {
      answer := Dead;
      if t.endpoint in endpoints {
        var required := endpoints[t.endpoint];
        for i := 0 to |required|
          invariant answer == if exists j :: 0 <= j < i && required[j] <= t.kwargs then Alive else Dead
        {
          if required[i] <= t.kwargs {
            answer := Alive;
          }
        }
      }
    }

    method ResolveBranch(path: Path, verb: string, prefix: bool) returns (answer: Answer)
      requires AllWellFormed(rules) && Slashless(path) && Trimmed(path) == path
      ensures answer == BranchAnswer(rules, path, verb, prefix)
    {
      PathExactly(path);
      WildcardEnds(path);
      if Static(path) {
        return Alive;
      }
      if AllDynamic(path) {
        return Unresolvable;
      }
      var v := Match(rules, path, verb);
      if !v.Reached? && prefix {
        v := Match(rules, path + [Wild], verb);
      }
      assert v.Reached? <==> Reaches(rules, path, verb, prefix);
      answer := if v.Reached? then Alive else Dead;
    }

    method ResolveBranches(branches: seq<Tokens>, verb: string, prefix: bool) returns (answer: Answer)
      requires AllWellFormed(rules)
      ensures Decided(rules, branches, verb, prefix, answer)
    {
      for i := 0 to |branches|
        invariant forall j :: 0 <= j < i ==> BranchAnswer(rules, NormalPath(branches[j]), verb, prefix) == Alive
      {
        var path := Normalise(branches[i]);
        answer := ResolveBranch(path, verb, prefix);
        if answer != Alive {
          return;
        }
      }
      answer := Alive;
    }

    method Resolve(t: Target) returns (answer: Answer)
      requires AllWellFormed(rules)
      ensures t.kind == UrlFor ==> answer == if Buildable(endpoints, t) then Alive else Dead
      ensures t.kind != UrlFor ==>
                var raw := Stripped(t.raw);
                if raw == [] || DynamicBase(raw) then answer == Unresolvable
                else if !Internal(raw) then answer == Alive
                else Decided(rules, Branches(raw), t.verb, IsPrefix(t.kind, raw), answer)
      ensures t.kind != UrlFor ==> exists core :: Bare(t.raw, core) && Judged(rules, t, core, answer)
    {
      if t.kind == UrlFor {
        answer := ResolveEndpoint(t);
        return;
      }
      var raw := Stripped(t.raw);
      StrippedIsBare(t.raw);
      TargetExactly(t.kind, raw);
      if raw == [] || DynamicBase(raw) {
        return Unresolvable;
      }
      if !Internal(raw) {
        return Alive;
      }
      answer := ResolveBranches(Branches(raw), t.verb, IsPrefix(t.kind, raw));
    }
  }

  // --- What the answers mean for else-free targets without nesting ---

  /** The router takes this address for the method. */
  ghost predicate Served(rules: seq<Rule>, url: string, verb: string) {
    exists r, segs :: r in rules && verb in r.methods && AsksFor(url, segs) && Routes(r.segs, segs)
  }

  /** Dead: some rendering has no filling routed for the method, so no address that rendering
      can produce is served. */
  lemma DeadMeansUnserved(rules: seq<Rule>, parts: seq<Part>, verb: string) returns (rendering: Tokens)
    requires Simple(parts) && Decided(rules, Branches(Source(parts)), verb, false, Dead)
    ensures rendering in Renderings(parts)
    ensures !UnderStatic(NormalPath(rendering)) && !Routed(rules, NormalPath(rendering), verb)
    ensures forall url :: RendersTo(rendering, url) ==> !Served(rules, url, verb)
  {
    BranchesAreRenderings(parts);
    var i :| 0 <= i < |Renderings(parts)| && BranchAnswer(rules, NormalPath(Renderings(parts)[i]), verb, false) == Dead;
    rendering := Renderings(parts)[i];
    var path := NormalPath(rendering);
    forall url | RendersTo(rendering, url)
      ensures !Served(rules, url, verb)
    {
      forall r, segs | r in rules && AsksFor(url, segs) && Routes(r.segs, segs)
        ensures Fillable(r, path)
      {
        RenderedAddressFills(rendering, url, segs);
      }
    }
  }

  /** Alive: every non-static rendering has a filling routed for the method. */
  lemma AliveMeansRouted(rules: seq<Rule>, parts: seq<Part>, verb: string)
    requires Simple(parts)
    ensures Decided(rules, Branches(Source(parts)), verb, false, Alive) <==>
            forall i :: 0 <= i < |Renderings(parts)| ==>
              var path := NormalPath(Renderings(parts)[i]);
              UnderStatic(path) || (!NothingLiteral(path) && Routed(rules, path, verb))
  {
    BranchesAreRenderings(parts);
    var branches := Branches(Source(parts));
    forall i | 0 <= i < |branches|
      ensures BranchAnswer(rules, NormalPath(branches[i]), verb, false) == Alive <==>
              var path := NormalPath(branches[i]);
              UnderStatic(path) || (!NothingLiteral(path) && Routed(rules, path, verb))
    {
    }
  }
}
