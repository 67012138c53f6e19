/** From a template target to the path it asks for, and from the path to the addresses the
    template can render. */
module TargetPaths {
  import opened Text
  import opened TemplateBranches
  import opened RouteMatch

  /** A target's text once expressions are wildcards and statements are gone. */
  datatype Symbol = C(c: char) | W

  type Symbols = seq<Symbol>

  function SymbolsOf(t: Tokens): Symbols {
    if t == [] then []
    else (match t[0]
          case Ch(c) => [C(c)]
          case Expr(_) => [W]
          case _ => []) + SymbolsOf(t[1..])
  }

  predicate Stops(s: Symbol) {
    s == C('?') || s == C('#')
  }

  /** The part before the query string and fragment. */
  function Cut(s: Symbols): Symbols {
    if s == [] || Stops(s[0]) then [] else [s[0]] + Cut(s[1..])
  }

  function Split(s: Symbols): (parts: seq<Symbols>)
    ensures parts != []
  {
    if s == [] then [[]]
    else
      var rest := Split(s[1..]);
      if s[0] == C('/') then [[]] + rest else [[s[0]] + rest[0]] + rest[1..]
  }

  function TextOf(part: Symbols): string {
    seq(|part|, i requires 0 <= i < |part| => if part[i].C? then part[i].c else '?')
  }

  /** A segment with a wildcard anywhere in it is a wildcard as a whole. */
  function SegmentOf(part: Symbols): Segment {
    if W in part then Wild else Lit(TextOf(part))
  }

  function SegmentsOf(parts: seq<Symbols>): Path {
    seq(|parts|, i requires 0 <= i < |parts| => SegmentOf(parts[i]))
  }

  function PathOf(s: Symbols): Path {
    Trimmed(SegmentsOf(Split(Cut(s))))
  }

  function NormalPath(t: Tokens): Path {
    PathOf(SymbolsOf(t))
  }

  /** `_normalise`. */
  method Normalise(target: Tokens) returns (path: Path)
    ensures path == NormalPath(target)
    ensures Slashless(path) && Trimmed(path) == path && path != []
  {
    var parts := Split(Cut(SymbolsOf(target)));
    var segs: Path := [];
    for i := 0 to |parts|
      invariant segs == SegmentsOf(parts)[..i]
    {
      segs := segs + [if W in parts[i] then Wild else Lit(TextOf(parts[i]))];
    }
    assert SegmentsOf(parts)[..|parts|] == SegmentsOf(parts);
    path := Trimmed(segs);
    PartsAreSlashless(Cut(SymbolsOf(target)));
    TrimmedKeeps(SegmentsOf(parts));
  }

  lemma {:induction false} PartsAreSlashFree(s: Symbols)
    ensures forall i :: 0 <= i < |Split(s)| ==> C('/') !in Split(s)[i]
  {
    if s != [] {
      PartsAreSlashFree(s[1..]);
      var rest := Split(s[1..]);
      assert s[0] != C('/') ==> C('/') !in [s[0]] + rest[0];
      assert forall i :: 1 <= i < |Split(s)| ==> Split(s)[i] == rest[if s[0] == C('/') then i - 1 else i];
    }
  }

  lemma PartsAreSlashless(s: Symbols)
    ensures Slashless(SegmentsOf(Split(s)))
  {
    PartsAreSlashFree(s);
    var segs := SegmentsOf(Split(s));
    forall i | 0 <= i < |segs| && segs[i].Lit?
      ensures SlashFree(segs[i].text)
    {
      var part := Split(s)[i];
      forall k | 0 <= k < |part|
        ensures TextOf(part)[k] != '/'
      {
        assert part[k] in part;
      }
    }
  }

  lemma {:induction false} TrimmedKeeps(path: Path)
    requires path != []
    ensures Trimmed(path) != [] && Trimmed(Trimmed(path)) == Trimmed(path)
    ensures Slashless(path) ==> Slashless(Trimmed(path))
  {
    if |path| > 1 && path[|path| - 1] == Lit("") {
      TrimmedKeeps(path[..|path| - 1]);
    }
  }

  // --- Rendered addresses ---

  predicate CleanValue(v: Symbols) {
    v != [] && W !in v && C('/') !in v && forall i :: 0 <= i < |v| ==> !Stops(v[i])
  }

  /** The address `url` is `s` with a non-empty value for each wildcard, free of slashes,
      question marks and number signs. */
  ghost predicate Renders(s: Symbols, url: Symbols) {
    if s == [] then url == []
    else if s[0].C? then url != [] && url[0] == s[0] && Renders(s[1..], url[1..])
    else exists k :: 0 < k <= |url| && CleanValue(url[..k]) && Renders(s[1..], url[k..])
  }

  lemma {:induction false} CutValue(v: Symbols, url: Symbols)
    requires forall i :: 0 <= i < |v| ==> !Stops(v[i])
    ensures Cut(v + url) == v + Cut(url)
  {
    if v == [] {
      assert v + url == url;
    } else {
      CutValue(v[1..], url);
      assert (v + url)[1..] == v[1..] + url;
    }
  }

  lemma {:induction false} RenderedCut(s: Symbols, url: Symbols)
    requires Renders(s, url)
    ensures Renders(Cut(s), Cut(url))
  {
    if s != [] && !Stops(s[0]) {
      if s[0].C? {
        RenderedCut(s[1..], url[1..]);
      } else {
        var k :| 0 < k <= |url| && CleanValue(url[..k]) && Renders(s[1..], url[k..]);
        RenderedCut(s[1..], url[k..]);
        CutValue(url[..k], url[k..]);
        assert url == url[..k] + url[k..];
        assert Cut(url)[..k] == url[..k] && Cut(url)[k..] == Cut(url[k..]);
      }
    }
  }

  lemma {:induction false} SplitValue(v: Symbols, url: Symbols)
    requires C('/') !in v
    ensures Split(v + url) == [v + Split(url)[0]] + Split(url)[1..]
  {
    if v == [] {
      assert v + url == url;
      assert v + Split(url)[0] == Split(url)[0] && Split(url) == [Split(url)[0]] + Split(url)[1..];
    } else {
      SplitValue(v[1..], url);
      assert (v + url)[1..] == v[1..] + url;
      assert [v[0]] + (v[1..] + Split(url)[0]) == v + Split(url)[0];
    }
  }

  ghost predicate PartsRender(p: seq<Symbols>, q: seq<Symbols>) {
    |p| == |q| && forall i :: 0 <= i < |p| ==> Renders(p[i], q[i])
  }

  lemma {:induction false} RenderedParts(s: Symbols, url: Symbols)
    requires Renders(s, url)
    ensures PartsRender(Split(s), Split(url))
  {
    if s == [] {
      assert Split(s) == [[]] && Split(url) == [[]] && Renders([], []);
    } else if s[0].C? {
      RenderedParts(s[1..], url[1..]);
      RenderedParts1(s[0], Split(s[1..]), Split(url[1..]));
    } else {
      var k :| 0 < k <= |url| && CleanValue(url[..k]) && Renders(s[1..], url[k..]);
      RenderedParts(s[1..], url[k..]);
      SplitValue(url[..k], url[k..]);
      assert url == url[..k] + url[k..];
      RenderedHead(url[..k], Split(s[1..])[0], Split(url[k..])[0]);
    }
  }

  lemma RenderedParts1(c: Symbol, p: seq<Symbols>, q: seq<Symbols>)
    requires c.C? && p != [] && PartsRender(p, q)
    ensures PartsRender([[c] + p[0]] + p[1..], [[c] + q[0]] + q[1..])
  {
    assert ([c] + p[0])[1..] == p[0] && ([c] + q[0])[1..] == q[0];
  }

  lemma RenderedHead(v: Symbols, p: Symbols, q: Symbols)
    requires CleanValue(v) && Renders(p, q)
    ensures Renders([W] + p, v + q)
  {
    assert ([W] + p)[1..] == p;
    assert (v + q)[..|v|] == v && (v + q)[|v|..] == q;
  }

  lemma NoWildcard(v: Symbols, q: Symbols)
    requires W !in v && W !in q
    ensures W !in v + q
  {
  }

  /** A part without wildcards renders to itself, one with a wildcard to something. */
  lemma {:induction false} RenderedPart(p: Symbols, q: Symbols)
    requires Renders(p, q)
    ensures W !in q
    ensures W !in p ==> p == q
    ensures W in p ==> q != []
  {
    if p != [] {
      if p[0].C? {
        RenderedPart(p[1..], q[1..]);
        assert p == [p[0]] + p[1..] && q == [q[0]] + q[1..];
      } else {
        var k :| 0 < k <= |q| && CleanValue(q[..k]) && Renders(p[1..], q[k..]);
        RenderedPart(p[1..], q[k..]);
        NoWildcard(q[..k], q[k..]);
        assert q == q[..k] + q[k..];
      }
    }
  }

  /** f is w with text for every wildcard. */
  ghost predicate FillsPath(f: Path, w: Path) {
    && |f| == |w|
    && forall i :: 0 <= i < |w| ==>
       f[i].Lit? && SlashFree(f[i].text) && (if w[i].Lit? then f[i] == w[i] else f[i].text != "")
  }

  lemma {:induction false} FilledTrimmed(f: Path, w: Path)
    requires FillsPath(f, w) && w != []
    ensures FillsPath(Trimmed(f), Trimmed(w))
  {
    var n := |w| - 1;
    if n > 0 && w[n] == Lit("") {
      FilledTrimmed(f[..n], w[..n]);
    }
  }

  function Texts(path: Path): seq<string> {
    seq(|path|, i requires 0 <= i < |path| => if path[i].Lit? then path[i].text else "")
  }

  /** Every address a target can render asks for a filling of the target's path. */
  lemma RenderedPathFills(s: Symbols, url: Symbols)
    requires Renders(s, url)
    ensures Fills(Texts(PathOf(url)), PathOf(s))
  {
    RenderedCut(s, url);
    RenderedParts(Cut(s), Cut(url));
    var p, q := Split(Cut(s)), Split(Cut(url));
    PartsAreSlashless(Cut(url));
    var w, f := SegmentsOf(p), SegmentsOf(q);
    forall i | 0 <= i < |p|
      ensures f[i].Lit? && SlashFree(f[i].text) && (if w[i].Lit? then f[i] == w[i] else f[i].text != "")
    {
      RenderedPart(p[i], q[i]);
    }
    FilledTrimmed(f, w);
  }

  // --- Addresses as the router reads them ---

  /** Segments with slashes between them. */
  function Joined(segs: seq<string>): string
    requires segs != []
  {
    if |segs| == 1 then segs[0] else segs[0] + ['/'] + Joined(segs[1..])
  }

  predicate AllSlashFree(segs: seq<string>) {
    forall i :: 0 <= i < |segs| ==> '/' !in segs[i]
  }

  predicate OnlySlashes(s: string) {
    forall i :: 0 <= i < |s| ==> s[i] == '/'
  }

  /** The address asks for these segments: they make up what comes before the query string and the
      fragment, trailing slashes dropped unless nothing else is there. */
  ghost predicate AsksFor(url: string, segs: seq<string>) {
    exists core, slashes, rest :: Reads(url, core, slashes, rest, segs)
  }

  ghost predicate Reads(url: string, core: string, slashes: string, rest: string, segs: seq<string>) {
    && url == core + slashes + rest
    && '?' !in core && '#' !in core && (rest == "" || rest[0] == '?' || rest[0] == '#')
    && OnlySlashes(slashes) && (core == "" || core[|core| - 1] != '/')
    && segs != [] && AllSlashFree(segs) && Joined(segs) == if core == "" then "/" else core
  }

  /** The rendering of tokens: an expression becomes some text without slash, question mark and
      number sign, a statement nothing. */
  ghost predicate RendersTo(t: Tokens, url: string) {
    if t == [] then url == ""
    else
      match t[0]
      case Ch(c) => url != "" && url[0] == c && RendersTo(t[1..], url[1..])
      case Expr(_) => exists k :: 0 < k <= |url| && PlainText(url[..k]) && RendersTo(t[1..], url[k..])
      case _ => RendersTo(t[1..], url)
  }

  predicate PlainText(v: string) {
    '/' !in v && '?' !in v && '#' !in v
  }

  function Sym(s: string): Symbols {
    seq(|s|, i requires 0 <= i < |s| => C(s[i]))
  }

  lemma SymAppend(s: string, t: string)
    ensures Sym(s + t) == Sym(s) + Sym(t)
  {
  }

  lemma SymText(s: string)
    ensures TextOf(Sym(s)) == s && W !in Sym(s)
    ensures forall c :: C(c) in Sym(s) <==> c in s
  {
    forall c | c in s
      ensures C(c) in Sym(s)
    {
      var i :| 0 <= i < |s| && s[i] == c;
      assert Sym(s)[i] == C(c);
    }
  }

  lemma {:induction false} RenderingHasSymbols(t: Tokens, url: string)
    requires RendersTo(t, url)
    ensures Renders(SymbolsOf(t), Sym(url))
  {
    if t != [] {
      match t[0]
      case Ch(c) =>
        RenderingHasSymbols(t[1..], url[1..]);
        assert Sym(url)[1..] == Sym(url[1..]) && SymbolsOf(t)[1..] == SymbolsOf(t[1..]);
      case Expr(_) =>
        var k :| 0 < k <= |url| && PlainText(url[..k]) && RendersTo(t[1..], url[k..]);
        RenderingHasSymbols(t[1..], url[k..]);
        PlainIsClean(url[..k]);
        assert Sym(url)[..k] == Sym(url[..k]) && Sym(url)[k..] == Sym(url[k..]);
        assert SymbolsOf(t)[1..] == SymbolsOf(t[1..]);
      case _ =>
        RenderingHasSymbols(t[1..], url);
        assert SymbolsOf(t) == SymbolsOf(t[1..]);
    }
  }

  lemma PlainIsClean(v: string)
    requires v != "" && PlainText(v)
    ensures CleanValue(Sym(v))
  {
    SymText(v);
    forall i | 0 <= i < |Sym(v)|
      ensures !Stops(Sym(v)[i])
    {
      assert v[i] in v;
    }
  }

  /** Cutting text made of segments gives the segments back. */
  lemma {:induction false} SplitJoined(segs: seq<string>)
    requires segs != [] && AllSlashFree(segs)
    ensures Split(Sym(Joined(segs))) == Syms(segs)
  {
    SymText(segs[0]);
    if |segs| == 1 {
      SplitValue(Sym(segs[0]), []);
      assert Sym(segs[0]) + [] == Sym(segs[0]) && Syms(segs) == [Sym(segs[0])];
    } else {
      SplitJoined(segs[1..]);
      var tail := Joined(segs[1..]);
      var url := [C('/')] + Sym(tail);
      assert url[1..] == Sym(tail) && Split(url) == [[]] + Syms(segs[1..]);
      SplitValue(Sym(segs[0]), url);
      assert Sym(Joined(segs)) == Sym(segs[0]) + url;
      assert Sym(segs[0]) + [] == Sym(segs[0]);
      assert Syms(segs) == [Sym(segs[0])] + Syms(segs[1..]);
    }
  }

  function Syms(segs: seq<string>): seq<Symbols> {
    seq(|segs|, i requires 0 <= i < |segs| => Sym(segs[i]))
  }

  function Lits(segs: seq<string>): Path {
    seq(|segs|, i requires 0 <= i < |segs| => Lit(segs[i]))
  }

  lemma SegmentsOfSyms(segs: seq<string>)
    ensures SegmentsOf(Syms(segs)) == Lits(segs) && Texts(Lits(segs)) == segs
  {
    forall i | 0 <= i < |segs|
      ensures SegmentsOf(Syms(segs))[i] == Lit(segs[i])
    {
      SymText(segs[i]);
    }
  }

  lemma {:induction false} SplitTrailingSlash(s: Symbols)
    ensures Split(s + [C('/')]) == Split(s) + [[]]
  {
    if s == [] {
      assert s + [C('/')] == [C('/')];
      assert Split([C('/')]) == [[]] + Split([]);
    } else {
      SplitTrailingSlash(s[1..]);
      assert (s + [C('/')])[1..] == s[1..] + [C('/')];
    }
  }

  lemma {:induction false} SlashesDrop(s: Symbols, slashes: string)
    requires OnlySlashes(slashes)
    ensures Trimmed(SegmentsOf(Split(s + Sym(slashes)))) == Trimmed(SegmentsOf(Split(s)))
    decreases |slashes|
  {
    if slashes == "" {
      assert s + Sym(slashes) == s;
    } else {
      var front := slashes[..|slashes| - 1];
      SlashesDrop(s, front);
      assert s + Sym(slashes) == s + Sym(front) + [C('/')];
      SlashDrops(s + Sym(front));
    }
  }

  lemma SlashDrops(s: Symbols)
    ensures Trimmed(SegmentsOf(Split(s + [C('/')]))) == Trimmed(SegmentsOf(Split(s)))
  {
    SplitTrailingSlash(s);
    EmptySegmentDrops(SegmentsOf(Split(s)));
    EmptyPartAdds(Split(s));
  }

  lemma EmptyPartAdds(parts: seq<Symbols>)
    ensures SegmentsOf(parts + [[]]) == SegmentsOf(parts) + [Lit("")]
  {
    assert SegmentOf([]) == Lit("");
  }

  lemma EmptySegmentDrops(path: Path)
    requires path != []
    ensures Trimmed(path + [Lit("")]) == Trimmed(path)
  {
    assert (path + [Lit("")])[..|path|] == path;
  }

  lemma CutAtStop(front: string, rest: string)
    requires '?' !in front && '#' !in front && (rest == "" || rest[0] == '?' || rest[0] == '#')
    ensures Cut(Sym(front + rest)) == Sym(front)
  {
    SymAppend(front, rest);
    forall i | 0 <= i < |Sym(front)|
      ensures !Stops(Sym(front)[i])
    {
      assert front[i] in front;
    }
    CutValue(Sym(front), Sym(rest));
    assert Sym(front) + [] == Sym(front);
  }

  lemma {:induction false} JoinedEnd(segs: seq<string>)
    requires |segs| > 1 && segs[|segs| - 1] == ""
    ensures Joined(segs) != "" && Joined(segs)[|Joined(segs)| - 1] == '/'
  {
    if |segs| > 2 {
      JoinedEnd(segs[1..]);
    } else {
      assert Joined(segs[1..]) == "";
    }
  }

  /** An address asks for one path: the one its target's wildcards are filled in. */
  lemma AsksForItsPath(url: string, segs: seq<string>)
    requires AsksFor(url, segs)
    ensures segs == Texts(PathOf(Sym(url)))
  {
    var core, slashes, rest :| Reads(url, core, slashes, rest, segs);
    assert '?' !in slashes && '#' !in slashes;
    assert url == (core + slashes) + rest;
    CutAtStop(core + slashes, rest);
    SymAppend(core, slashes);
    SlashesDrop(Sym(core), slashes);
    CorePath(core, segs);
  }

  lemma CorePath(core: string, segs: seq<string>)
    requires core == "" || core[|core| - 1] != '/'
    requires segs != [] && AllSlashFree(segs) && Joined(segs) == if core == "" then "/" else core
    ensures Texts(Trimmed(SegmentsOf(Split(Sym(core))))) == segs
  {
    if core == "" {
      RootPath(segs);
    } else {
      SplitJoined(segs);
      SegmentsOfSyms(segs);
      NothingToTrim(core, segs);
    }
  }

  lemma NothingToTrim(core: string, segs: seq<string>)
    requires core != "" && core[|core| - 1] != '/' && segs != [] && Joined(segs) == core
    ensures Trimmed(Lits(segs)) == Lits(segs)
  {
    if |segs| > 1 && segs[|segs| - 1] == "" {
      JoinedEnd(segs);
    }
    assert Lits(segs)[|segs| - 1] == Lit(segs[|segs| - 1]);
  }

  /** The root has two empty segments. */
  lemma RootPath(segs: seq<string>)
    requires segs != [] && AllSlashFree(segs) && Joined(segs) == "/"
    ensures Texts(Trimmed(SegmentsOf(Split(Sym(""))))) == segs
  {
    RootSegments(segs);
    EmptyPartAdds([]);
    assert Sym("") == [] && [] + [[]] == Split([]) && SegmentsOf([]) + [Lit("")] == [Lit("")];
    assert Texts([Lit(""), Lit("")]) == ["", ""];
  }

  lemma RootSegments(segs: seq<string>)
    requires segs != [] && AllSlashFree(segs) && Joined(segs) == "/"
    ensures segs == ["", ""]
  {
    var slash := "/";
    assert slash[0] == '/' && '/' in slash;
    assert segs[0] != slash;
    var rest := Joined(segs[1..]);
    assert segs[0] + ['/'] + rest == "/";
    assert |segs[0]| == 0 && |rest| == 0;
    EmptyJoin(segs[1..]);
    assert segs == [segs[0]] + segs[1..];
  }

  lemma EmptyJoin(segs: seq<string>)
    requires segs != [] && Joined(segs) == ""
    ensures segs == [""]
  {
  }

  // --- Every address asks for something ---

  lemma {:induction false} SplitText(s: string) returns (segs: seq<string>)
    ensures segs != [] && AllSlashFree(segs) && Joined(segs) == s
  {
    if s == "" {
      segs := [""];
    } else {
      var rest := SplitText(s[1..]);
      if s[0] == '/' {
        segs := [""] + rest;
        assert segs[1..] == rest && s == [s[0]] + s[1..];
      } else {
        segs := [[s[0]] + rest[0]] + rest[1..];
        assert segs[1..] == rest[1..] && s == [s[0]] + s[1..];
        assert |rest| > 1 ==> [s[0]] + (rest[0] + ['/'] + Joined(rest[1..])) == segs[0] + ['/'] + Joined(rest[1..]);
      }
    }
  }

  lemma {:induction false} DropSlashes(s: string) returns (core: string, slashes: string)
    ensures s == core + slashes && OnlySlashes(slashes) && (core == "" || core[|core| - 1] != '/')
  {
    core, slashes := s, "";
    if s != "" && s[|s| - 1] == '/' {
      core, slashes := DropSlashes(s[..|s| - 1]);
      slashes := slashes + "/";
    }
  }

  lemma {:induction false} FirstStop(url: string) returns (front: string, rest: string)
    ensures url == front + rest && '?' !in front && '#' !in front
    ensures rest == "" || rest[0] == '?' || rest[0] == '#'
  {
    front, rest := "", url;
    if url != "" && url[0] != '?' && url[0] != '#' {
      front, rest := FirstStop(url[1..]);
      front := [url[0]] + front;
    }
  }

  lemma EveryAddressAsks(url: string)
    ensures AsksFor(url, Texts(PathOf(Sym(url))))
  {
    var front, rest := FirstStop(url);
    var core, slashes := DropSlashes(front);
    var segs := SplitText(if core == "" then "/" else core);
    assert front == core + slashes;
    assert '?' !in core && '#' !in core;
    assert Reads(url, core, slashes, rest, segs);
    AsksForItsPath(url, segs);
  }

  /** Every address a target renders to asks for one path, a filling of the target's normal one. */
  lemma RenderedAddressFills(t: Tokens, url: string, segs: seq<string>)
    requires RendersTo(t, url)
    ensures AsksFor(url, segs) <==> segs == Texts(PathOf(Sym(url)))
    ensures AsksFor(url, segs) ==> Fills(segs, NormalPath(t))
  {
    EveryAddressAsks(url);
    RenderingHasSymbols(t, url);
    RenderedPathFills(SymbolsOf(t), Sym(url));
    if AsksFor(url, segs) {
      AsksForItsPath(url, segs);
    }
  }
}
