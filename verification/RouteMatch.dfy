/** Matching a target's path segments against the route table. */
module RouteMatch {
  import opened Text

  /** A segment of a target: fixed text, or a wildcard standing for what the template renders. */
  datatype Segment = Lit(text: string) | Wild

  type Path = seq<Segment>

  /** A segment of a rule: fixed text, or a parameter with its converter's name. */
  datatype RuleSegment = Fixed(text: string) | Param(converter: string)

  datatype Rule = Rule(segs: seq<RuleSegment>, methods: set<string>, endpoint: string, arguments: set<string>)

  // --- Converters ---

  predicate IsDigit(c: char) {
    '0' <= c <= '9'
  }

  predicate IsHex(c: char) {
    IsDigit(c) || 'a' <= c <= 'f' || 'A' <= c <= 'F'
  }

  predicate Digits(s: string) {
    s != "" && forall i :: 0 <= i < |s| ==> IsDigit(s[i])
  }

  predicate Unsigned(s: string, p: string -> bool) {
    p(if s != "" && s[0] == '-' then s[1..] else s)
  }

  predicate Decimals(s: string) {
    Digits(s) || exists i :: 0 <= i < |s| && s[i] == '.' && Digits(s[..i]) && Digits(s[i + 1..])
  }

  predicate Uuid(s: string) {
    |s| == 36 && forall i :: 0 <= i < 36 ==> if i in {8, 13, 18, 23} then s[i] == '-' else IsHex(s[i])
  }

  /** A pattern anchored by `$`, which also matches before a final newline. */
  predicate Anchored(s: string, p: string -> bool) {
    p(s) || (s != "" && s[|s| - 1] == '\n' && p(s[..|s| - 1]))
  }

  predicate SlashFree(s: string) {
    '/' !in s
  }

  /** What a converter accepts as one segment; converters without a pattern accept anything. */
  predicate Converts(converter: string, s: string) {
    if converter == "int" then Anchored(s, x => Unsigned(x, Digits))
    else if converter == "float" then Anchored(s, x => Unsigned(x, Decimals))
    else if converter == "uuid" then Anchored(s, Uuid)
    else if converter == "string" || converter == "any" then s != "" && SlashFree(s)
    else true
  }

  // --- The resolver's test ---

  /** `_segment_ok` on one segment of the target. */
  predicate SegmentOk(r: RuleSegment, seg: Segment) {
    match seg
    case Wild => true
    case Lit(s) => Accepts(r, s)
  }

  predicate Accepts(r: RuleSegment, s: string) {
    match r
    case Fixed(text) => s == text
    case Param(converter) => Converts(converter, s)
  }

  predicate HasPattern(r: RuleSegment) {
    match r
    case Fixed(_) => true
    case Param(c) => c in {"int", "float", "uuid", "string", "any"}
  }

  /** The last rule segment against all the segments that are left, joined by slashes:
      text with a slash in it satisfies no fixed text and no converter pattern. */
  predicate TailOk(r: RuleSegment, rest: Path) {
    if |rest| == 1 then SegmentOk(r, rest[0]) else !HasPattern(r)
  }

  predicate HasTail(segs: seq<RuleSegment>) {
    exists i :: 0 <= i < |segs| && segs[i] == Param("path")
  }

  predicate RuleOk(segs: seq<RuleSegment>, want: Path) {
    var n := |segs|;
    if HasTail(segs) then
      && |want| >= n
      && (forall i :: 0 <= i < n - 1 ==> SegmentOk(segs[i], want[i]))
      && TailOk(segs[n - 1], want[n - 1..])
    else
      |want| == n && forall i :: 0 <= i < n ==> SegmentOk(segs[i], want[i])
  }

  // --- What it stands for: some rendering of the wildcards is routed ---

  /** A concrete path a target can render to: fixed segments stay, each wildcard becomes some
      slash-free text. */
  ghost predicate Fills(fill: seq<string>, want: Path) {
    && |fill| == |want|
    && forall i :: 0 <= i < |want| ==> SlashFree(fill[i]) && (want[i].Lit? ==> fill[i] == want[i].text)
  }

  /** One digit after another. */
  predicate Numeral(s: string) {
    s != "" && forall i :: 0 <= i < |s| ==> s[i] in "0123456789"
  }

  predicate HexText(s: string, n: nat) {
    |s| == n && forall i :: 0 <= i < n ==> s[i] in "0123456789abcdefABCDEF"
  }

  /** An optional minus. */
  ghost predicate Signed(s: string, p: string -> bool) {
    p(s) || exists t :: p(t) && s == "-" + t
  }

  /** Digits, and digits after a point if there is one. */
  ghost predicate Pointed(s: string) {
    Numeral(s) || exists whole, part :: Numeral(whole) && Numeral(part) && s == whole + "." + part
  }

  ghost predicate UuidText(s: string) {
    exists a, b, c, d, e :: Hyphenated(s, a, b, c, d, e)
  }

  /** Five groups of hexadecimal digits. */
  ghost predicate Hyphenated(s: string, a: string, b: string, c: string, d: string, e: string) {
    && HexText(a, 8) && HexText(b, 4) && HexText(c, 4) && HexText(d, 4) && HexText(e, 12)
    && s == a + "-" + b + "-" + c + "-" + d + "-" + e
  }

  /** A final newline is let through. */
  ghost predicate UpToNewline(s: string, p: string -> bool) {
    p(s) || exists t :: p(t) && s == t + "\n"
  }

  /** The texts a converter takes, spelled out. */
  ghost predicate Takes(converter: string, s: string) {
    if converter == "int" then UpToNewline(s, t => Signed(t, u => Numeral(u)))
    else if converter == "float" then UpToNewline(s, t => Signed(t, u => Pointed(u)))
    else if converter == "uuid" then UpToNewline(s, t => UuidText(t))
    else if converter == "string" || converter == "any" then s != "" && forall i :: 0 <= i < |s| ==> s[i] != '/'
    else true
  }

  ghost predicate Serves(r: RuleSegment, s: string) {
    match r
    case Fixed(text) => s == text
    case Param(converter) => Takes(converter, s)
  }

  predicate EndsInPath(segs: seq<RuleSegment>) {
    segs != [] && segs[|segs| - 1] == Param("path")
  }

  /** The router: a rule takes a concrete path segment by segment; a final path parameter
      takes one or more. */
  ghost predicate Routes(segs: seq<RuleSegment>, path: seq<string>) {
    var n := |segs|;
    if EndsInPath(segs) then
      |path| >= n && forall i :: 0 <= i < n - 1 ==> Serves(segs[i], path[i])
    else
      |path| == n && forall i :: 0 <= i < n ==> Serves(segs[i], path[i])
  }

  // --- The patterns take what the router takes ---

  lemma NumeralExactly(s: string)
    ensures Numeral(s) <==> Digits(s)
  {
  }

  /** Both sides of a point. */
  ghost predicate SplitsAt(s: string, i: nat) {
    i < |s| && s[i] == '.' && Numeral(s[..i]) && Numeral(s[i + 1..])
  }

  lemma PointsSplit(s: string, whole: string, part: string)
    requires Numeral(whole) && Numeral(part) && s == whole + "." + part
    ensures SplitsAt(s, |whole|) && s[0] != '-'
  {
    assert s[..|whole|] == whole && s[|whole| + 1..] == part && s[0] == whole[0];
  }

  lemma SplitsPoint(s: string, i: nat)
    requires SplitsAt(s, i)
    ensures exists whole, part :: Numeral(whole) && Numeral(part) && s == whole + "." + part
  {
    var whole, part := s[..i], s[i + 1..];
    assert Numeral(whole) && Numeral(part) && s == whole + "." + part;
  }

  lemma SplitsExactly(s: string, i: nat)
    ensures SplitsAt(s, i) <==> i < |s| && s[i] == '.' && Digits(s[..i]) && Digits(s[i + 1..])
  {
  }

  lemma PointExactly(s: string)
    ensures Pointed(s) <==> Decimals(s)
    ensures Pointed(s) ==> s != "" && s[0] != '-'
  {
    NumeralExactly(s);
    if i :| 0 <= i < |s| && s[i] == '.' && Digits(s[..i]) && Digits(s[i + 1..]) {
      SplitsExactly(s, i);
      SplitsPoint(s, i);
    }
    if Pointed(s) && !Numeral(s) {
      var whole, part :| Numeral(whole) && Numeral(part) && s == whole + "." + part;
      PointsSplit(s, whole, part);
      SplitsExactly(s, |whole|);
    }
  }

  lemma SignedExactly(s: string, p: string -> bool, q: string -> bool)
    requires forall t :: p(t) <==> q(t)
    requires forall t :: p(t) ==> t != "" && t[0] != '-'
    ensures Signed(s, p) <==> Unsigned(s, q)
  {
    if s != "" && s[0] == '-' {
      assert s == "-" + s[1..];
    }
    if t :| p(t) && s == "-" + t {
      assert s[1..] == t;
    }
  }

  lemma UuidPiece(s: string, lo: nat, hi: nat)
    requires Uuid(s) && (lo, hi) in {(0, 8), (9, 13), (14, 18), (19, 23), (24, 36)}
    ensures HexText(s[lo..hi], hi - lo)
  {
    forall i | lo <= i < hi
      ensures s[i] in "0123456789abcdefABCDEF"
    {
      assert IsHex(s[i]);
    }
  }

  lemma UuidPieces(s: string)
    requires |s| == 36
    ensures s == s[0..8] + s[8..9] + s[9..13] + s[13..14] + s[14..18] + s[18..19] + s[19..23] + s[23..24] + s[24..36]
  {
  }

  lemma UuidSplits(s: string)
    requires Uuid(s)
    ensures UuidText(s)
  {
    var a, b, c, d, e := s[0..8], s[9..13], s[14..18], s[19..23], s[24..36];
    UuidPiece(s, 0, 8);
    UuidPiece(s, 9, 13);
    UuidPiece(s, 14, 18);
    UuidPiece(s, 19, 23);
    UuidPiece(s, 24, 36);
    UuidPieces(s);
    assert s[8..9] == s[13..14] == s[18..19] == s[23..24] == "-";
    assert Hyphenated(s, a, b, c, d, e);
  }

  lemma UuidExactly(s: string)
    ensures UuidText(s) <==> Uuid(s)
  {
    if Uuid(s) {
      UuidSplits(s);
    }
    if UuidText(s) {
      var a, b, c, d, e :| Hyphenated(s, a, b, c, d, e);
      JoinedUuid(s, a, b, c, d, e);
    }
  }

  lemma JoinedPieces(s: string, a: string, b: string, c: string, d: string, e: string)
    requires |a| == 8 && |b| == |c| == |d| == 4 && |e| == 12 && s == a + "-" + b + "-" + c + "-" + d + "-" + e
    ensures |s| == 36 && s[8] == s[13] == s[18] == s[23] == '-'
    ensures s[0..8] == a && s[9..13] == b && s[14..18] == c && s[19..23] == d && s[24..36] == e
  {
  }

  lemma HexPiece(s: string, lo: nat, piece: string)
    requires lo + |piece| <= |s| && s[lo..lo + |piece|] == piece && HexText(piece, |piece|)
    ensures forall i :: lo <= i < lo + |piece| ==> IsHex(s[i])
  {
    forall i | lo <= i < lo + |piece|
      ensures IsHex(s[i])
    {
      assert s[i] == piece[i - lo];
    }
  }

  lemma JoinedUuid(s: string, a: string, b: string, c: string, d: string, e: string)
    requires Hyphenated(s, a, b, c, d, e)
    ensures Uuid(s)
  {
    JoinedPieces(s, a, b, c, d, e);
    HexPiece(s, 0, a);
    HexPiece(s, 9, b);
    HexPiece(s, 14, c);
    HexPiece(s, 19, d);
    HexPiece(s, 24, e);
  }

  lemma NewlineExactly(s: string, p: string -> bool, q: string -> bool)
    requires forall t :: p(t) <==> q(t)
    ensures UpToNewline(s, p) <==> Anchored(s, q)
  {
    if s != "" && s[|s| - 1] == '\n' {
      assert s == s[..|s| - 1] + "\n";
    }
    if t :| p(t) && s == t + "\n" {
      assert s[..|s| - 1] == t;
    }
  }

  /** Each converter's pattern matches exactly the texts the converter takes. */
  lemma ConverterExactly(converter: string, s: string)
    ensures Takes(converter, s) <==> Converts(converter, s)
  {
    if converter == "int" {
      forall t
        ensures Signed(t, u => Numeral(u)) <==> Unsigned(t, Digits)
      {
        SignedExactly(t, u => Numeral(u), Digits);
      }
      NewlineExactly(s, t => Signed(t, u => Numeral(u)), x => Unsigned(x, Digits));
    } else if converter == "float" {
      forall t
        ensures Pointed(t) <==> Decimals(t)
        ensures Pointed(t) ==> t != "" && t[0] != '-'
      {
        PointExactly(t);
      }
      forall t
        ensures Signed(t, u => Pointed(u)) <==> Unsigned(t, Decimals)
      {
        SignedExactly(t, u => Pointed(u), Decimals);
      }
      NewlineExactly(s, t => Signed(t, u => Pointed(u)), x => Unsigned(x, Decimals));
    } else if converter == "uuid" {
      forall t
        ensures UuidText(t) <==> Uuid(t)
      {
        UuidExactly(t);
      }
      NewlineExactly(s, t => UuidText(t), Uuid);
    }
  }

  lemma ServesExactly(r: RuleSegment, s: string)
    ensures Serves(r, s) <==> Accepts(r, s)
  {
    if r.Param? {
      ConverterExactly(r.converter, s);
    }
  }

  lemma NoSlash(s: string)
    ensures Digits(s) || Decimals(s) || Uuid(s) ==> SlashFree(s)
  {
    if i :| 0 <= i < |s| && s[i] == '.' && Digits(s[..i]) && Digits(s[i + 1..]) {
      assert s == s[..i] + "." + s[i + 1..];
    }
  }

  lemma NoSlashUnsigned(s: string)
    ensures Unsigned(s, Digits) || Unsigned(s, Decimals) ==> SlashFree(s)
  {
    if s != "" && s[0] == '-' {
      NoSlash(s[1..]);
      assert s == "-" + s[1..];
    } else {
      NoSlash(s);
    }
  }

  lemma NoSlashConverted(converter: string, s: string)
    requires HasPattern(Param(converter)) && Converts(converter, s)
    ensures SlashFree(s)
  {
    NoSlash(s);
    NoSlashUnsigned(s);
    if s != "" {
      NoSlash(s[..|s| - 1]);
      NoSlashUnsigned(s[..|s| - 1]);
      assert s == s[..|s| - 1] + [s[|s| - 1]];
    }
  }

  /** Text with a slash in it is taken by no fixed text and no converter with a pattern. */
  lemma SlashedText(r: RuleSegment, s: string)
    requires '/' in s && (r.Fixed? ==> SlashFree(r.text))
    ensures Serves(r, s) <==> !HasPattern(r)
  {
    if r.Param? {
      ConverterExactly(r.converter, s);
      if Converts(r.converter, s) && HasPattern(r) {
        NoSlashConverted(r.converter, s);
      }
    }
  }

  /** The path parameter of a rule, if any, is its last segment, and fixed text has no slash. */
  predicate WellFormed(segs: seq<RuleSegment>) {
    && segs != []
    && (forall i :: 0 <= i < |segs| - 1 ==> segs[i] != Param("path"))
    && forall i :: 0 <= i < |segs| && segs[i].Fixed? ==> SlashFree(segs[i].text)
  }

  predicate Slashless(want: Path) {
    forall i :: 0 <= i < |want| && want[i].Lit? ==> SlashFree(want[i].text)
  }

  /** Text a rule segment accepts. */
  function Example(r: RuleSegment): string {
    match r
    case Fixed(text) => text
    case Param(c) => if c == "uuid" then "00000000-0000-0000-0000-000000000000" else "0"
  }

  lemma ExampleAccepted(r: RuleSegment)
    ensures Accepts(r, Example(r))
    ensures (r.Fixed? ==> SlashFree(r.text)) ==> SlashFree(Example(r))
  {
    assert Digits("0");
    if r.Param? && r.converter == "uuid" {
      assert Uuid(Example(r));
    }
  }

  /** What to render: fixed segments as they are, wildcards as the rule wants them. */
  function Filling(segs: seq<RuleSegment>, want: Path): seq<string> {
    seq(|want|, i requires 0 <= i < |want| =>
      if want[i].Lit? then want[i].text else if i < |segs| then Example(segs[i]) else "")
  }

  lemma FillingFills(segs: seq<RuleSegment>, want: Path)
    requires WellFormed(segs) && Slashless(want)
    ensures Fills(Filling(segs, want), want)
  {
    forall i | 0 <= i < |want|
      ensures SlashFree(Filling(segs, want)[i])
    {
      if i < |segs| {
        ExampleAccepted(segs[i]);
      }
    }
  }

  lemma FillingAccepted(segs: seq<RuleSegment>, want: Path, i: nat)
    requires i < |segs| && i < |want| && SegmentOk(segs[i], want[i])
    ensures Accepts(segs[i], Filling(segs, want)[i])
  {
    ExampleAccepted(segs[i]);
  }

  lemma FillingIsRouted(segs: seq<RuleSegment>, want: Path)
    requires segs != [] && RuleOk(segs, want) && (HasTail(segs) <==> EndsInPath(segs))
    ensures Routes(segs, Filling(segs, want))
  {
    forall i | 0 <= i < |segs| && SegmentOk(segs[i], want[i])
      ensures Serves(segs[i], Filling(segs, want)[i])
    {
      FillingAccepted(segs, want, i);
      ServesExactly(segs[i], Filling(segs, want)[i]);
    }
  }

  lemma RoutedFillingHits(segs: seq<RuleSegment>, want: Path, fill: seq<string>)
    requires WellFormed(segs) && Fills(fill, want) && Routes(segs, fill)
    requires HasTail(segs) <==> EndsInPath(segs)
    ensures RuleOk(segs, want)
  {
    forall i | 0 <= i < |segs| && Serves(segs[i], fill[i])
      ensures SegmentOk(segs[i], want[i])
    {
      ServesExactly(segs[i], fill[i]);
    }
  }

  /** A rule's only path parameter is its last segment. */
  lemma TailIsLast(segs: seq<RuleSegment>)
    requires WellFormed(segs)
    ensures HasTail(segs) <==> EndsInPath(segs)
  {
  }

  /** Fixed text that the converter at its place does not take reaches no rule. */
  lemma RefusedText(r: Rule, want: Path, i: nat)
    requires i < |want| && i < |r.segs| && want[i].Lit? && !Serves(r.segs[i], want[i].text)
    requires r.segs[i] != Param("path")
    ensures !Fillable(r, want)
  {
    forall fill | Fills(fill, want)
      ensures !Routes(r.segs, fill)
    {
      assert fill[i] == want[i].text;
    }
  }

  /** The resolver reports a rule exactly when some filling of the wildcards is routed to it. */
  lemma HitExactlyWhenFillable(segs: seq<RuleSegment>, want: Path)
    requires WellFormed(segs) && Slashless(want)
    ensures RuleOk(segs, want) <==> exists fill :: Fills(fill, want) && Routes(segs, fill)
  {
    TailIsLast(segs);
    if RuleOk(segs, want) {
      FillingFills(segs, want);
      FillingIsRouted(segs, want);
    }
    if fill :| Fills(fill, want) && Routes(segs, fill) {
      RoutedFillingHits(segs, want, fill);
    }
  }

  // --- The route table ---

  function Matches(rules: seq<Rule>, want: Path): seq<Rule> {
    if rules == [] then []
    else Matches(rules[..|rules| - 1], want) + if RuleOk(rules[|rules| - 1].segs, want) then [rules[|rules| - 1]]
        else []
  }

  lemma {:induction false} MatchesMembers(rules: seq<Rule>, want: Path)
    ensures forall r :: r in Matches(rules, want) <==> r in rules && RuleOk(r.segs, want)
  {
    if rules != [] {
      MatchesMembers(rules[..|rules| - 1], want);
      assert rules == rules[..|rules| - 1] + [rules[|rules| - 1]];
    }
  }

  ghost predicate Fillable(r: Rule, want: Path) {
    exists fill :: Fills(fill, want) && Routes(r.segs, fill)
  }

  /** Some way to render the path is routed for the method. */
  ghost predicate Routed(rules: seq<Rule>, want: Path, verb: string) {
    exists r :: r in rules && verb in r.methods && Fillable(r, want)
  }

  ghost predicate AllWellFormed(rules: seq<Rule>) {
    forall r :: r in rules ==> WellFormed(r.segs)
  }

  /** Trailing slashes are ignored, except for the bare root. */
  function Trimmed(path: Path): Path {
    if |path| > 1 && path[|path| - 1] == Lit("") then Trimmed(path[..|path| - 1])
    else if path == [Lit("")] then [Lit(""), Lit("")] else path
  }

  method Hits(rules: seq<Rule>, path: Path) returns (out: seq<Rule>)
    requires AllWellFormed(rules) && Slashless(Trimmed(path))
    ensures out == Matches(rules, Trimmed(path))
    ensures forall r :: r in out <==> r in rules && Fillable(r, Trimmed(path))
  {
    var want := Trimmed(path);
    out := [];
    for i := 0 to |rules|
      invariant out == Matches(rules[..i], want)
    {
      assert rules[..i + 1][..i] == rules[..i];
      if RuleOk(rules[i].segs, want) {
        out := out + [rules[i]];
      }
    }
    assert rules[..|rules|] == rules;
    MatchesMembers(rules, want);
    forall r | r in rules
      ensures RuleOk(r.segs, want) <==> Fillable(r, want)
    {
      HitExactlyWhenFillable(r.segs, want);
    }
  }

  datatype Verdict = Reached | NoRoute | WrongMethod(allowed: set<string>)

  /** `_match`: nothing routed, routed for other methods only, or reached. */
  method Match(rules: seq<Rule>, path: Path, verb: string) returns (v: Verdict)
    requires AllWellFormed(rules) && Slashless(Trimmed(path))
    ensures v.Reached? <==> Routed(rules, Trimmed(path), verb)
    ensures v.NoRoute? <==> forall r :: r in rules ==> !Fillable(r, Trimmed(path))
    ensures v.WrongMethod? ==>
              forall m :: m in v.allowed <==> exists r :: r in rules && Fillable(r, Trimmed(path)) && m in r.methods
  {
    var hits := Hits(rules, path);
    if hits == [] {
      assert forall r :: r in rules ==> r !in hits;
      return NoRoute;
    }
    assert hits[0] in hits;
    var allowed: set<string> := {};
    for i := 0 to |hits|
      invariant forall m :: m in allowed <==> exists k :: 0 <= k < i && m in hits[k].methods
    {
      allowed := allowed + hits[i].methods;
    }
    forall m
      ensures m in allowed <==> exists r :: r in rules && Fillable(r, Trimmed(path)) && m in r.methods
    {
      if m in allowed {
        var k :| 0 <= k < |hits| && m in hits[k].methods;
        assert hits[k] in hits;
      }
    }
    v := if verb in allowed then Reached else WrongMethod(allowed);
  }
}
