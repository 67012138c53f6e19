/** Comparing two executions of one manifest, surface by surface. */
module CompareJobs {
  import opened Text

  /** The part of a stored observation the comparison reads. Absent JSON fields are None;
      `violations` pairs each rule id with its number of nodes. */
  datatype Observation = Observation(
    status: string, axeVersion: Option<string>, browserVersion: Option<string>, sha256: Option<string>,
    violations: seq<(string, nat)>, counts: (Option<nat>, Option<nat>, Option<nat>))

  type Results = map<string, Observation>

  datatype Plan = Plan(axePin: Option<string>, surfaces: seq<string>)

  datatype Label = NotComparable | Differs | Same

  datatype Refusal = NotSameManifest | ToolDrift

  datatype Comparison = Refused(reason: Refusal) | Compared(labels: map<string, Label>)

  /** The dict comprehension: the last node count of a rule wins. */
  function Violations(vs: seq<(string, nat)>): map<string, nat> {
    if vs == [] then map[] else Violations(vs[..|vs| - 1])[vs[|vs| - 1].0 := vs[|vs| - 1].1]
  }

  predicate SameObservations(a: Observation, b: Observation) {
    Violations(a.violations) == Violations(b.violations) && a.counts == b.counts
  }

  /** A surface side the comparison can use. */
  predicate Clean(results: Results, key: string) {
    && key in results && results[key].status == "OK"
    && results[key].sha256.Some? && results[key].sha256.value != ""
  }

  function LabelOf(a: Results, b: Results, key: string): Label {
    if !Clean(a, key) || !Clean(b, key) || a[key].sha256 != b[key].sha256 then NotComparable
    else if SameObservations(a[key], b[key]) then Same else Differs
  }

  predicate Pinned(plan: Plan) {
    plan.axePin.Some? && plan.axePin.value != ""
  }

  predicate AxeDrift(plan: Plan, results: Results) {
    Pinned(plan) && exists k :: k in results && results[k].status == "OK" && results[k].axeVersion != plan.axePin
  }

  predicate BrowserDrift(a: Results, b: Results) {
    exists k :: k in a && k in b && a[k].status == "OK" && b[k].status == "OK" &&
        a[k].browserVersion != b[k].browserVersion
  }

  ghost predicate Drifts(plan: Plan, a: Results, b: Results) {
    AxeDrift(plan, a) || AxeDrift(plan, b) || BrowserDrift(a, b)
  }

  /** Whether one side's tool versions contradict the pins. */
  method SideDrifts(plan: Plan, results: Results) returns (drift: bool)
    ensures drift <==> AxeDrift(plan, results)
  {
    drift := false;
    var left := results.Keys;
    while left != {}
      invariant left <= results.Keys
      invariant drift <==>
                  && Pinned(plan)
                  && exists k ::
                       k in results.Keys - left && results[k].status == "OK" && results[k].axeVersion != plan.axePin
      decreases left
    {
      var key :| key in left;
      left := left - {key};
      if results[key].status == "OK" && Pinned(plan) && results[key].axeVersion != plan.axePin {
        drift := true;
      }
    }
  }

  method BrowsersDrift(a: Results, b: Results) returns (drift: bool)
    ensures drift <==> BrowserDrift(a, b)
  {
    drift := false;
    var left := a.Keys * b.Keys;
    while left != {}
      invariant left <= a.Keys * b.Keys
      invariant drift <==>
                  exists k ::
                    && k in (a.Keys * b.Keys) - left
                    && a[k].status == "OK" && b[k].status == "OK" && a[k].browserVersion != b[k].browserVersion
      decreases left
    {
      var key :| key in left;
      left := left - {key};
      if a[key].status == b[key].status == "OK" && a[key].browserVersion != b[key].browserVersion {
        drift := true;
      }
    }
  }

  // --- What the labels mean, said of the stored observations ---

  /** Entry i is the last one for its rule. */
  ghost predicate LastFor(vs: seq<(string, nat)>, rule: string, i: nat) {
    i < |vs| && vs[i].0 == rule && forall k :: i < k < |vs| ==> vs[k].0 != rule
  }

  ghost predicate Unlisted(vs: seq<(string, nat)>, rule: string) {
    forall i :: 0 <= i < |vs| ==> vs[i].0 != rule
  }

  /** Neither side lists the rule, or the last entries for it have the same number of nodes. */
  ghost predicate AgreeOn(vs: seq<(string, nat)>, us: seq<(string, nat)>, rule: string) {
    || (Unlisted(vs, rule) && Unlisted(us, rule))
    || exists i: nat, j: nat :: LastFor(vs, rule, i) && LastFor(us, rule, j) && vs[i].1 == us[j].1
  }

  ghost predicate Agree(a: Observation, b: Observation) {
    && a.counts.0 == b.counts.0 && a.counts.1 == b.counts.1 && a.counts.2 == b.counts.2
    && forall rule :: AgreeOn(a.violations, b.violations, rule)
  }

  /** Both sides were observed cleanly, and the page was the same. */
  ghost predicate SamePage(a: Results, b: Results, key: string) {
    && key in a && key in b && a[key].status == "OK" && b[key].status == "OK"
    && a[key].sha256.Some? && a[key].sha256 == b[key].sha256 && a[key].sha256.value != ""
  }

  /** The labels of exactly the manifest's surfaces. */
  ghost predicate Labelled(plan: Plan, a: Results, b: Results, labels: map<string, Label>) {
    && (forall k :: k in labels <==> k in plan.surfaces)
    && forall k :: k in labels ==>
         && (labels[k] == Same <==> SamePage(a, b, k) && Agree(a[k], b[k]))
         && (labels[k] == Differs <==> SamePage(a, b, k) && !Agree(a[k], b[k]))
  }

  /** A clean observation was made by an engine other than the pinned one, or a surface by
      different browsers. */
  ghost predicate ToolsDiffer(plan: Plan, a: Results, b: Results) {
    || (plan.axePin.Some? && plan.axePin != Some("") &&
        exists k :: (k in a && a[k].status == "OK" && a[k].axeVersion != plan.axePin)
                    || (k in b && b[k].status == "OK" && b[k].axeVersion != plan.axePin))
    || exists k :: k in a && k in b && a[k].status == "OK" && b[k].status == "OK" &&
                   a[k].browserVersion != b[k].browserVersion
  }

  lemma {:induction false} LastEntry(vs: seq<(string, nat)>, rule: string) returns (i: nat)
    ensures rule in Violations(vs) ==> LastFor(vs, rule, i) && Violations(vs)[rule] == vs[i].1
    ensures rule !in Violations(vs) <==> Unlisted(vs, rule)
  {
    i := 0;
    if vs != [] {
      var n := |vs| - 1;
      if vs[n].0 == rule {
        i := n;
      } else {
        i := LastEntry(vs[..n], rule);
        assert forall k :: 0 <= k < n ==> vs[..n][k] == vs[k];
      }
    }
  }

  lemma OneLastEntry(vs: seq<(string, nat)>, rule: string, i: nat)
    requires LastFor(vs, rule, i)
    ensures rule in Violations(vs) && Violations(vs)[rule] == vs[i].1
  {
    var j := LastEntry(vs, rule);
    assert !Unlisted(vs, rule) && i == j;
  }

  lemma AgreeOnExactly(vs: seq<(string, nat)>, us: seq<(string, nat)>, rule: string)
    ensures AgreeOn(vs, us, rule) <==>
            (rule in Violations(vs) <==> rule in Violations(us)) &&
            (rule in Violations(vs) && rule in Violations(us) ==> Violations(vs)[rule] == Violations(us)[rule])
  {
    var i := LastEntry(vs, rule);
    var j := LastEntry(us, rule);
    if k: nat, l: nat :| LastFor(vs, rule, k) && LastFor(us, rule, l) && vs[k].1 == us[l].1 {
      OneLastEntry(vs, rule, k);
      OneLastEntry(us, rule, l);
    }
  }

  lemma AgreeExactly(a: Observation, b: Observation)
    ensures Agree(a, b) <==> SameObservations(a, b)
  {
    forall rule
      ensures AgreeOn(a.violations, b.violations, rule) <==>
              (rule in Violations(a.violations) <==> rule in Violations(b.violations)) &&
              (rule in Violations(a.violations) && rule in Violations(b.violations) ==>
                 Violations(a.violations)[rule] == Violations(b.violations)[rule])
    {
      AgreeOnExactly(a.violations, b.violations, rule);
    }
    if Agree(a, b) {
      assert forall rule :: AgreeOn(a.violations, b.violations, rule);
      assert Violations(a.violations) == Violations(b.violations);
    }
  }

  /** A comparison is refused, and its surfaces are labelled, for what was observed. */
  lemma OutcomeInWords(m: string, n: string, plan: Plan, a: Results, b: Results)
    ensures var c := Outcome(m, n, plan, a, b);
            && (c == Refused(NotSameManifest) <==> m != n)
            && (c == Refused(ToolDrift) <==> m == n && ToolsDiffer(plan, a, b))
            && (c.Compared? ==> Labelled(plan, a, b, c.labels))
  {
    forall k | SamePage(a, b, k)
      ensures Agree(a[k], b[k]) <==> SameObservations(a[k], b[k])
    {
      AgreeExactly(a[k], b[k]);
    }
  }

  /** compare_jobs: refuses different manifests and drifted tools, else labels every surface. */
  method Compare(manifestA: string, manifestB: string, plan: Plan, a: Results, b: Results) returns (c: Comparison)
    ensures c == Outcome(manifestA, manifestB, plan, a, b)
    ensures c == Refused(NotSameManifest) <==> manifestA != manifestB
    ensures c == Refused(ToolDrift) <==> manifestA == manifestB && ToolsDiffer(plan, a, b)
    ensures c.Compared? ==> Labelled(plan, a, b, c.labels)
  {
    OutcomeInWords(manifestA, manifestB, plan, a, b);
    if manifestA != manifestB {
      return Refused(NotSameManifest);
    }
    var driftA := SideDrifts(plan, a);
    var driftB := SideDrifts(plan, b);
    var driftAB := BrowsersDrift(a, b);
    if driftA || driftB || driftAB {
      return Refused(ToolDrift);
    }
    var labels: map<string, Label> := map[];
    for i := 0 to |plan.surfaces|
      invariant labels.Keys == set k | k in plan.surfaces[..i]
      invariant forall k :: k in labels ==> labels[k] == LabelOf(a, b, k)
    {
      assert plan.surfaces[..i + 1] == plan.surfaces[..i] + [plan.surfaces[i]];
      var key := plan.surfaces[i];
      if !Clean(a, key) || !Clean(b, key) || a[key].sha256 != b[key].sha256 {
        labels := labels[key := NotComparable];
      } else if SameObservations(a[key], b[key]) {
        labels := labels[key := Same];
      } else {
        labels := labels[key := Differs];
      }
    }
    assert plan.surfaces[..|plan.surfaces|] == plan.surfaces;
    c := Compared(labels);
  }

  ghost function Outcome(manifestA: string, manifestB: string, plan: Plan, a: Results, b: Results): Comparison {
    if manifestA != manifestB then Refused(NotSameManifest)
    else if Drifts(plan, a, b) then Refused(ToolDrift)
    else Compared(map k | k in plan.surfaces :: LabelOf(a, b, k))
  }

  // --- Laws of the labels ---

  /** The verdict does not depend on which execution comes first. */
  lemma Symmetric(m: string, n: string, plan: Plan, a: Results, b: Results)
    ensures Outcome(m, n, plan, a, b) == Outcome(n, m, plan, b, a)
  {
  }

  ghost predicate SameOn(c: Comparison, key: string) {
    c.Compared? && key in c.labels && c.labels[key] == Same
  }

  /** SAME is transitive whenever the third comparison is not refused. */
  lemma SameIsTransitive(m: string, n: string, o: string, plan: Plan, a: Results, b: Results, c: Results, key: string)
    requires SameOn(Outcome(m, n, plan, a, b), key) && SameOn(Outcome(n, o, plan, b, c), key)
    ensures SameOn(Outcome(m, o, plan, a, c), key) <==> Outcome(m, o, plan, a, c).Compared?
  {
  }

  /** The third comparison is refused exactly when a surface that b does not cover cleanly was
      inspected by different browsers. */
  lemma WhenTheThirdIsRefused(m: string, n: string, o: string, plan: Plan, a: Results, b: Results, c: Results)
    requires Outcome(m, n, plan, a, b).Compared? && Outcome(n, o, plan, b, c).Compared?
    ensures Outcome(m, o, plan, a, c).Refused? <==>
            exists k :: && k in a && k in c && a[k].status == "OK" && c[k].status == "OK"
                        && a[k].browserVersion != c[k].browserVersion && (k !in b || b[k].status != "OK")
  {
  }

  /** A clean observation by a browser version. */
  function ScannedBy(browser: string): Observation {
    Observation("OK", None, Some(browser), Some("0"), [], (None, None, None))
  }

  /** Two comparisons that are not refused, and a third that is. */
  lemma RefusedThird(m: string, key: string) returns (plan: Plan, a: Results, b: Results, c: Results)
    ensures Outcome(m, m, plan, a, b).Compared? && Outcome(m, m, plan, b, c).Compared?
    ensures Outcome(m, m, plan, a, c) == Refused(ToolDrift)
  {
    plan, a, b, c := Plan(None, [key]), map[key := ScannedBy("1")], map[], map[key := ScannedBy("2")];
    assert "1"[0] != "2"[0];
    assert a[key].browserVersion != c[key].browserVersion;
  }

  ghost predicate AllSame(c: Comparison) {
    c.Compared? && forall k :: k in c.labels ==> c.labels[k] == Same
  }

  /** Executions that recorded only surfaces of the manifest form an equivalence under
      "comparable and SAME throughout": no third comparison is refused. */
  lemma AllSameIsTransitive(m: string, n: string, o: string, plan: Plan, a: Results, b: Results, c: Results)
    requires forall k :: k in a ==> k in plan.surfaces
    requires AllSame(Outcome(m, n, plan, a, b)) && AllSame(Outcome(n, o, plan, b, c))
    ensures AllSame(Outcome(m, o, plan, a, c))
  {
    forall k | k in plan.surfaces
      ensures Clean(b, k) && LabelOf(a, c, k) == Same
    {
      assert Outcome(m, n, plan, a, b).labels[k] == LabelOf(a, b, k);
      assert Outcome(n, o, plan, b, c).labels[k] == LabelOf(b, c, k);
    }
    WhenTheThirdIsRefused(m, n, o, plan, a, b, c);
  }
}
