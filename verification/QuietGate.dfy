/** The stabilisation gate: a debounce timer over the page's mutations. */
module QuietGate {

  datatype Mutation =
    | ChildList(addedElements: nat, removedElements: nat)
    | Attributes(name: string)
    | CharacterData

  const STRUCTURAL_ATTRIBUTES := ["role", "aria-label", "alt", "title", "placeholder", "href", "type"]

  predicate IsStructural(m: Mutation) {
    match m
    case ChildList(added, removed) => added > 0 || removed > 0
    case Attributes(name) => name in STRUCTURAL_ATTRIBUTES
    case CharacterData => false
  }

  /** The records the observer is handed at one moment. */
  datatype Batch = Batch(time: nat, records: seq<Mutation>)

  predicate Restarts(b: Batch) {
    exists i :: 0 <= i < |b.records| && IsStructural(b.records[i])
  }

  predicate Ordered(batches: seq<Batch>) {
    forall i, j :: 0 <= i < j < |batches| ==> batches[i].time <= batches[j].time
  }

  /** The gate's answer with the quiet timer due at `due`. */
  function Answer(batches: seq<Batch>, due: nat, quietMs: nat, timeoutMs: nat): bool {
    if batches == [] || due < batches[0].time || timeoutMs < batches[0].time then due < timeoutMs
    else Answer(batches[1..], if Restarts(batches[0]) then batches[0].time + quietMs else due, quietMs, timeoutMs)
  }

  /** The promise of the observer script: each structural batch pushes the quiet timer back,
      until that timer or the timeout fires. */
  method StructQuiet(batches: seq<Batch>, quietMs: nat, timeoutMs: nat) returns (quiet: bool)
    requires Ordered(batches)
    ensures quiet == Answer(batches, quietMs, quietMs, timeoutMs)
    ensures NoTies(batches, 0, quietMs, timeoutMs) ==> (quiet <==> AnyQuietGap(batches, 0, quietMs, timeoutMs))
    ensures NoTies(batches, 0, quietMs, timeoutMs) ==>
              (quiet <==> exists g: nat :: g + quietMs < timeoutMs && Calm(batches, g, quietMs))
  {
    var due: nat := quietMs;
    var i: nat := 0;
    while i < |batches| && batches[i].time <= due && batches[i].time <= timeoutMs
      invariant i <= |batches|
      invariant Answer(batches, quietMs, quietMs, timeoutMs) == Answer(batches[i..], due, quietMs, timeoutMs)
    {
      if Restarts(batches[i]) {
        due := batches[i].time + quietMs;
      }
      i := i + 1;
    }
    quiet := due < timeoutMs;
    if NoTies(batches, 0, quietMs, timeoutMs) {
      AnswerMeansGap(batches, 0, quietMs, timeoutMs);
      AnyGapIsATimersGap(batches, 0, quietMs, timeoutMs);
      forall g: nat
        ensures Calm(batches, g, quietMs) <==> Clear(batches, g, quietMs)
      {
        CalmExactly(batches, g, quietMs);
      }
    }
  }

  /** The mutation may change the page's fingerprint: an element comes or goes, or an attribute
      that makes up a role or a name changes. */
  predicate Disturbs(m: Mutation) {
    || (m.ChildList? && m.addedElements + m.removedElements > 0)
    || (m.Attributes? && m.name in {"role", "href", "type", "aria-label", "alt", "title", "placeholder"})
  }

  /** Nothing disturbs the page for `quietMs` after g. */
  ghost predicate Calm(batches: seq<Batch>, g: nat, quietMs: nat) {
    forall i, k :: 0 <= i < |batches| && 0 <= k < |batches[i].records| && g < batches[i].time < g + quietMs ==>
      !Disturbs(batches[i].records[k])
  }

  lemma DisturbsExactly(m: Mutation)
    ensures Disturbs(m) <==> IsStructural(m)
  {
    if m.Attributes? {
      assert m.name in STRUCTURAL_ATTRIBUTES <==>
             m.name in {"role", "href", "type", "aria-label", "alt", "title", "placeholder"};
    }
  }

  lemma CalmExactly(batches: seq<Batch>, g: nat, quietMs: nat)
    ensures Calm(batches, g, quietMs) <==> Clear(batches, g, quietMs)
  {
    forall i, k | 0 <= i < |batches| && 0 <= k < |batches[i].records|
      ensures Disturbs(batches[i].records[k]) <==> IsStructural(batches[i].records[k])
    {
      DisturbsExactly(batches[i].records[k]);
    }
  }

  // --- What the answer means ---

  /** A moment the timer is set: the start, or a structural batch. */
  predicate Start(batches: seq<Batch>, from: nat, g: nat) {
    g == from || exists i :: 0 <= i < |batches| && Restarts(batches[i]) && batches[i].time == g
  }

  /** No structural batch falls strictly inside the gap that starts at g. */
  predicate Clear(batches: seq<Batch>, g: nat, quietMs: nat) {
    forall i :: 0 <= i < |batches| && Restarts(batches[i]) ==> !(g < batches[i].time < g + quietMs)
  }

  ghost predicate QuietGap(batches: seq<Batch>, from: nat, quietMs: nat, timeoutMs: nat) {
    exists g: nat :: Start(batches, from, g) && g + quietMs < timeoutMs && Clear(batches, g, quietMs)
  }

  /** Some stretch of quietMs from `from` on, wherever it begins, holds no structural batch and
      ends before the timeout. */
  ghost predicate AnyQuietGap(batches: seq<Batch>, from: nat, quietMs: nat, timeoutMs: nat) {
    exists g: nat :: from <= g && g + quietMs < timeoutMs && Clear(batches, g, quietMs)
  }

  /** The last moment the timer was set, at or before g. */
  lemma {:induction false} LastStart(batches: seq<Batch>, from: nat, g: nat, n: nat) returns (start: nat)
    requires from <= g && n <= |batches|
    ensures Start(batches, from, start) && start <= g
    ensures forall i :: 0 <= i < n && Restarts(batches[i]) && batches[i].time <= g ==> batches[i].time <= start
  {
    if n == 0 {
      start := from;
    } else {
      start := LastStart(batches, from, g, n - 1);
      if Restarts(batches[n - 1]) && start < batches[n - 1].time <= g {
        start := batches[n - 1].time;
      }
    }
  }

  /** A quiet stretch may as well begin where the timer was last set before it. */
  lemma AnyGapIsATimersGap(batches: seq<Batch>, from: nat, quietMs: nat, timeoutMs: nat)
    requires forall i :: 0 <= i < |batches| ==> from <= batches[i].time
    ensures AnyQuietGap(batches, from, quietMs, timeoutMs) <==> QuietGap(batches, from, quietMs, timeoutMs)
  {
    if AnyQuietGap(batches, from, quietMs, timeoutMs) {
      var g: nat :| from <= g && g + quietMs < timeoutMs && Clear(batches, g, quietMs);
      var start := LastStart(batches, from, g, |batches|);
      assert Clear(batches, start, quietMs);
    }
    if QuietGap(batches, from, quietMs, timeoutMs) {
      var g: nat :| Start(batches, from, g) && g + quietMs < timeoutMs && Clear(batches, g, quietMs);
      assert from <= g;
    }
  }

  /** Nothing happens at the very moment a timer is due. */
  ghost predicate NoTies(batches: seq<Batch>, from: nat, quietMs: nat, timeoutMs: nat) {
    forall g: nat :: Start(batches, from, g) ==>
      g + quietMs != timeoutMs && forall i :: 0 <= i < |batches| && Restarts(batches[i]) ==>
          batches[i].time != g + quietMs
  }

  lemma StartsOfTail(batches: seq<Batch>, from: nat, g: nat)
    requires batches != []
    ensures Start(batches, from, g) <==>
            g == from || (Restarts(batches[0]) && g == batches[0].time) || Start(batches[1..], from, g)
  {
    if Start(batches, from, g) && g != from {
      var i :| 0 <= i < |batches| && Restarts(batches[i]) && batches[i].time == g;
      assert i > 0 ==> batches[1..][i - 1] == batches[i];
    }
    if Start(batches[1..], from, g) && g != from {
      var i :| 0 <= i < |batches| - 1 && Restarts(batches[1..][i]) && batches[1..][i].time == g;
      assert batches[i + 1] == batches[1..][i];
    }
  }

  /** The gate answers true exactly when some gap of quietMs free of structural mutations
      ends before timeoutMs. */
  lemma {:induction false} AnswerMeansGap(batches: seq<Batch>, from: nat, quietMs: nat, timeoutMs: nat)
    requires Ordered(batches) && NoTies(batches, from, quietMs, timeoutMs)
    requires forall i :: 0 <= i < |batches| ==> from <= batches[i].time
    ensures Answer(batches, from + quietMs, quietMs, timeoutMs) <==> QuietGap(batches, from, quietMs, timeoutMs)
    decreases |batches|
  {
    var due := from + quietMs;
    assert Start(batches, from, from);
    if batches == [] || due < batches[0].time || timeoutMs < batches[0].time {
      if due < timeoutMs {
        assert Clear(batches, from, quietMs);
      }
    } else {
      var rest := batches[1..];
      var from' := if Restarts(batches[0]) then batches[0].time else from;
      forall g: nat
        ensures Start(batches, from, g) <==> g == from || Start(rest, from', g)
      {
        StartsOfTail(batches, from, g);
      }
      AnswerMeansGap(rest, from', quietMs, timeoutMs);
      GapOfTail(batches, from, quietMs, timeoutMs);
    }
  }

  lemma GapOfTail(batches: seq<Batch>, from: nat, quietMs: nat, timeoutMs: nat)
    requires Ordered(batches) && batches != [] && NoTies(batches, from, quietMs, timeoutMs)
    requires from <= batches[0].time <= from + quietMs
    ensures QuietGap(batches, from, quietMs, timeoutMs) <==>
            QuietGap(batches[1..], if Restarts(batches[0]) then batches[0].time else from, quietMs, timeoutMs)
  {
    var rest := batches[1..];
    var from' := if Restarts(batches[0]) then batches[0].time else from;
    if QuietGap(batches, from, quietMs, timeoutMs) {
      var g: nat :| Start(batches, from, g) && g + quietMs < timeoutMs && Clear(batches, g, quietMs);
      GapInTail(batches, from, g, quietMs, timeoutMs);
    }
    if QuietGap(rest, from', quietMs, timeoutMs) {
      var g: nat :| Start(rest, from', g) && g + quietMs < timeoutMs && Clear(rest, g, quietMs);
      StartsOfTail(batches, from, g);
      assert g >= from';
      ClearOfTail(batches, g, quietMs);
    }
  }

  lemma ClearOfTail(batches: seq<Batch>, g: nat, quietMs: nat)
    requires batches != []
    ensures Clear(batches, g, quietMs) <==>
            Clear(batches[1..], g, quietMs) && (Restarts(batches[0]) ==> !(g < batches[0].time < g + quietMs))
  {
    assert batches == [batches[0]] + batches[1..];
    if Clear(batches, g, quietMs) {
      assert forall i :: 0 <= i < |batches| - 1 ==> batches[1..][i] == batches[i + 1];
    }
  }

  lemma GapInTail(batches: seq<Batch>, from: nat, g: nat, quietMs: nat, timeoutMs: nat)
    requires Ordered(batches) && batches != [] && NoTies(batches, from, quietMs, timeoutMs)
    requires from <= batches[0].time <= from + quietMs
    requires Start(batches, from, g) && g + quietMs < timeoutMs && Clear(batches, g, quietMs)
    ensures QuietGap(batches[1..], if Restarts(batches[0]) then batches[0].time else from, quietMs, timeoutMs)
  {
    var from' := if Restarts(batches[0]) then batches[0].time else from;
    StartsOfTail(batches, from, g);
    ClearOfTail(batches, g, quietMs);
    assert Start(batches, from, from);
    assert Start(batches[1..], from', g);
  }

  // --- Non-structural churn ---

  function StructuralOnly(records: seq<Mutation>): seq<Mutation> {
    if records == [] then []
    else (if IsStructural(records[0]) then [records[0]] else []) + StructuralOnly(records[1..])
  }

  lemma {:induction false} StructuralOnlyMembers(records: seq<Mutation>)
    ensures forall m :: m in StructuralOnly(records) <==> m in records && IsStructural(m)
  {
    if records != [] {
      StructuralOnlyMembers(records[1..]);
      assert records == [records[0]] + records[1..];
    }
  }

  /** The same page without its non-structural mutations. */
  function WithoutChurn(batches: seq<Batch>): seq<Batch> {
    if batches == [] then []
    else
      var kept := StructuralOnly(batches[0].records);
      (if kept == [] then [] else [Batch(batches[0].time, kept)]) + WithoutChurn(batches[1..])
  }

  lemma {:induction false} WithoutChurnTimes(batches: seq<Batch>)
    ensures forall b :: b in WithoutChurn(batches) ==> exists i :: 0 <= i < |batches| && batches[i].time == b.time
  {
    if batches != [] {
      WithoutChurnTimes(batches[1..]);
      forall b | b in WithoutChurn(batches)
        ensures exists i :: 0 <= i < |batches| && batches[i].time == b.time
      {
        if b.time != batches[0].time {
          var i :| 0 <= i < |batches| - 1 && batches[1..][i].time == b.time;
          assert batches[i + 1].time == b.time;
        }
      }
    }
  }

  lemma KeptRestarts(b: Batch)
    ensures StructuralOnly(b.records) != [] <==> Restarts(b)
    ensures Restarts(b) ==> Restarts(Batch(b.time, StructuralOnly(b.records)))
  {
    var kept := StructuralOnly(b.records);
    StructuralOnlyMembers(b.records);
    if kept != [] {
      assert kept[0] in b.records && IsStructural(kept[0]);
    }
    if Restarts(b) {
      var i :| 0 <= i < |b.records| && IsStructural(b.records[i]);
      assert b.records[i] in kept;
    }
  }

  /** Deleting every non-structural mutation never changes the answer, ties or not. */
  lemma {:induction false} ChurnIsIgnored(batches: seq<Batch>, due: nat, quietMs: nat, timeoutMs: nat)
    requires Ordered(batches)
    ensures Answer(WithoutChurn(batches), due, quietMs, timeoutMs) == Answer(batches, due, quietMs, timeoutMs)
    decreases |batches|
  {
    if batches != [] {
      var b, rest := batches[0], batches[1..];
      KeptRestarts(b);
      if due < b.time || timeoutMs < b.time {
        var kept := WithoutChurn(batches);
        if kept != [] {
          WithoutChurnTimes(batches);
          assert kept[0] in kept;
        }
      } else {
        ChurnIsIgnored(rest, if Restarts(b) then b.time + quietMs else due, quietMs, timeoutMs);
        var kept := StructuralOnly(b.records);
        if kept != [] {
          assert WithoutChurn(batches)[1..] == WithoutChurn(rest);
        } else {
          assert WithoutChurn(batches) == WithoutChurn(rest);
        }
      }
    }
  }
}
