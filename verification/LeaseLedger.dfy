/** The claim accounting of one leased queue row.

    Both queues of the repository share it: a row is claimed (which charges an
    attempt), then either finished by a worker or reaped when its lease goes
    stale. Finishing writes are keyed by row id only, so an execution whose lease
    was already reaped can still write. `capped` tells the two reapers apart: the
    UI inspection reaper parks a row that has used up its attempts, the
    enrichment reaper always returns it to pending. */
module LeaseLedger {

  const MAX_ATTEMPTS: nat := 5

  datatype Status = Pending | InProgress | Succeeded | FailedRetryable | FailedPermanent

  predicate Claimable(st: Status) {
    st == Pending || st == FailedRetryable
  }

  /** What an execution reports when it finishes. */
  datatype Outcome = Success | Failure(retryable: bool)

  /** The status a finishing write stores; `attempt` is the attempt number the
      finishing execution was claimed with, not the row's current one. */
  function Classify(outcome: Outcome, attempt: nat): Status {
    match outcome
    case Success => Succeeded
    case Failure(retryable) =>
      if retryable && attempt < MAX_ATTEMPTS then FailedRetryable else FailedPermanent
  }

  /** `open` holds the attempts whose execution may still write;
      `finishes` counts the finishing writes the database accepted. */
  datatype Ledger = Ledger(status: Status, attempts: nat, reaps: nat, finishes: nat, open: set<nat>)

  const FRESH := Ledger(Pending, 0, 0, 0, {})

  /** A finishing write on a row that is back to pending breaks the table's timing
      CHECK and is refused, which ends the execution without a write: that is `Lose`. */
  datatype Step =
    | Claim
    | Reap
    | Finish(attempt: nat, outcome: Outcome)
    | Lose(attempt: nat)

  ghost predicate Enabled(l: Ledger, step: Step) {
    match step
    case Claim => Claimable(l.status)
    case Reap => l.status == InProgress
    case Finish(a, _) => a in l.open && l.status != Pending
    case Lose(a) => a in l.open
  }

  ghost function Next(l: Ledger, step: Step, capped: bool): Ledger
    requires Enabled(l, step)
  {
    match step
    case Claim => l.(status := InProgress, attempts := l.attempts + 1, open := l.open + {l.attempts + 1})
    case Reap =>
      l.(status := if capped && l.attempts >= MAX_ATTEMPTS then FailedPermanent else Pending,
         reaps := l.reaps + 1)
    case Finish(a, outcome) =>
      l.(status := Classify(outcome, a), finishes := l.finishes + 1, open := l.open - {a})
    case Lose(a) => l.(open := l.open - {a})
  }

  /** An execution finishes in time when it is the current claim's. */
  ghost predicate Timely(l: Ledger, step: Step) {
    step.Finish? ==> l.status == InProgress && step.attempt == l.attempts
  }

  ghost predicate History(ls: seq<Ledger>, steps: seq<Step>, capped: bool) {
    && |ls| == |steps| + 1
    && ls[0] == FRESH
    && forall i :: 0 <= i < |steps| ==> Enabled(ls[i], steps[i]) && ls[i + 1] == Next(ls[i], steps[i], capped)
  }

  // --- Bounds that hold whatever late executions write ---

  /** Open executions that no longer hold the lease. */
  ghost function Stale(l: Ledger): set<nat> {
    l.open - (if l.status == InProgress then {l.attempts} else {})
  }

  /** Those that could still store failed_retryable. */
  ghost function Revivers(l: Ledger): set<nat> {
    set a | a in Stale(l) && a < MAX_ATTEMPTS
  }

  ghost function ClaimDue(l: Ledger): nat {
    if Claimable(l.status) then 1 else 0
  }

  ghost predicate Accounted(l: Ledger, capped: bool) {
    && (forall a :: a in l.open ==> 1 <= a <= l.attempts)
    && |Stale(l)| <= l.reaps
    && (l.attempts >= MAX_ATTEMPTS ==>
          l.attempts + ClaimDue(l) + |Revivers(l)| <= MAX_ATTEMPTS + l.reaps)
    && (capped && l.attempts >= MAX_ATTEMPTS ==>
          l.attempts + ClaimDue(l) + |Revivers(l)| <= 2 * MAX_ATTEMPTS - 1)
  }

  lemma SubsetSize<T>(a: set<T>, b: set<T>)
    requires a <= b
    ensures |a| <= |b|
  {
    assert b == a + (b - a);
  }

  /** Attempt numbers below the cap are few. */
  lemma {:induction false} FewSmallAttempts(s: set<nat>, bound: nat)
    requires forall a :: a in s ==> 1 <= a < bound
    requires bound >= 1
    ensures |s| <= bound - 1
    decreases bound
  {
    if bound == 1 {
      assert s == {};
    } else {
      FewSmallAttempts(s - {bound - 1}, bound - 1);
      SubsetSize(s, (s - {bound - 1}) + {bound - 1});
    }
  }

  lemma AccountedClaim(l: Ledger, capped: bool)
    requires Accounted(l, capped) && Claimable(l.status)
    ensures Accounted(Next(l, Claim, capped), capped)
  {
    var n := Next(l, Claim, capped);
    assert Stale(n) == Stale(l) == l.open;
    assert Revivers(n) == Revivers(l);
    SubsetSize(Revivers(n), Stale(n));
    FewSmallAttempts(Revivers(n), MAX_ATTEMPTS);
  }

  lemma AccountedReap(l: Ledger, capped: bool)
    requires Accounted(l, capped) && l.status == InProgress
    ensures Accounted(Next(l, Reap, capped), capped)
  {
    var n := Next(l, Reap, capped);
    SubsetSize(Stale(n), Stale(l) + {l.attempts});
    if l.attempts >= MAX_ATTEMPTS {
      assert Revivers(n) == Revivers(l);
    }
  }

  /** A finish by a stale execution trades one stale execution for another at most. */
  lemma FinishKeepsStaleBound(l: Ledger, a: nat, outcome: Outcome, capped: bool)
    requires Accounted(l, capped) && Enabled(l, Finish(a, outcome))
    ensures |Stale(Next(l, Finish(a, outcome), capped))| <= l.reaps
  {
    var n := Next(l, Finish(a, outcome), capped);
    if l.status == InProgress && a != l.attempts {
      assert a in Stale(l);
      SubsetSize(Stale(n), (Stale(l) - {a}) + {l.attempts});
    } else {
      SubsetSize(Stale(n), Stale(l));
    }
  }

  /** Each revival uses up the execution that wrote it. */
  lemma FinishUsesReviver(l: Ledger, a: nat, outcome: Outcome, capped: bool)
    requires Accounted(l, capped) && Enabled(l, Finish(a, outcome)) && l.attempts >= MAX_ATTEMPTS
    ensures var n := Next(l, Finish(a, outcome), capped);
            ClaimDue(n) + |Revivers(n)| <= ClaimDue(l) + |Revivers(l)|
  {
    var n := Next(l, Finish(a, outcome), capped);
    if a < MAX_ATTEMPTS {
      assert a in Revivers(l);
      SubsetSize(Revivers(n), Revivers(l) - {a});
    } else {
      SubsetSize(Revivers(n), Revivers(l));
    }
  }

  lemma AccountedFinish(l: Ledger, a: nat, outcome: Outcome, capped: bool)
    requires Accounted(l, capped) && Enabled(l, Finish(a, outcome))
    ensures Accounted(Next(l, Finish(a, outcome), capped), capped)
  {
    FinishKeepsStaleBound(l, a, outcome, capped);
    if l.attempts >= MAX_ATTEMPTS {
      FinishUsesReviver(l, a, outcome, capped);
    }
  }

  lemma AccountedLose(l: Ledger, a: nat, capped: bool)
    requires Accounted(l, capped) && a in l.open
    ensures Accounted(Next(l, Lose(a), capped), capped)
  {
    var n := Next(l, Lose(a), capped);
    SubsetSize(Stale(n), Stale(l));
    SubsetSize(Revivers(n), Revivers(l));
  }

  lemma AccountedStep(l: Ledger, step: Step, capped: bool)
    requires Accounted(l, capped) && Enabled(l, step)
    ensures Accounted(Next(l, step, capped), capped)
  {
    match step
    case Claim => AccountedClaim(l, capped);
    case Reap => AccountedReap(l, capped);
    case Finish(a, outcome) => AccountedFinish(l, a, outcome, capped);
    case Lose(a) => AccountedLose(l, a, capped);
  }

  lemma FreshAccounted(capped: bool)
    ensures Accounted(FRESH, capped)
  {
    assert Stale(FRESH) == {};
  }

  lemma AccountedBounds(l: Ledger, capped: bool)
    requires Accounted(l, capped)
    ensures l.attempts <= MAX_ATTEMPTS + l.reaps
    ensures capped ==> l.attempts <= 2 * MAX_ATTEMPTS - 1
  {
  }

  lemma {:induction false} HistoryAccounted(ls: seq<Ledger>, steps: seq<Step>, capped: bool, i: nat)
    requires History(ls, steps, capped) && i < |ls|
    ensures Accounted(ls[i], capped)
  {
    if i == 0 {
      FreshAccounted(capped);
    } else {
      HistoryAccounted(ls, steps, capped, i - 1);
      AccountedStep(ls[i - 1], steps[i - 1], capped);
    }
  }

  /** Claims in any interleaving, late writers included: at most MAX plus the number
      of reaps, and with the capped reaper never more than 2 * MAX - 1. */
  lemma ClaimsBounded(ls: seq<Ledger>, steps: seq<Step>, capped: bool, i: nat)
    requires History(ls, steps, capped) && i < |ls|
    ensures ls[i].attempts <= MAX_ATTEMPTS + ls[i].reaps
    ensures capped ==> ls[i].attempts <= 2 * MAX_ATTEMPTS - 1
  {
    HistoryAccounted(ls, steps, capped, i);
  }

  // --- No late writer ---

  ghost predicate Punctual(l: Ledger, capped: bool) {
    && l.attempts == l.reaps + l.finishes + (if l.status == InProgress then 1 else 0)
    && (l.status == FailedRetryable ==> l.attempts < MAX_ATTEMPTS)
    && (capped ==> l.attempts <= MAX_ATTEMPTS)
    && (capped && l.status == Pending ==> l.attempts < MAX_ATTEMPTS)
  }

  lemma PunctualStep(l: Ledger, step: Step, capped: bool)
    requires Punctual(l, capped) && Enabled(l, step) && Timely(l, step)
    ensures Punctual(Next(l, step, capped), capped)
  {
  }

  /** How many more claims, reaps and finishes a punctual row can see. */
  ghost function Rank(l: Ledger): int {
    2 * (MAX_ATTEMPTS - l.attempts) + (if l.status == InProgress then 1 else 0)
  }

  lemma RankFalls(l: Ledger, step: Step)
    requires Punctual(l, true) && Enabled(l, step) && Timely(l, step)
    ensures Rank(l) >= 0 && Rank(Next(l, step, true)) >= 0
    ensures step.Lose? || Rank(Next(l, step, true)) < Rank(l)
    ensures step.Lose? ==> Rank(Next(l, step, true)) == Rank(l)
  {
  }

  ghost predicate PunctualHistory(ls: seq<Ledger>, steps: seq<Step>, capped: bool) {
    && History(ls, steps, capped)
    && forall i :: 0 <= i < |steps| ==> Timely(ls[i], steps[i])
  }

  /** The steps that move a row through its life: everything but losing an execution. */
  ghost function Moves(steps: seq<Step>): nat {
    if steps == [] then 0
    else Moves(steps[..|steps| - 1]) + if steps[|steps| - 1].Lose? then 0 else 1
  }

  lemma {:induction false} PunctualThroughout(ls: seq<Ledger>, steps: seq<Step>, capped: bool, i: nat)
    requires PunctualHistory(ls, steps, capped) && i < |ls|
    ensures Punctual(ls[i], capped)
  {
    if i > 0 {
      PunctualThroughout(ls, steps, capped, i - 1);
      PunctualStep(ls[i - 1], steps[i - 1], capped);
    }
  }

  /** With no late writer the capped queue is well-founded: a row is claimed, reaped and
      finished at most 2 * MAX times in all, each such step lowering `Rank`. */
  lemma {:induction false} PunctualLifeIsFinite(ls: seq<Ledger>, steps: seq<Step>, i: nat)
    requires PunctualHistory(ls, steps, true) && i < |ls|
    ensures Rank(ls[i]) >= 0
    ensures Moves(steps[..i]) + Rank(ls[i]) <= 2 * MAX_ATTEMPTS
  {
    PunctualThroughout(ls, steps, true, i);
    if i > 0 {
      PunctualLifeIsFinite(ls, steps, i - 1);
      PunctualThroughout(ls, steps, true, i - 1);
      RankFalls(ls[i - 1], steps[i - 1]);
      assert steps[..i][..i - 1] == steps[..i - 1];
    }
  }

  // --- The bound of 2 * MAX - 1 is reached ---

  ghost predicate OpenFrom(l: Ledger, lo: nat, hi: nat) {
    forall a: nat :: a in l.open <==> lo <= a <= hi
  }

  lemma SecondLifeIsReachable() returns (ls: seq<Ledger>, steps: seq<Step>)
    ensures History(ls, steps, true)
    ensures ls[|ls| - 1].attempts == 2 * MAX_ATTEMPTS - 1
  {
    ls, steps := [FRESH], [];
    for k := 0 to 5
      invariant History(ls, steps, true)
      invariant ls[|ls| - 1].attempts == k
      invariant OpenFrom(ls[|ls| - 1], 1, k)
      invariant ls[|ls| - 1].status == if k < 5 then Pending else FailedPermanent
    {
      var l := ls[|ls| - 1];
      var claimed := Next(l, Claim, true);
      ls, steps := ls + [claimed, Next(claimed, Reap, true)], steps + [Claim, Reap];
    }
    for k := 1 to 5
      invariant History(ls, steps, true)
      invariant ls[|ls| - 1].attempts == 4 + k
      invariant OpenFrom(ls[|ls| - 1], k, 4 + k)
      invariant ls[|ls| - 1].status == FailedPermanent
    {
      var l := ls[|ls| - 1];
      var late := Finish(k, Failure(true));
      var revived := Next(l, late, true);
      var claimed := Next(revived, Claim, true);
      ls, steps := ls + [revived, claimed, Next(claimed, Reap, true)], steps + [late, Claim, Reap];
    }
  }

  /** Without the cap there is no bound: a row whose lease dies every time is claimed forever. */
  lemma UncappedClaimsAreUnbounded(n: nat) returns (ls: seq<Ledger>, steps: seq<Step>)
    ensures PunctualHistory(ls, steps, false)
    ensures ls[|ls| - 1].attempts == n && ls[|ls| - 1].status == Pending
  {
    ls, steps := [FRESH], [];
    for k := 0 to n
      invariant PunctualHistory(ls, steps, false)
      invariant ls[|ls| - 1].attempts == k && ls[|ls| - 1].status == Pending
    {
      var claimed := Next(ls[|ls| - 1], Claim, false);
      ls, steps := ls + [claimed, Next(claimed, Reap, false)], steps + [Claim, Reap];
    }
  }
}
