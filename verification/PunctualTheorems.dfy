/** The guarantees of the job protocol when no late writer exists. */
module PunctualTheorems {
  import opened Text
  import opened Evidence
  import opened RunManifest
  import opened JobQueue
  import opened PortalSession
  import opened Protocol
  import opened ProtocolSafety
  import opened ProtocolTheorems
  import opened ProtocolPunctual
  import L = LeaseLedger

  // --- REFERENCED means verified ---

  /** Some step up to `i` was a worker's verification accepting this very record. */
  ghost predicate VerificationAccepted(ss: seq<State>, steps: seq<Step>, t: nat, rec: Record) {
    t < |steps| && t < |ss| && AcceptsNow(ss[t], steps[t], rec)
  }

  ghost predicate AcceptsNow(s: State, step: Step, rec: Record) {
    && step.Work? && step.move.CheckHeads?
    && (step.job, step.attempt) in s.workers
    && s.workers[(step.job, step.attempt)].pc == Checking(rec)
    && AcceptsRecord(rec, step.move.head)
  }

  lemma ApplyVerifies(env: Env, s: State, j: string, a: nat, write: Write, worker: Worker, rec: Record)
    requires j in s.jobs && rec !in s.verified && rec in Apply(env, s, j, a, write, worker).verified
    ensures write == Accept(rec)
  {
  }

  lemma NewlyVerified(env: Env, s: State, step: Step, rec: Record)
    requires Enabled(env, s, step) && rec !in s.verified && rec in Next(env, s, step).verified
    ensures AcceptsNow(s, step, rec)
  {
    if step.Work? {
      var j, a, m := step.job, step.attempt, step.move;
      ApplyVerifies(env, s, j, a, WriteOf(env, s, j, a, m), NextWorker(env, s, j, a, m), rec);
    }
  }

  lemma NewlyVerifiedAt(env: Env, ss: seq<State>, steps: seq<Step>, t: nat, rec: Record)
    requires Execution(env, ss, steps) && t < |steps| && rec !in ss[t].verified && rec in ss[t + 1].verified
    ensures VerificationAccepted(ss, steps, t, rec)
  {
    StepAt(env, ss, steps, t);
    NewlyVerified(env, ss[t], steps[t], rec);
  }

  lemma {:induction false} VerifiedWasChecked(env: Env, ss: seq<State>, steps: seq<Step>, i: nat, rec: Record)
    returns (t: nat)
    requires Execution(env, ss, steps) && i < |ss| && rec in ss[i].verified
    ensures t < i && VerificationAccepted(ss, steps, t, rec)
  {
    assert i > 0;
    if rec in ss[i - 1].verified {
      t := VerifiedWasChecked(env, ss, steps, i - 1, rec);
    } else {
      t := i - 1;
      NewlyVerifiedAt(env, ss, steps, t, rec);
    }
  }

  /** With no late writer a REFERENCED row's own record was accepted by verify_evidence. */
  lemma ReferencedWasVerified(tenant: string, digests: Digests, json: Observation -> Bytes,
                              ss: seq<State>, steps: seq<Step>, i: nat, id: (string, string)) returns (t: nat)
    requires '/' !in tenant && TimelyExecution(Deployment(tenant, digests, json), ss, steps) && i < |ss|
    requires id in ss[i].results && ss[i].results[id].state == Referenced
    ensures ss[i].results[id].rec.Some?
    ensures t < i && VerificationAccepted(ss, steps, t, ss[i].results[id].rec.value)
  {
    var env := Deployment(tenant, digests, json);
    DeploymentIsGood(tenant, digests, json);
    PunctualThroughout(env, ss, steps, i);
    t := VerifiedWasChecked(env, ss, steps, i, ss[i].results[id].rec.value);
  }

  // --- A succeeded job is complete ---

  /** Over any history of interrupted and reaped attempts, a succeeded job has a row for
      every surface of its manifest and for nothing else, all written by its last attempt. */
  lemma SucceededJobsAreComplete(tenant: string, digests: Digests, json: Observation -> Bytes,
                                 ss: seq<State>, steps: seq<Step>, i: nat, j: string, surface: string)
    requires '/' !in tenant && TimelyExecution(Deployment(tenant, digests, json), ss, steps) && i < |ss|
    requires j in ss[i].jobs && ss[i].jobs[j].status == L.Succeeded
    ensures ss[i].jobs[j].manifest in ss[i].manifests
    ensures (j, surface) in ss[i].results <==> surface in Keys(ss[i].manifests[ss[i].jobs[j].manifest].surfaces)
    ensures (j, surface) in ss[i].results ==> ss[i].results[(j, surface)].attempt == ss[i].jobs[j].attempts
  {
    var env := Deployment(tenant, digests, json);
    var s := ss[i];
    DeploymentIsGood(tenant, digests, json);
    InvThroughout(env, ss, steps, i);
    PunctualThroughout(env, ss, steps, i);
    assert JobOk(s, j) && StatusOk(s, j);
    assert Surfaces(s, j) == s.manifests[s.jobs[j].manifest].surfaces;
    if (j, surface) in s.results {
      assert RowOk(env, s, j, surface);
    }
    if surface in Keys(Surfaces(s, j)) {
      var x :| x in Surfaces(s, j) && x.key == surface;
      var idx :| 0 <= idx < |Surfaces(s, j)| && Surfaces(s, j)[idx] == x;
      assert WrittenBy(s, j, s.jobs[j].attempts, |Surfaces(s, j)|);
    }
  }

  // --- Attempts ---

  lemma TimelyLedgerStep(env: Env, s: State, step: Step, j: string)
    requires Roster(s) && JobsOk(s) && Enabled(env, s, step) && Timely(s, step) && j in s.jobs
    requires L.Punctual(LedgerOf(s, j), true)
    ensures FollowsLedger(env, s, step, j)
    ensures L.Punctual(LedgerOf(Next(env, s, step), j), true)
    ensures L.Rank(LedgerOf(Next(env, s, step), j)) <= L.Rank(LedgerOf(s, j))
    ensures var lstep := LedgerStep(env, s, step, j);
            lstep.Some? && !lstep.value.Lose? ==> L.Rank(LedgerOf(Next(env, s, step), j)) < L.Rank(LedgerOf(s, j))
  {
    StepFollowsLedger(env, s, step, j);
    var lstep := LedgerStep(env, s, step, j);
    if lstep.Some? {
      assert L.Timely(LedgerOf(s, j), lstep.value);
      L.PunctualStep(LedgerOf(s, j), lstep.value, true);
      L.RankFalls(LedgerOf(s, j), lstep.value);
    }
  }

  lemma {:induction false} PunctualLedger(env: Env, ss: seq<State>, steps: seq<Step>, i: nat, j: string)
    requires GoodEnv(env) && TimelyExecution(env, ss, steps) && i < |ss| && j in ss[i].jobs
    ensures L.Punctual(LedgerOf(ss[i], j), true)
  {
    if i > 0 {
      InvThroughout(env, ss, steps, i - 1);
      StepAt(env, ss, steps, i - 1);
      if j in ss[i - 1].jobs {
        PunctualLedger(env, ss, steps, i - 1, j);
        TimelyLedgerStep(env, ss[i - 1], steps[i - 1], j);
      } else {
        NewJobHasFreshLedger(env, ss[i - 1], steps[i - 1], j);
      }
    }
  }

  /** With no late writer a job is claimed at most MAX times, and every claim is accounted
      for: it was reaped, it finished, or it is in progress. */
  lemma AttemptsAreAccounted(tenant: string, digests: Digests, json: Observation -> Bytes,
                             ss: seq<State>, steps: seq<Step>, j: string)
    requires '/' !in tenant && TimelyExecution(Deployment(tenant, digests, json), ss, steps)
    requires j in ss[|steps|].jobs
    ensures ClaimsOf(steps, j) <= L.MAX_ATTEMPTS
    ensures var s := ss[|steps|];
            j in s.finishes &&
            ClaimsOf(steps, j) == s.jobs[j].reaps + s.finishes[j] + (if s.jobs[j].status == L.InProgress then 1 else 0)
  {
    var env := Deployment(tenant, digests, json);
    DeploymentIsGood(tenant, digests, json);
    PunctualLedger(env, ss, steps, |steps|, j);
    AttemptsCountClaims(env, ss, steps, |steps|, j);
    InvThroughout(env, ss, steps, |steps|);
    assert JobOk(ss[|steps|], j);
    assert steps[..|steps|] == steps;
  }

  // --- Credentials are not resubmitted ---

  /** Whenever a job is re-claimed after an attempt that ended in a LoginError, that attempt
      submitted no password, or its login had succeeded. Only an attempt that died before its
      report can have had its password rejected. */
  lemma ReclaimNeverFollowsARejectedPassword(tenant: string, digests: Digests, json: Observation -> Bytes,
                                             ss: seq<State>, steps: seq<Step>, i: nat, j: string, who: string)
    requires '/' !in tenant && TimelyExecution(Deployment(tenant, digests, json), ss, steps) && i < |steps|
    requires steps[i] == ClaimJob(j, who) && j in ss[i].jobs && ss[i].jobs[j].attempts > 0
    ensures (j, ss[i].jobs[j].attempts) in ss[i].workers
    ensures var w := ss[i].workers[(j, ss[i].jobs[j].attempts)];
            w.ended.Some? && w.ended.value.code.Some? ==>
              LoggedIn(w) || w.login.None? || !PasswordSubmitted(w.login.value)
    ensures var w := ss[i].workers[(j, ss[i].jobs[j].attempts)];
            w.login.Some? && w.login.value.raised.Some? && PasswordSubmitted(w.login.value) ==>
              w.ended.None? && ss[i].jobs[j].status == L.Pending
  {
    var env := Deployment(tenant, digests, json);
    DeploymentIsGood(tenant, digests, json);
    InvThroughout(env, ss, steps, i);
    PunctualThroughout(env, ss, steps, i);
    StepAt(env, ss, steps, i);
    assert StatusOk(ss[i], j);
    assert LocalOk(ss[i].jobs[j].payload, ss[i].workers[(j, ss[i].jobs[j].attempts)]);
  }

  // --- Bounded overtaking ---

  /** Attempts spent by a set of jobs. */
  ghost function Spent(jobs: Jobs, ids: set<string>): nat
    requires ids <= jobs.Keys
  {
    if ids == {} then 0
    else
      var id :| id in ids;
      jobs[id].attempts + Spent(jobs, ids - {id})
  }

  lemma {:induction false} SpentWithout(jobs: Jobs, ids: set<string>, id: string)
    requires ids <= jobs.Keys && id in ids
    ensures Spent(jobs, ids) == jobs[id].attempts + Spent(jobs, ids - {id})
    decreases |ids|
  {
    var first :| first in ids && Spent(jobs, ids) == jobs[first].attempts + Spent(jobs, ids - {first});
    if first != id {
      SpentWithout(jobs, ids - {first}, id);
      SpentWithout(jobs, ids - {id}, first);
      assert ids - {first} - {id} == ids - {id} - {first};
    }
  }

  lemma {:induction false} SpentSame(jobs: Jobs, jobs': Jobs, ids: set<string>)
    requires ids <= jobs.Keys && ids <= jobs'.Keys
    requires forall id :: id in ids ==> jobs'[id].attempts == jobs[id].attempts
    ensures Spent(jobs', ids) == Spent(jobs, ids)
    decreases |ids|
  {
    if ids != {} {
      var id :| id in ids;
      SpentWithout(jobs, ids, id);
      SpentWithout(jobs', ids, id);
      SpentSame(jobs, jobs', ids - {id});
    }
  }

  lemma OneMoreTime(bound: nat, n: nat)
    ensures bound * (n + 1) == bound * n + bound
  {
  }

  lemma {:induction false} SpentAtMost(jobs: Jobs, ids: set<string>, bound: nat)
    requires ids <= jobs.Keys && forall id :: id in ids ==> jobs[id].attempts <= bound
    ensures Spent(jobs, ids) <= bound * |ids|
    decreases |ids|
  {
    if ids != {} {
      var id :| id in ids;
      SpentWithout(jobs, ids, id);
      SpentAtMost(jobs, ids - {id}, bound);
      assert |ids| == |ids - {id}| + 1;
      OneMoreTime(bound, |ids - {id}|);
    }
  }

  /** The jobs enqueued before job `j`. */
  ghost function Older(jobs: Jobs, j: string): set<string>
    requires j in jobs
  {
    set id | id in jobs && jobs[id].enqueuedAt < jobs[j].enqueuedAt
  }

  /** Enqueue times are distinct and never change. */
  ghost predicate DistinctTimes(jobs: Jobs) {
    forall j, k :: j in jobs && k in jobs && j != k ==> jobs[j].enqueuedAt != jobs[k].enqueuedAt
  }

  /** Jobs keep their enqueue time; new ones come later than all. */
  ghost predicate KeepsTimes(jobs: Jobs, jobs': Jobs) {
    && (forall k :: k in jobs ==> k in jobs' && jobs'[k].enqueuedAt == jobs[k].enqueuedAt)
    && (forall k :: k in jobs' && k !in jobs ==> forall m :: m in jobs' && m != k ==>
       jobs'[m].enqueuedAt < jobs'[k].enqueuedAt)
  }

  lemma WorkKeepsTimes(env: Env, s: State, j: string, a: nat, m: Move)
    requires Present(s, j, a) && CanMove(env, s, j, a, m)
    ensures KeepsTimes(s.jobs, Next(env, s, Work(j, a, m)).jobs)
  {
    var write := WriteOf(env, s, j, a, m);
    assert write.SetJob? ==> write.job.enqueuedAt == s.jobs[j].enqueuedAt;
    ApplyKeepsTimes(env, s, j, a, write, NextWorker(env, s, j, a, m));
  }

  lemma ApplyKeepsTimes(env: Env, s: State, j: string, a: nat, write: Write, worker: Worker)
    requires j in s.jobs && (write.SetJob? ==> write.job.enqueuedAt == s.jobs[j].enqueuedAt)
    ensures KeepsTimes(s.jobs, Apply(env, s, j, a, write, worker).jobs)
  {
  }

  lemma EnvironmentKeepsTimes(env: Env, s: State, step: Step)
    requires Enabled(env, s, step) && !step.Work?
    ensures KeepsTimes(s.jobs, Next(env, s, step).jobs)
  {
  }

  lemma StepKeepsTimes(env: Env, s: State, step: Step)
    requires Enabled(env, s, step)
    ensures KeepsTimes(s.jobs, Next(env, s, step).jobs)
  {
    if step.Work? {
      WorkKeepsTimes(env, s, step.job, step.attempt, step.move);
    } else {
      EnvironmentKeepsTimes(env, s, step);
    }
  }

  lemma PlacesKept(jobs: Jobs, jobs': Jobs, j: string)
    requires KeepsTimes(jobs, jobs') && DistinctTimes(jobs)
    ensures DistinctTimes(jobs')
    ensures j in jobs ==> Older(jobs', j) == Older(jobs, j)
  {
  }

  /** The claims among some steps, whichever job they take. */
  ghost function Claims(steps: seq<Step>): nat {
    if steps == [] then 0
    else Claims(steps[..|steps| - 1]) + if steps[|steps| - 1].ClaimJob? then 1 else 0
  }

  /** While job `j` waits, a claim takes an older job. */
  lemma ClaimTakesOlder(env: Env, s: State, step: Step, j: string)
    requires Roster(s) && JobsOk(s) && DistinctTimes(s.jobs) && Enabled(env, s, step)
    requires WaitsIn(s, j) && WaitsIn(Next(env, s, step), j)
    requires Older(s.jobs, j) <= Next(env, s, step).jobs.Keys
    ensures Spent(Next(env, s, step).jobs, Older(s.jobs, j)) ==
            Spent(s.jobs, Older(s.jobs, j)) + if step.ClaimJob? then 1 else 0
  {
    var s' := Next(env, s, step);
    var older := Older(s.jobs, j);
    forall k | k in older
      ensures s'.jobs[k].attempts == s.jobs[k].attempts + if step.ClaimJob? && step.id == k then 1 else 0
    {
      StepFollowsLedger(env, s, step, k);
      OnlyClaimsCharge(env, s, step, k);
    }
    if step.ClaimJob? {
      assert step.id in older;
      SpentWithout(s.jobs, older, step.id);
      SpentWithout(s'.jobs, older, step.id);
      SpentSame(s.jobs, s'.jobs, older - {step.id});
    } else {
      SpentSame(s.jobs, s'.jobs, older);
    }
  }

  ghost predicate WaitsIn(s: State, j: string) {
    j in s.jobs && L.Claimable(s.jobs[j].status)
  }

  /** Job `j` can be claimed, and is not, in all states from `lo` to `hi`. */
  ghost predicate Waits(ss: seq<State>, lo: nat, hi: nat, j: string) {
    hi < |ss| && forall t :: lo <= t <= hi ==> WaitsIn(ss[t], j)
  }

  lemma {:induction false} TimesThroughout(env: Env, ss: seq<State>, steps: seq<Step>, i: nat)
    requires Execution(env, ss, steps) && i < |ss|
    ensures DistinctTimes(ss[i].jobs)
  {
    if i > 0 {
      TimesThroughout(env, ss, steps, i - 1);
      StepAt(env, ss, steps, i - 1);
      StepKeepsTimes(env, ss[i - 1], steps[i - 1]);
      PlacesKept(ss[i - 1].jobs, ss[i].jobs, "");
    }
  }

  lemma WaitingStep(env: Env, s: State, step: Step, j: string)
    requires Roster(s) && JobsOk(s) && DistinctTimes(s.jobs) && Enabled(env, s, step)
    requires WaitsIn(s, j) && WaitsIn(Next(env, s, step), j)
    ensures var s' := Next(env, s, step);
            && Older(s'.jobs, j) == Older(s.jobs, j)
            && Spent(s'.jobs, Older(s'.jobs, j)) == Spent(s.jobs, Older(s.jobs, j)) + if step.ClaimJob? then 1 else 0
  {
    StepKeepsTimes(env, s, step);
    PlacesKept(s.jobs, Next(env, s, step).jobs, j);
    ClaimTakesOlder(env, s, step, j);
  }

  /** Jobs enqueued before `j` and the attempts they have spent, between two states. */
  ghost predicate SpentMore(jobs: Jobs, jobs': Jobs, j: string, claims: nat) {
    && j in jobs && j in jobs' && Older(jobs', j) == Older(jobs, j)
    && Spent(jobs', Older(jobs', j)) == Spent(jobs, Older(jobs, j)) + claims
  }

  lemma JobsThroughout(env: Env, ss: seq<State>, steps: seq<Step>, t: nat)
    requires GoodEnv(env) && Execution(env, ss, steps) && t < |ss|
    ensures Roster(ss[t]) && JobsOk(ss[t])
  {
    InvThroughout(env, ss, steps, t);
  }

  lemma WaitingAt(env: Env, ss: seq<State>, steps: seq<Step>, t: nat, j: string)
    requires GoodEnv(env) && Execution(env, ss, steps) && t < |steps|
    requires WaitsIn(ss[t], j) && WaitsIn(ss[t + 1], j)
    ensures SpentMore(ss[t].jobs, ss[t + 1].jobs, j, if steps[t].ClaimJob? then 1 else 0)
  {
    JobsThroughout(env, ss, steps, t);
    TimesThroughout(env, ss, steps, t);
    StepAt(env, ss, steps, t);
    WaitingStep(env, ss[t], steps[t], j);
  }

  ghost predicate SpentAt(ss: seq<State>, steps: seq<Step>, t: nat, j: string)
    requires t < |steps| && t + 1 < |ss|
  {
    SpentMore(ss[t].jobs, ss[t + 1].jobs, j, if steps[t].ClaimJob? then 1 else 0)
  }

  lemma {:induction false} SpentInAll(ss: seq<State>, steps: seq<Step>, lo: nat, hi: nat, j: string)
    requires lo <= hi < |ss| && |ss| == |steps| + 1 && j in ss[lo].jobs
    requires forall t :: lo <= t < hi ==> SpentAt(ss, steps, t, j)
    ensures SpentMore(ss[lo].jobs, ss[hi].jobs, j, Claims(steps[lo..hi]))
    decreases hi - lo
  {
    if lo < hi {
      SpentInAll(ss, steps, lo, hi - 1, j);
      assert SpentAt(ss, steps, hi - 1, j);
      assert steps[lo..hi][..hi - 1 - lo] == steps[lo..hi - 1];
    }
  }

  lemma WaitingIsSpentByOthers(env: Env, ss: seq<State>, steps: seq<Step>, lo: nat, hi: nat, j: string)
    requires GoodEnv(env) && Execution(env, ss, steps) && lo <= hi && Waits(ss, lo, hi, j)
    ensures SpentMore(ss[lo].jobs, ss[hi].jobs, j, Claims(steps[lo..hi]))
  {
    forall t | lo <= t < hi
      ensures SpentAt(ss, steps, t, j)
    {
      WaitingAt(env, ss, steps, t, j);
    }
    SpentInAll(ss, steps, lo, hi, j);
  }

  /** With no late writer, while a job waits to be claimed at most MAX claims per job
      enqueued before it go by: a retried job keeps its place, and nothing enqueued later
      gets ahead. */
  lemma OvertakingIsBounded(tenant: string, digests: Digests, json: Observation -> Bytes,
                            ss: seq<State>, steps: seq<Step>, lo: nat, hi: nat, j: string)
    requires '/' !in tenant && TimelyExecution(Deployment(tenant, digests, json), ss, steps)
    requires lo <= hi && Waits(ss, lo, hi, j)
    ensures Claims(steps[lo..hi]) <= L.MAX_ATTEMPTS * |Older(ss[lo].jobs, j)|
  {
    var env := Deployment(tenant, digests, json);
    DeploymentIsGood(tenant, digests, json);
    WaitingIsSpentByOthers(env, ss, steps, lo, hi, j);
    var older := Older(ss[hi].jobs, j);
    forall k | k in older
      ensures ss[hi].jobs[k].attempts <= L.MAX_ATTEMPTS
    {
      PunctualLedger(env, ss, steps, hi, k);
    }
    SpentAtMost(ss[hi].jobs, older, L.MAX_ATTEMPTS);
  }
}
