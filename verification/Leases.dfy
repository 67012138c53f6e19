/** The lease and the heartbeat: a claim lasts exactly as long as its beats, so workers that beat
    in time are never late. */
module Leases {
  import opened Text
  import opened Evidence
  import opened JobQueue
  import opened Protocol
  import opened ProtocolSafety
  import L = LeaseLedger

  /** The step claims job j, or some worker of it beats. */
  predicate Beats(step: Step, j: string) {
    || (step.ClaimJob? && step.id == j)
    || (step.Work? && step.job == j && (step.move.BeatLogin? || step.move.BeatSurface?))
  }

  /** When job j was last claimed or beaten for in the first i steps. */
  ghost function LastBeat(ss: seq<State>, steps: seq<Step>, i: nat, j: string): nat
    requires i <= |steps| && i <= |ss|
  {
    if i == 0 then 0
    else if Beats(steps[i - 1], j) then ss[i - 1].now
    else LastBeat(ss, steps, i - 1, j)
  }

  /** The heartbeat column of a job in progress shows the last beat. */
  ghost predicate ShowsBeat(s: State, j: string, beat: nat) {
    j in s.jobs && s.jobs[j].status == L.InProgress ==> s.jobs[j].heartbeatAt == Some(beat)
  }

  lemma WorkShowsBeat(env: Env, s: State, j: string, a: nat, m: Move, k: string, beat: nat)
    requires Enabled(env, s, Work(j, a, m)) && ShowsBeat(s, k, beat) && TimingOk(s.jobs[j])
    ensures ShowsBeat(Next(env, s, Work(j, a, m)), k, if Beats(Work(j, a, m), k) then s.now else beat)
  {
    var write := WriteOf(env, s, j, a, m);
    assert write.Beat? <==> m.BeatLogin? || m.BeatSurface?;
    if m.FinishJob? {
      FinishRefusedExactlyWhenPending(s.jobs[j], "", s.workers[(j, a)].pc.ending.outcome, a, s.now);
      assert write.SetJob? ==> write.job.status != L.InProgress;
    }
    assert write.SetJob? ==> m.FinishJob?;
    AppliedBeat(env, s, j, a, write, NextWorker(env, s, j, a, m), k, beat);
  }

  lemma AppliedBeat(env: Env, s: State, j: string, a: nat, write: Write, worker: Worker, k: string, beat: nat)
    requires j in s.jobs && ShowsBeat(s, k, beat) && (write.SetJob? ==> write.job.status != L.InProgress)
    ensures ShowsBeat(Apply(env, s, j, a, write, worker), k, if write.Beat? && j == k then s.now else beat)
  {
  }

  lemma StepShowsBeat(env: Env, s: State, step: Step, j: string, beat: nat)
    requires Enabled(env, s, step) && JobsOk(s) && ShowsBeat(s, j, beat)
    ensures ShowsBeat(Next(env, s, step), j, if Beats(step, j) then s.now else beat)
  {
    if step.Work? {
      assert JobOk(s, step.job);
      WorkShowsBeat(env, s, step.job, step.attempt, step.move, j, beat);
    }
  }

  /** In any run the heartbeat of a job in progress is when it was last claimed or beaten for. */
  lemma {:induction false} HeartbeatIsLastBeat(env: Env, ss: seq<State>, steps: seq<Step>, i: nat, j: string)
    requires GoodEnv(env) && Execution(env, ss, steps) && i < |ss|
    ensures ShowsBeat(ss[i], j, LastBeat(ss, steps, i, j))
  {
    if i > 0 {
      HeartbeatIsLastBeat(env, ss, steps, i - 1, j);
      InvThroughout(env, ss, steps, i - 1);
      StepAt(env, ss, steps, i - 1);
      StepShowsBeat(env, ss[i - 1], steps[i - 1], j, LastBeat(ss, steps, i - 1, j));
    }
  }

  // --- When a claim ends ---

  /** The step reports some execution of the job, or reaps more than 120 seconds after its last
      beat. */
  predicate EndsClaim(s: State, step: Step, j: string, beat: nat) {
    (step.Work? && step.job == j && step.move.FinishJob?) || (step.ReapJobs? && beat + 120 < s.now)
  }

  lemma StepEndsExactly(env: Env, s: State, step: Step, j: string, a: nat, beat: nat)
    requires Enabled(env, s, step) && JobsOk(s) && Current(s, j, a) && ShowsBeat(s, j, beat)
    ensures Current(Next(env, s, step), j, a) <==> !EndsClaim(s, step, j, beat)
  {
    if step.Work? {
      assert JobOk(s, step.job);
      WorkEndsExactly(env, s, step.job, step.attempt, step.move, j, a);
    }
  }

  lemma WorkEndsExactly(env: Env, s: State, j: string, a: nat, m: Move, k: string, b: nat)
    requires Enabled(env, s, Work(j, a, m)) && TimingOk(s.jobs[j]) && Current(s, k, b)
    ensures Current(Next(env, s, Work(j, a, m)), k, b) <==> !(j == k && m.FinishJob?)
  {
    var write := WriteOf(env, s, j, a, m);
    if m.FinishJob? {
      FinishRefusedExactlyWhenPending(s.jobs[j], "", s.workers[(j, a)].pc.ending.outcome, a, s.now);
      assert j == k ==> write.SetJob? && write.job.status != L.InProgress;
    }
    assert write.SetJob? ==> m.FinishJob?;
    AppliedCurrent(env, s, j, a, write, NextWorker(env, s, j, a, m), k, b);
  }

  lemma AppliedCurrent(env: Env, s: State, j: string, a: nat, write: Write, worker: Worker, k: string, b: nat)
    requires j in s.jobs && Current(s, k, b) && (write.SetJob? ==> write.job.status != L.InProgress)
    ensures Current(Apply(env, s, j, a, write, worker), k, b) <==> !(j == k && write.SetJob?)
  {
  }

  /** In any run, late writers included, a claim in progress ends exactly at a report on the job or
      at a reap more than 120 seconds after the job's last claim or beat. */
  lemma ClaimEndsExactly(tenant: string, digests: Digests, json: Observation -> Bytes,
                         ss: seq<State>, steps: seq<Step>, i: nat, j: string, a: nat)
    requires '/' !in tenant && Execution(Deployment(tenant, digests, json), ss, steps) && i < |steps|
    requires Current(ss[i], j, a)
    ensures Current(ss[i + 1], j, a) <==> !EndsClaim(ss[i], steps[i], j, LastBeat(ss, steps, i, j))
  {
    var env := Deployment(tenant, digests, json);
    DeploymentIsGood(tenant, digests, json);
    ClaimEnds(env, ss, steps, i, j, a);
  }

  lemma ClaimEnds(env: Env, ss: seq<State>, steps: seq<Step>, i: nat, j: string, a: nat)
    requires GoodEnv(env) && Execution(env, ss, steps) && i < |steps| && Current(ss[i], j, a)
    ensures Current(ss[i + 1], j, a) <==> !EndsClaim(ss[i], steps[i], j, LastBeat(ss, steps, i, j))
  {
    InvThroughout(env, ss, steps, i);
    HeartbeatIsLastBeat(env, ss, steps, i, j);
    StepAt(env, ss, steps, i);
    StepEndsExactly(env, ss[i], steps[i], j, a, LastBeat(ss, steps, i, j));
  }

  /** A claim beaten for in time is in progress until somebody reports on the job. */
  lemma {:induction false} ClaimLasts(tenant: string, digests: Digests, json: Observation -> Bytes,
                                      ss: seq<State>, steps: seq<Step>, c: nat, i: nat, j: string, a: nat)
    requires '/' !in tenant && Execution(Deployment(tenant, digests, json), ss, steps) && c <= i < |ss|
    requires Current(ss[c], j, a)
    requires forall r: nat :: c <= r < i && steps[r].ReapJobs? ==> ss[r].now <= LastBeat(ss, steps, r, j) + 120
    requires forall r: nat :: c <= r < i && steps[r].Work? && steps[r].job == j ==> !steps[r].move.FinishJob?
    ensures Current(ss[i], j, a)
    decreases i
  {
    if c < i {
      ClaimLasts(tenant, digests, json, ss, steps, c, i - 1, j, a);
      ClaimEndsExactly(tenant, digests, json, ss, steps, i - 1, j, a);
    }
  }

  // --- Workers that beat in time are never late ---

  /** The execution still runs. */
  predicate Runs(s: State, j: string, a: nat) {
    (j, a) in s.workers && !s.workers[(j, a)].pc.Gone?
  }

  /** No reap comes more than 120 seconds after the last beat for a job some worker still runs. */
  ghost predicate BeatenInTime(ss: seq<State>, steps: seq<Step>) {
    forall r: nat, j: string, a: nat :: r < |steps| && r < |ss| && steps[r].ReapJobs? && Runs(ss[r], j, a) ==>
      ss[r].now <= LastBeat(ss, steps, r, j) + 120
  }

  ghost predicate RunningAreCurrent(s: State) {
    forall j: string, a: nat :: Runs(s, j, a) ==> Current(s, j, a)
  }

  /** Who runs after a step ran before it, or was claimed by it. */
  lemma RanBefore(env: Env, s: State, step: Step, j: string, a: nat)
    requires Enabled(env, s, step) && Runs(Next(env, s, step), j, a)
    ensures Runs(s, j, a) || (step.ClaimJob? && step.id == j && a == s.jobs[j].attempts + 1)
    ensures step.Work? && step.job == j && step.attempt == a ==> !step.move.FinishJob?
  {
    if step.Work? {
      WorkersAfter(env, s, step.job, step.attempt, WriteOf(env, s, step.job, step.attempt, step.move),
                   NextWorker(env, s, step.job, step.attempt, step.move));
      MoverRuns(env, s, step.job, step.attempt, step.move);
    }
  }

  lemma WorkersAfter(env: Env, s: State, j: string, a: nat, write: Write, worker: Worker)
    requires j in s.jobs
    ensures Apply(env, s, j, a, write, worker).workers == s.workers[(j, a) := worker]
  {
  }

  lemma MoverRuns(env: Env, s: State, j: string, a: nat, m: Move)
    requires Enabled(env, s, Work(j, a, m))
    ensures Runs(s, j, a) && (m.FinishJob? ==> NextWorker(env, s, j, a, m).pc.Gone?)
  {
  }

  lemma StepKeepsRunning(env: Env, s: State, step: Step, j: string, a: nat, beat: nat)
    requires Enabled(env, s, step) && JobsOk(s) && RunningAreCurrent(s) && ShowsBeat(s, j, beat)
    requires Runs(s, j, a) && step.ReapJobs? ==> s.now <= beat + 120
    requires Runs(Next(env, s, step), j, a)
    ensures Current(Next(env, s, step), j, a)
  {
    RanBefore(env, s, step, j, a);
    if Runs(s, j, a) {
      if step.Work? {
        MoverRuns(env, s, step.job, step.attempt, step.move);
      }
      StepEndsExactly(env, s, step, j, a, beat);
    }
  }

  lemma {:induction false} RunningThroughout(env: Env, ss: seq<State>, steps: seq<Step>, i: nat)
    requires GoodEnv(env) && Execution(env, ss, steps) && BeatenInTime(ss, steps) && i < |ss|
    ensures RunningAreCurrent(ss[i])
  {
    if i > 0 {
      RunningThroughout(env, ss, steps, i - 1);
      InvThroughout(env, ss, steps, i - 1);
      StepAt(env, ss, steps, i - 1);
      forall j: string, a: nat | Runs(ss[i], j, a)
        ensures Current(ss[i], j, a)
      {
        HeartbeatIsLastBeat(env, ss, steps, i - 1, j);
        StepKeepsRunning(env, ss[i - 1], steps[i - 1], j, a, LastBeat(ss, steps, i - 1, j));
      }
    }
  }

  /** A run in which every job is beaten for in time while a worker runs it has no late writer. */
  lemma BeatingInTimeIsTimely(tenant: string, digests: Digests, json: Observation -> Bytes,
                              ss: seq<State>, steps: seq<Step>)
    requires '/' !in tenant && Execution(Deployment(tenant, digests, json), ss, steps) && BeatenInTime(ss, steps)
    ensures TimelyExecution(Deployment(tenant, digests, json), ss, steps)
  {
    var env := Deployment(tenant, digests, json);
    DeploymentIsGood(tenant, digests, json);
    forall i | 0 <= i < |steps|
      ensures Timely(ss[i], steps[i])
    {
      RunningThroughout(env, ss, steps, i);
      StepAt(env, ss, steps, i);
      if steps[i].Work? {
        MoverRuns(env, ss[i], steps[i].job, steps[i].attempt, steps[i].move);
      }
    }
  }
}
