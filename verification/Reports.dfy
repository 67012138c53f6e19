/** What a finishing report leaves in the job table, said of what happened to the execution. */
module Reports {
  import opened Text
  import opened Evidence
  import opened RunManifest
  import opened JobQueue
  import opened PortalSession
  import opened Protocol
  import opened ProtocolSafety
  import opened ProtocolPunctual
  import L = LeaseLedger

  /** The status an accepted report stores. A portal that was not reached and a session that was
      lost are tried again, four times at most; every other fault is final. */
  predicate ReportShows(e: Ending, attempt: nat, status: L.Status) {
    if e.code.Some? then
      status == (if attempt < 5 && (e.code == Some(PageNotReached) || e.code == Some(SessionLost))
                 then L.FailedRetryable else L.FailedPermanent)
    else
      status == if e.outcome == L.Success then L.Succeeded else L.FailedPermanent
  }

  /** The endings there are: success, a coded fault, or one nobody expected. */
  predicate Known(e: Ending) {
    if e.code.Some? then e.outcome == L.Failure(Retryable(e.code.value))
    else e.outcome == L.Success || e.outcome == L.Failure(false)
  }

  lemma ClassifiedAsReported(e: Ending, attempt: nat)
    requires Known(e)
    ensures ReportShows(e, attempt, L.Classify(e.outcome, attempt))
  {
    if e.code.Some? {
      match e.code.value {
        case PageNotReached =>
        case SessionLost =>
        case _ => assert e.code.value in PERMANENT;
      }
    }
  }

  lemma {:induction false} LocalsThroughout(env: Env, ss: seq<State>, steps: seq<Step>, i: nat)
    requires GoodEnv(env) && Execution(env, ss, steps) && i < |ss|
    ensures LocalsOk(ss[i])
  {
    if i > 0 {
      var s, step := ss[i - 1], steps[i - 1];
      LocalsThroughout(env, ss, steps, i - 1);
      InvThroughout(env, ss, steps, i - 1);
      StepAt(env, ss, steps, i - 1);
      if step.Work? {
        assert JobOk(s, step.job);
        WorkKeepsLocals(env, s, step.job, step.attempt, step.move);
      } else {
        EnvironmentKeepsLocals(env, s, step);
      }
    }
  }

  /** In any run a finishing step is refused exactly when the job is back to pending, and else
      stores what happened to this execution, whoever holds the lease. */
  lemma ReportsStore(tenant: string, digests: Digests, json: Observation -> Bytes, ss: seq<State>, steps: seq<Step>,
                     t: nat, j: string, a: nat)
    requires '/' !in tenant && Execution(Deployment(tenant, digests, json), ss, steps) && t < |steps|
    requires steps[t] == Work(j, a, FinishJob)
    ensures j in ss[t].jobs && (j, a) in ss[t].workers && ss[t].workers[(j, a)].pc.Finishing?
    ensures if ss[t].jobs[j].status == L.Pending then ss[t + 1].jobs == ss[t].jobs
            else ss[t + 1].jobs.Keys == ss[t].jobs.Keys &&
                 ReportShows(ss[t].workers[(j, a)].pc.ending, a, ss[t + 1].jobs[j].status)
  {
    var env, s := Deployment(tenant, digests, json), ss[t];
    DeploymentIsGood(tenant, digests, json);
    InvThroughout(env, ss, steps, t);
    LocalsThroughout(env, ss, steps, t);
    StepAt(env, ss, steps, t);
    assert JobOk(s, j);
    FinishStores(env, s, j, a);
  }

  lemma FinishStores(env: Env, s: State, j: string, a: nat)
    requires Present(s, j, a) && s.workers[(j, a)].pc.Finishing? && TimingOk(s.jobs[j])
    requires LocalOk(s.jobs[j].payload, s.workers[(j, a)])
    ensures var e, s' := s.workers[(j, a)].pc.ending, Next(env, s, Work(j, a, FinishJob));
            if s.jobs[j].status == L.Pending then s'.jobs == s.jobs
            else s'.jobs.Keys == s.jobs.Keys && ReportShows(e, a, s'.jobs[j].status)
  {
    var e := s.workers[(j, a)].pc.ending;
    assert EndingOk(s.workers[(j, a)], |s.jobs[j].payload.surfaces|, e);
    ClassifiedAsReported(e, a);
    FinishRefusedExactlyWhenPending(s.jobs[j], "", e.outcome, a, s.now);
  }
}
