/** What the job protocol guarantees when no late writer exists: a worker writes to the
    database - rows, marks, reports - only while its own claim is the one in progress. */
module ProtocolPunctual {
  import opened Text
  import opened Evidence
  import opened RunManifest
  import opened JobQueue
  import opened PortalSession
  import opened Protocol
  import opened ProtocolSafety
  import opened ProtocolTheorems
  import L = LeaseLedger

  // --- What a worker knows about itself, in every interleaving ---

  predicate LoggedIn(w: Worker) {
    w.login.Some? && w.login.value.raised.None?
  }

  /** Only a LoginError reports that it may be retried, and it followed a login that submitted
      nothing, or one that had succeeded. */
  predicate EndingOk(w: Worker, n: nat, e: Ending) {
    && (e.code.Some? ==> e.outcome == L.Failure(Retryable(e.code.value)))
    && (e.outcome == L.Failure(true) ==> e.code.Some?)
    && (e.code.Some? && Retryable(e.code.value) ==>
          w.login.Some? && (LoggedIn(w) || !PasswordSubmitted(w.login.value)))
    && (e.outcome == L.Success ==> w.i == n)
  }

  predicate LocalOk(payload: JobPayload, w: Worker) {
    var n := |payload.surfaces|;
    && w.i <= n
    && (payload.auth.Some? && (AtSurface(w.pc) || w.pc.Top?) && n > 0 ==> LoggedIn(w))
    && (w.pc.Finishing? ==> EndingOk(w, n, w.pc.ending))
    && (w.ended.Some? ==> EndingOk(w, n, w.ended.value) && w.pc.Gone?)
  }

  ghost predicate LocalsOk(s: State) {
    forall j: string, a: nat :: (j, a) in s.workers && j in s.jobs ==> LocalOk(s.jobs[j].payload, s.workers[(j, a)])
  }

  lemma MoveKeepsLocal(env: Env, s: State, j: string, a: nat, m: Move)
    requires Present(s, j, a) && CanMove(env, s, j, a, m) && LocalOk(s.jobs[j].payload, s.workers[(j, a)])
    ensures LocalOk(s.jobs[j].payload, NextWorker(env, s, j, a, m))
  {
    if m.LoginAs? && m.run.raised.Some? && Retryable(m.run.raised.value) {
      RetryableLoginSubmittedNothing(m.run);
    }
  }

  // --- The punctual invariant ---

  /** Surfaces whose row the worker has written. */
  function DoneUpTo(w: Worker): nat {
    if w.pc.Checking? || w.pc.Recording? then w.i + 1 else w.i
  }

  ghost predicate WrittenBy(s: State, j: string, a: nat, upTo: nat)
    requires j in s.jobs
  {
    forall idx :: 0 <= idx < upTo && idx < |Surfaces(s, j)| ==>
      var id := (j, Surfaces(s, j)[idx].key);
      id in s.results && s.results[id].attempt == a
  }

  function HeldRecord(pc: Pc): Option<Record> {
    match pc
    case Checking(rec) => Some(rec)
    case Recording(rec, _) => Some(rec)
    case _ => None
  }

  /** The row the current worker wrote last is still the one it wrote. */
  ghost predicate OwnsRow(s: State, j: string, a: nat, w: Worker)
    requires j in s.jobs
  {
    w.i < |Surfaces(s, j)| &&
    var id := (j, Surfaces(s, j)[w.i].key);
    id in s.results && s.results[id].attempt == a && s.results[id].state == Uploaded &&
        s.results[id].rec == HeldRecord(w.pc)
  }

  ghost predicate CurrentOk(s: State, j: string, a: nat)
    requires j in s.jobs && (j, a) in s.workers
  {
    var w := s.workers[(j, a)];
    && WrittenBy(s, j, a, DoneUpTo(w))
    && (HeldRecord(w.pc).Some? ==> OwnsRow(s, j, a, w))
    && w.ended.None?
  }

  ghost predicate CurrentsOk(s: State) {
    forall j: string, a: nat :: (j, a) in s.workers && Current(s, j, a) ==> CurrentOk(s, j, a)
  }

  /** A succeeded job is complete, and how the last attempt ended shows in the status. */
  ghost predicate StatusOk(s: State, j: string)
    requires j in s.jobs
  {
    var job := s.jobs[j];
    && (job.status == L.Succeeded ==> WrittenBy(s, j, job.attempts, |Surfaces(s, j)|))
    && (job.attempts > 0 && (j, job.attempts) in s.workers ==>
          var ended := s.workers[(j, job.attempts)].ended;
          && (job.status == L.Pending ==> ended.None?)
          && (job.status == L.FailedRetryable ==> ended.Some? && ended.value.outcome == L.Failure(true)))
  }

  ghost predicate StatusesOk(s: State) {
    forall j :: j in s.jobs ==> StatusOk(s, j)
  }

  ghost predicate VerifiedOk(s: State) {
    && (forall id :: id in s.workers && s.workers[id].pc.Recording? && s.workers[id].pc.ok ==>
       s.workers[id].pc.rec in s.verified)
    && (forall id :: id in s.results && s.results[id].state == Referenced ==>
          s.results[id].rec.Some? && s.results[id].rec.value in s.verified)
  }

  ghost predicate PunctualInv(s: State) {
    LocalsOk(s) && CurrentsOk(s) && StatusesOk(s) && VerifiedOk(s)
  }

  // --- A worker's step ---

  /** A job no current worker writes for keeps its rows. */
  lemma OthersRowsKept(env: Env, s: State, j: string, a: nat, write: Write, worker: Worker, k: string)
    requires j in s.jobs && k in s.jobs && (write.SetRow? ==> k != j)
    ensures var s' := Apply(env, s, j, a, write, worker);
            forall surface :: (k, surface) in s'.results <==> (k, surface) in s.results
    ensures var s' := Apply(env, s, j, a, write, worker);
            forall surface :: (k, surface) in s.results ==> s'.results[(k, surface)] == s.results[(k, surface)]
  {
  }

  lemma OtherCurrentKept(env: Env, s: State, j: string, a: nat, write: Write, worker: Worker, k: string, b: nat)
    requires j in s.jobs && (j, a) in s.workers && (write.SetRow? ==> Current(s, j, a))
    requires Current(s, k, b) && (k, b) in s.workers && (k, b) != (j, a) && CurrentOk(s, k, b)
    requires write.SetJob? ==> write.job.payload == s.jobs[j].payload
    ensures CurrentOk(Apply(env, s, j, a, write, worker), k, b)
  {
    OthersRowsKept(env, s, j, a, write, worker, k);
    assert Surfaces(Apply(env, s, j, a, write, worker), k) == Surfaces(s, k);
  }

  lemma RowWrittenIsOwned(env: Env, s: State, j: string, a: nat)
    requires Present(s, j, a) && s.workers[(j, a)].pc.Writing? && CurrentOk(s, j, a)
    ensures CurrentOk(Next(env, s, Work(j, a, WriteRow)), j, a)
  {
    var s' := Apply(env, s, j, a, WriteOf(env, s, j, a, WriteRow), NextWorker(env, s, j, a, WriteRow));
    assert Surfaces(s', j) == Surfaces(s, j);
    assert WrittenBy(s', j, a, s.workers[(j, a)].i + 1);
  }

  lemma CustodySettled(env: Env, s: State, j: string, a: nat)
    requires Present(s, j, a) && s.workers[(j, a)].pc.Recording? && CurrentOk(s, j, a)
    ensures CurrentOk(Next(env, s, Work(j, a, RecordCustody)), j, a)
  {
    var s' := Apply(env, s, j, a, WriteOf(env, s, j, a, RecordCustody), NextWorker(env, s, j, a, RecordCustody));
    assert Surfaces(s', j) == Surfaces(s, j);
    assert WrittenBy(s', j, a, s.workers[(j, a)].i + 1);
  }

  /** The worker claims no more rows than before. */
  predicate ClaimsNoMore(w: Worker, worker: Worker) {
    && DoneUpTo(worker) <= DoneUpTo(w)
    && (HeldRecord(worker.pc).Some? ==> HeldRecord(worker.pc) == HeldRecord(w.pc) && worker.i == w.i)
    && (w.ended.None? ==> worker.ended.None?)
  }

  lemma QuietMoveClaimsNoMore(env: Env, s: State, j: string, a: nat, m: Move)
    requires Present(s, j, a) && CanMove(env, s, j, a, m)
    requires !m.WriteRow? && !m.RecordCustody? && !m.FinishJob?
    ensures ClaimsNoMore(s.workers[(j, a)], NextWorker(env, s, j, a, m))
    ensures !WriteOf(env, s, j, a, m).SetRow? && !WriteOf(env, s, j, a, m).SetJob?
  {
  }

  /** A move that leaves the rows alone keeps what the worker has written. */
  lemma QuietMoveKeepsCurrent(env: Env, s: State, j: string, a: nat, write: Write, worker: Worker)
    requires j in s.jobs && (j, a) in s.workers && CurrentOk(s, j, a)
    requires !write.SetRow? && !write.SetJob? && ClaimsNoMore(s.workers[(j, a)], worker)
    ensures CurrentOk(Apply(env, s, j, a, write, worker), j, a)
  {
    var s' := Apply(env, s, j, a, write, worker);
    assert Surfaces(s', j) == Surfaces(s, j) && s'.results == s.results;
  }

  lemma OwnCurrentKept(env: Env, s: State, j: string, a: nat, m: Move)
    requires Present(s, j, a) && CanMove(env, s, j, a, m) && CurrentOk(s, j, a) && !m.FinishJob?
    ensures CurrentOk(Apply(env, s, j, a, WriteOf(env, s, j, a, m), NextWorker(env, s, j, a, m)), j, a)
  {
    if m.WriteRow? {
      RowWrittenIsOwned(env, s, j, a);
    } else if m.RecordCustody? {
      CustodySettled(env, s, j, a);
    } else {
      QuietMoveClaimsNoMore(env, s, j, a, m);
      QuietMoveKeepsCurrent(env, s, j, a, WriteOf(env, s, j, a, m), NextWorker(env, s, j, a, m));
    }
  }

  lemma ApplyKeepsCurrents(env: Env, s: State, j: string, a: nat, write: Write, worker: Worker)
    requires j in s.jobs && (j, a) in s.workers && CurrentsOk(s)
    requires write.SetRow? ==> Current(s, j, a)
    requires write.SetJob? ==> write.job.payload == s.jobs[j].payload && write.job.status != L.InProgress
    requires var s' := Apply(env, s, j, a, write, worker); Current(s', j, a) ==> CurrentOk(s', j, a)
    ensures CurrentsOk(Apply(env, s, j, a, write, worker))
  {
    var s' := Apply(env, s, j, a, write, worker);
    forall k: string, b: nat | (k, b) in s'.workers && Current(s', k, b)
      ensures CurrentOk(s', k, b)
    {
      ApplyKeepsClaims(env, s, j, a, write, worker, k, b);
      if (k, b) != (j, a) {
        OtherCurrentKept(env, s, j, a, write, worker, k, b);
      }
    }
  }

  lemma WorkKeepsCurrents(env: Env, s: State, j: string, a: nat, m: Move)
    requires Present(s, j, a) && CanMove(env, s, j, a, m) && Timely(s, Work(j, a, m))
    requires CurrentsOk(s) && TimingOk(s.jobs[j])
    ensures CurrentsOk(Next(env, s, Work(j, a, m)))
  {
    var write, worker := WriteOf(env, s, j, a, m), NextWorker(env, s, j, a, m);
    var s' := Apply(env, s, j, a, write, worker);
    WriteKinds(env, s, j, a, m);
    if Current(s', j, a) {
      ApplyKeepsClaims(env, s, j, a, write, worker, j, a);
      OwnCurrentKept(env, s, j, a, m);
    }
    ApplyKeepsCurrents(env, s, j, a, write, worker);
  }

  // --- Status, verification and the worker's own state ---

  lemma ApplyKeepsStatus(env: Env, s: State, j: string, a: nat, write: Write, worker: Worker, k: string)
    requires j in s.jobs && (j, a) in s.workers && k in s.jobs && StatusOk(s, k)
    requires write.SetRow? ==> Current(s, j, a)
    requires !write.SetJob? && (k == j && a == s.jobs[j].attempts ==> worker.ended == s.workers[(j, a)].ended)
    ensures StatusOk(Apply(env, s, j, a, write, worker), k)
  {
    if k != j || !write.SetRow? {
      OthersRowsKept(env, s, j, a, write, worker, k);
    }
    assert Surfaces(Apply(env, s, j, a, write, worker), k) == Surfaces(s, k);
  }

  /** Only an accepted finishing write records how a worker ended. */
  lemma EndedByFinishOnly(env: Env, s: State, j: string, a: nat, m: Move)
    requires Present(s, j, a) && CanMove(env, s, j, a, m) && LocalOk(s.jobs[j].payload, s.workers[(j, a)])
    ensures !m.FinishJob? ==> NextWorker(env, s, j, a, m).ended == s.workers[(j, a)].ended
  {
  }

  /** Storing a job's new status keeps every other job's, and the job's own when the status
      shows how its last attempt ended. */
  lemma SetJobKeepsStatus(env: Env, s: State, j: string, a: nat, job: Job, worker: Worker, k: string)
    requires j in s.jobs && k in s.jobs && (k != j ==> StatusOk(s, k))
    requires job.payload == s.jobs[j].payload && job.attempts == a && job.status != L.Pending
    requires job.status == L.Succeeded ==> WrittenBy(s, j, a, |Surfaces(s, j)|)
    requires job.status == L.FailedRetryable ==> worker.ended.Some? && worker.ended.value.outcome == L.Failure(true)
    ensures StatusOk(Apply(env, s, j, a, SetJob(job), worker), k)
  {
    var s' := Apply(env, s, j, a, SetJob(job), worker);
    assert Surfaces(s', k) == Surfaces(s, k) && s'.results == s.results;
  }

  /** A timely finish: the status shows the outcome, and success means every row is there. */
  lemma FinishKeepsStatus(env: Env, s: State, j: string, a: nat, k: string)
    requires Present(s, j, a) && s.workers[(j, a)].pc.Finishing? && Current(s, j, a) && TimingOk(s.jobs[j])
    requires CurrentOk(s, j, a) && LocalOk(s.jobs[j].payload, s.workers[(j, a)])
    requires k in s.jobs && StatusOk(s, k)
    ensures StatusOk(Next(env, s, Work(j, a, FinishJob)), k)
  {
    var w := s.workers[(j, a)];
    var job := FinishedJob(s.jobs[j], L.Classify(w.pc.ending.outcome, a), s.now);
    FinishRefusedExactlyWhenPending(s.jobs[j], "", w.pc.ending.outcome, a, s.now);
    SetJobKeepsStatus(env, s, j, a, job, NextWorker(env, s, j, a, FinishJob), k);
  }

  /** A step that reports nothing. */
  lemma MoveKeepsStatuses(env: Env, s: State, j: string, a: nat, m: Move)
    requires Present(s, j, a) && CanMove(env, s, j, a, m) && Timely(s, Work(j, a, m)) && !m.FinishJob?
    requires StatusesOk(s) && TimingOk(s.jobs[j]) && LocalOk(s.jobs[j].payload, s.workers[(j, a)])
    ensures StatusesOk(Next(env, s, Work(j, a, m)))
  {
    var write, worker := WriteOf(env, s, j, a, m), NextWorker(env, s, j, a, m);
    WriteKinds(env, s, j, a, m);
    EndedByFinishOnly(env, s, j, a, m);
    ApplyKeepsJobKeys(env, s, j, a, write, worker);
    forall k | k in Apply(env, s, j, a, write, worker).jobs
      ensures StatusOk(Apply(env, s, j, a, write, worker), k)
    {
      ApplyKeepsStatus(env, s, j, a, write, worker, k);
    }
  }

  lemma WorkKeepsStatuses(env: Env, s: State, j: string, a: nat, m: Move)
    requires Present(s, j, a) && CanMove(env, s, j, a, m) && Timely(s, Work(j, a, m))
    requires CurrentsOk(s) && StatusesOk(s) && LocalOk(s.jobs[j].payload, s.workers[(j, a)]) && TimingOk(s.jobs[j])
    ensures StatusesOk(Next(env, s, Work(j, a, m)))
  {
    if m.FinishJob? {
      var s' := Next(env, s, Work(j, a, m));
      ApplyKeepsJobKeys(env, s, j, a, WriteOf(env, s, j, a, m), NextWorker(env, s, j, a, m));
      forall k | k in s'.jobs
        ensures StatusOk(s', k)
      {
        FinishKeepsStatus(env, s, j, a, k);
      }
    } else {
      MoveKeepsStatuses(env, s, j, a, m);
    }
  }

  lemma ApplyKeepsVerified(env: Env, s: State, j: string, a: nat, write: Write, worker: Worker)
    requires j in s.jobs && VerifiedOk(s)
    requires worker.pc.Recording? && worker.pc.ok ==> write == Accept(worker.pc.rec)
    requires write.SetRow? && write.row.state == Referenced ==> write.row.rec.Some? && write.row.rec.value in s.verified
    ensures VerifiedOk(Apply(env, s, j, a, write, worker))
  {
  }

  /** The current worker only marks REFERENCED the record it has just verified. */
  lemma CustodyMarksVerified(env: Env, s: State, j: string, a: nat)
    requires Present(s, j, a) && s.workers[(j, a)].pc.Recording? && CurrentOk(s, j, a) && VerifiedOk(s)
    ensures var write := WriteOf(env, s, j, a, RecordCustody);
            write.SetRow? && write.row.state == Referenced ==> write.row.rec.Some? && write.row.rec.value in s.verified
  {
  }

  lemma WorkKeepsVerified(env: Env, s: State, j: string, a: nat, m: Move)
    requires Present(s, j, a) && CanMove(env, s, j, a, m) && Timely(s, Work(j, a, m))
    requires CurrentsOk(s) && VerifiedOk(s)
    ensures VerifiedOk(Next(env, s, Work(j, a, m)))
  {
    var write, worker := WriteOf(env, s, j, a, m), NextWorker(env, s, j, a, m);
    if m.RecordCustody? {
      CustodyMarksVerified(env, s, j, a);
    } else {
      assert write.SetRow? ==> m.WriteRow? && write.row.state != Referenced;
    }
    assert worker.pc.Recording? ==> m.CheckHeads?;
    ApplyKeepsVerified(env, s, j, a, write, worker);
  }

  lemma WorkKeepsLocals(env: Env, s: State, j: string, a: nat, m: Move)
    requires Present(s, j, a) && CanMove(env, s, j, a, m) && LocalsOk(s) && TimingOk(s.jobs[j])
    ensures LocalsOk(Next(env, s, Work(j, a, m)))
  {
    MoveKeepsLocal(env, s, j, a, m);
    WriteKinds(env, s, j, a, m);
    ApplyKeepsLocals(env, s, j, a, WriteOf(env, s, j, a, m), NextWorker(env, s, j, a, m));
  }

  lemma ApplyKeepsLocals(env: Env, s: State, j: string, a: nat, write: Write, worker: Worker)
    requires j in s.jobs && LocalsOk(s) && LocalOk(s.jobs[j].payload, worker)
    requires write.SetJob? ==> write.job.payload == s.jobs[j].payload
    ensures LocalsOk(Apply(env, s, j, a, write, worker))
  {
  }

  /** Which moves write what. */
  lemma WriteKinds(env: Env, s: State, j: string, a: nat, m: Move)
    requires Present(s, j, a) && CanMove(env, s, j, a, m) && TimingOk(s.jobs[j])
    ensures var write := WriteOf(env, s, j, a, m);
            && (write.SetRow? ==> m.WriteRow? || m.RecordCustody?)
            && (write.SetJob? ==> m.FinishJob? && write.job.payload == s.jobs[j].payload
                                  && write.job.status != L.InProgress && write.job.attempts == s.jobs[j].attempts)
            && (m.FinishJob? && s.jobs[j].status != L.Pending ==> write.SetJob?)
  {
    if m.FinishJob? {
      FinishRefusedExactlyWhenPending(s.jobs[j], "", s.workers[(j, a)].pc.ending.outcome, a, s.now);
    }
  }

  /** No worker's step puts a claim in progress. */
  lemma ApplyKeepsClaims(env: Env, s: State, j: string, a: nat, write: Write, worker: Worker, k: string, b: nat)
    requires j in s.jobs && (j, a) in s.workers && (write.SetJob? ==> write.job.status != L.InProgress)
    requires Current(Apply(env, s, j, a, write, worker), k, b)
    ensures Current(s, k, b) && !(write.SetJob? && k == j)
  {
  }

  lemma WorkKeepsPunctual(env: Env, s: State, j: string, a: nat, m: Move)
    requires Present(s, j, a) && CanMove(env, s, j, a, m) && Timely(s, Work(j, a, m))
    requires PunctualInv(s) && JobsOk(s)
    ensures PunctualInv(Next(env, s, Work(j, a, m)))
  {
    assert JobOk(s, j);
    WorkKeepsLocals(env, s, j, a, m);
    WorkKeepsCurrents(env, s, j, a, m);
    WorkKeepsStatuses(env, s, j, a, m);
    WorkKeepsVerified(env, s, j, a, m);
  }

  // --- Steps outside the workers ---

  lemma EnvironmentKeepsLocals(env: Env, s: State, step: Step)
    requires Enabled(env, s, step) && !step.Work? && LocalsOk(s) && Roster(s)
    ensures LocalsOk(Next(env, s, step))
  {
  }

  lemma EnvironmentKeepsCurrents(env: Env, s: State, step: Step)
    requires Enabled(env, s, step) && !step.Work? && CurrentsOk(s) && Roster(s)
    ensures CurrentsOk(Next(env, s, step))
  {
    var s' := Next(env, s, step);
    forall k: string, b: nat | (k, b) in s'.workers && Current(s', k, b)
      ensures CurrentOk(s', k, b)
    {
      if (k, b) in s.workers {
        assert CurrentOk(s, k, b);
        assert s'.results == s.results && Surfaces(s', k) == Surfaces(s, k);
      }
    }
  }

  lemma EnvironmentKeepsStatuses(env: Env, s: State, step: Step)
    requires Enabled(env, s, step) && !step.Work? && CurrentsOk(s) && StatusesOk(s) && Roster(s)
    ensures StatusesOk(Next(env, s, step))
  {
    var s' := Next(env, s, step);
    forall k | k in s'.jobs
      ensures StatusOk(s', k)
    {
      if k in s.jobs {
        assert StatusOk(s, k);
        assert s'.results == s.results && Surfaces(s', k) == Surfaces(s, k);
        if Stalled(s.jobs[k], s.now) {
          assert Current(s, k, s.jobs[k].attempts);
        }
      }
    }
  }

  lemma EnvironmentKeepsVerified(env: Env, s: State, step: Step)
    requires Enabled(env, s, step) && !step.Work? && VerifiedOk(s)
    ensures VerifiedOk(Next(env, s, step))
  {
  }

  lemma StepKeepsPunctual(env: Env, s: State, step: Step)
    requires Enabled(env, s, step) && Timely(s, step) && PunctualInv(s) && JobsOk(s) && Roster(s)
    ensures PunctualInv(Next(env, s, step))
  {
    if step.Work? {
      WorkKeepsPunctual(env, s, step.job, step.attempt, step.move);
    } else {
      EnvironmentKeepsLocals(env, s, step);
      EnvironmentKeepsCurrents(env, s, step);
      EnvironmentKeepsStatuses(env, s, step);
      EnvironmentKeepsVerified(env, s, step);
    }
  }

  lemma {:induction false} PunctualThroughout(env: Env, ss: seq<State>, steps: seq<Step>, i: nat)
    requires GoodEnv(env) && TimelyExecution(env, ss, steps) && i < |ss|
    ensures PunctualInv(ss[i])
  {
    if i > 0 {
      PunctualThroughout(env, ss, steps, i - 1);
      InvThroughout(env, ss, steps, i - 1);
      StepAt(env, ss, steps, i - 1);
      StepKeepsPunctual(env, ss[i - 1], steps[i - 1]);
    }
  }
}
