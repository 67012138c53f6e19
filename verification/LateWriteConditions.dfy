/** Exactly when the guarantees of punctual workers survive late ones: conditions on the steps
    of any run of the job protocol, late writers included. */
module LateWriteConditions {
  import opened Text
  import opened Evidence
  import opened RunManifest
  import opened JobQueue
  import opened Protocol
  import opened ProtocolSafety
  import opened ProtocolTheorems
  import opened ProtocolPunctual
  import opened PunctualTheorems
  import L = LeaseLedger

  // --- What a worker holds, in every interleaving ---

  /** While the row of its surface is still its own, it records what the worker holds. */
  ghost predicate HeldOk(s: State, j: string, a: nat, w: Worker)
    requires j in s.jobs
  {
    HeldRecord(w.pc).Some? && w.i < |Surfaces(s, j)| ==>
      var id := (j, Surfaces(s, j)[w.i].key);
      id in s.results && (s.results[id].attempt == a ==> s.results[id].rec == HeldRecord(w.pc))
  }

  ghost predicate HeldsOk(s: State) {
    forall j: string, a: nat :: (j, a) in s.workers && j in s.jobs ==> HeldOk(s, j, a, s.workers[(j, a)])
  }

  /** A worker about to mark a row has verified the record it holds. */
  ghost predicate ChecksOk(s: State) {
    forall id :: id in s.workers && s.workers[id].pc.Recording? && s.workers[id].pc.ok ==>
      s.workers[id].pc.rec in s.verified
  }

  /** A row is written by its own attempt, or keeps its attempt and record. */
  ghost predicate RowWrite(s: State, j: string, a: nat, write: Write) {
    write.SetRow? ==>
      || write.row.attempt == a
      || ((j, write.surface) in s.results && SameUpload(s.results[(j, write.surface)], write.row))
  }

  predicate SameUpload(row: Row, row': Row) {
    row'.attempt == row.attempt && row'.rec == row.rec
  }

  lemma WritesRows(env: Env, s: State, j: string, a: nat, m: Move)
    requires Present(s, j, a) && CanMove(env, s, j, a, m)
    ensures RowWrite(s, j, a, WriteOf(env, s, j, a, m))
    ensures WriteOf(env, s, j, a, m).SetJob? ==> WriteOf(env, s, j, a, m).job.payload == s.jobs[j].payload
  {
  }

  lemma OtherHeldKept(env: Env, s: State, j: string, a: nat, write: Write, worker: Worker, k: string, b: nat, w: Worker)
    requires j in s.jobs && k in s.jobs && HeldOk(s, k, b, w) && (k, b) != (j, a)
    requires RowWrite(s, j, a, write) && (write.SetJob? ==> write.job.payload == s.jobs[j].payload)
    ensures HeldOk(Apply(env, s, j, a, write, worker), k, b, w)
  {
    assert Surfaces(Apply(env, s, j, a, write, worker), k) == Surfaces(s, k);
  }

  /** The row just written records what its writer holds. */
  lemma WrittenRowHeld(env: Env, s: State, j: string, a: nat, row: Row, worker: Worker)
    requires j in s.jobs && worker.i < |Surfaces(s, j)| && row.attempt == a
    requires HeldRecord(worker.pc).Some? ==> row.rec == HeldRecord(worker.pc)
    ensures HeldOk(Apply(env, s, j, a, SetRow(Surfaces(s, j)[worker.i].key, row), worker), j, a, worker)
  {
  }

  /** A worker that holds what it held, beside rows nobody touched. */
  lemma SameHeldKept(env: Env, s: State, j: string, a: nat, write: Write, worker: Worker, w: Worker)
    requires j in s.jobs && HeldOk(s, j, a, w) && !write.SetRow? && !write.SetJob?
    requires HeldRecord(worker.pc) == HeldRecord(w.pc) && worker.i == w.i
    ensures HeldOk(Apply(env, s, j, a, write, worker), j, a, worker)
  {
    var s' := Apply(env, s, j, a, write, worker);
    assert Surfaces(s', j) == Surfaces(s, j) && s'.results == s.results;
  }

  lemma RowWriteHolds(env: Env, s: State, j: string, a: nat)
    requires Present(s, j, a) && CanMove(env, s, j, a, WriteRow)
    ensures HeldOk(Next(env, s, Work(j, a, WriteRow)), j, a, NextWorker(env, s, j, a, WriteRow))
  {
    var worker := NextWorker(env, s, j, a, WriteRow);
    if HeldRecord(worker.pc).Some? {
      WrittenRowHeld(env, s, j, a, WriteOf(env, s, j, a, WriteRow).row, worker);
    }
  }

  /** Only the row write and the verification leave a worker holding a record. */
  lemma OtherMovesHoldNothing(env: Env, s: State, j: string, a: nat, m: Move)
    requires Present(s, j, a) && CanMove(env, s, j, a, m) && !m.WriteRow? && !m.CheckHeads?
    ensures HeldRecord(NextWorker(env, s, j, a, m).pc).None?
  {
  }

  lemma OwnHeldKept(env: Env, s: State, j: string, a: nat, m: Move)
    requires Present(s, j, a) && CanMove(env, s, j, a, m) && HeldOk(s, j, a, s.workers[(j, a)])
    ensures HeldOk(Apply(env, s, j, a, WriteOf(env, s, j, a, m), NextWorker(env, s, j, a, m)), j, a,
                   NextWorker(env, s, j, a, m))
  {
    if m.WriteRow? {
      RowWriteHolds(env, s, j, a);
    } else if m.CheckHeads? {
      SameHeldKept(env, s, j, a, WriteOf(env, s, j, a, m), NextWorker(env, s, j, a, m), s.workers[(j, a)]);
    } else {
      OtherMovesHoldNothing(env, s, j, a, m);
      HoldsNothing(Apply(env, s, j, a, WriteOf(env, s, j, a, m), NextWorker(env, s, j, a, m)), j, a,
                   NextWorker(env, s, j, a, m));
    }
  }

  lemma HoldsNothing(s: State, j: string, a: nat, w: Worker)
    requires j in s.jobs && HeldRecord(w.pc).None?
    ensures HeldOk(s, j, a, w)
  {
  }

  lemma WorkKeepsHelds(env: Env, s: State, j: string, a: nat, m: Move)
    requires Present(s, j, a) && CanMove(env, s, j, a, m) && HeldsOk(s)
    ensures HeldsOk(Next(env, s, Work(j, a, m)))
  {
    var write, worker := WriteOf(env, s, j, a, m), NextWorker(env, s, j, a, m);
    WritesRows(env, s, j, a, m);
    OwnHeldKept(env, s, j, a, m);
    ApplyKeepsHelds(env, s, j, a, write, worker);
  }

  lemma ApplyKeepsHelds(env: Env, s: State, j: string, a: nat, write: Write, worker: Worker)
    requires j in s.jobs && HeldsOk(s) && RowWrite(s, j, a, write)
    requires write.SetJob? ==> write.job.payload == s.jobs[j].payload
    requires HeldOk(Apply(env, s, j, a, write, worker), j, a, worker)
    ensures HeldsOk(Apply(env, s, j, a, write, worker))
  {
    var s' := Apply(env, s, j, a, write, worker);
    forall k: string, b: nat | (k, b) in s'.workers && k in s'.jobs
      ensures HeldOk(s', k, b, s'.workers[(k, b)])
    {
      if (k, b) != (j, a) {
        OtherHeldKept(env, s, j, a, write, worker, k, b, s.workers[(k, b)]);
      }
    }
  }

  lemma WorkKeepsChecks(env: Env, s: State, j: string, a: nat, m: Move)
    requires Present(s, j, a) && CanMove(env, s, j, a, m) && ChecksOk(s)
    ensures ChecksOk(Next(env, s, Work(j, a, m)))
  {
    var write, worker := WriteOf(env, s, j, a, m), NextWorker(env, s, j, a, m);
    assert worker.pc.Recording? && worker.pc.ok ==> write == Accept(worker.pc.rec);
    ApplyKeepsChecks(env, s, j, a, write, worker);
  }

  lemma ApplyKeepsChecks(env: Env, s: State, j: string, a: nat, write: Write, worker: Worker)
    requires j in s.jobs && ChecksOk(s)
    requires worker.pc.Recording? && worker.pc.ok ==> write == Accept(worker.pc.rec)
    ensures ChecksOk(Apply(env, s, j, a, write, worker))
  {
  }

  lemma EnvironmentKeepsHelds(env: Env, s: State, step: Step)
    requires Enabled(env, s, step) && !step.Work? && Roster(s) && HeldsOk(s) && ChecksOk(s)
    ensures HeldsOk(Next(env, s, step)) && ChecksOk(Next(env, s, step))
  {
    var s' := Next(env, s, step);
    forall k: string, b: nat | (k, b) in s'.workers && k in s'.jobs
      ensures HeldOk(s', k, b, s'.workers[(k, b)])
    {
      if (k, b) in s.workers {
        assert HeldOk(s, k, b, s.workers[(k, b)]);
        assert s'.results == s.results && Surfaces(s', k) == Surfaces(s, k);
      }
    }
  }

  lemma {:induction false} HeldsThroughout(env: Env, ss: seq<State>, steps: seq<Step>, i: nat)
    requires GoodEnv(env) && Execution(env, ss, steps) && i < |ss|
    ensures HeldsOk(ss[i]) && ChecksOk(ss[i])
  {
    if i > 0 {
      var s, step := ss[i - 1], steps[i - 1];
      HeldsThroughout(env, ss, steps, i - 1);
      InvThroughout(env, ss, steps, i - 1);
      StepAt(env, ss, steps, i - 1);
      if step.Work? {
        WorkKeepsHelds(env, s, step.job, step.attempt, step.move);
        WorkKeepsChecks(env, s, step.job, step.attempt, step.move);
      } else {
        EnvironmentKeepsHelds(env, s, step);
      }
    }
  }

  // --- References ---

  /** The step marks row `id` REFERENCED. */
  ghost predicate Marks(s: State, step: Step, id: (string, string)) {
    && step.Work? && step.move.RecordCustody? && step.job == id.0
    && Present(s, id.0, step.attempt)
    && s.workers[(id.0, step.attempt)].pc.Recording? && s.workers[(id.0, step.attempt)].pc.ok
    && CurrentKey(s, id.0, step.attempt) == id.1
    && id in s.results && s.results[id].state == Uploaded && s.results[id].rec.Some?
  }

  /** Before step t, attempt b's own verification accepted the record. */
  ghost predicate AcceptedBy(ss: seq<State>, steps: seq<Step>, t: nat, j: string, b: nat, rec: Record) {
    exists u: nat ::
      u < t && VerificationAccepted(ss, steps, u, rec) && steps[u].job == j && steps[u].attempt == b
  }

  lemma {:induction false} AcceptedIsVerified(env: Env, ss: seq<State>, steps: seq<Step>, t: nat, u: nat, rec: Record)
    requires Execution(env, ss, steps) && t < |ss| && u < t && VerificationAccepted(ss, steps, u, rec)
    ensures rec in ss[t].verified
    decreases t
  {
    StepAt(env, ss, steps, t - 1);
    if t == u + 1 {
      AcceptanceAdds(env, ss[u], steps[u], rec);
    } else {
      AcceptedIsVerified(env, ss, steps, t - 1, u, rec);
      StepKeepsVerified(env, ss[t - 1], steps[t - 1], rec);
    }
  }

  lemma AcceptanceAdds(env: Env, s: State, step: Step, rec: Record)
    requires Enabled(env, s, step) && AcceptsNow(s, step, rec)
    ensures rec in Next(env, s, step).verified
  {
  }

  lemma ApplyKeepsVerifiedSet(env: Env, s: State, j: string, a: nat, write: Write, worker: Worker)
    requires j in s.jobs
    ensures s.verified <= Apply(env, s, j, a, write, worker).verified
  {
  }

  lemma StepKeepsVerified(env: Env, s: State, step: Step, rec: Record)
    requires Enabled(env, s, step) && rec in s.verified
    ensures rec in Next(env, s, step).verified
  {
    if step.Work? {
      var j, a, m := step.job, step.attempt, step.move;
      ApplyKeepsVerifiedSet(env, s, j, a, WriteOf(env, s, j, a, m), NextWorker(env, s, j, a, m));
    }
  }

  /** Only the attempt that uploaded a record ever has it verified. */
  lemma VerifiedExactlyByItsUploader(env: Env, ss: seq<State>, steps: seq<Step>, t: nat,
                                     j: string, b: nat, surface: string, rec: Record)
    requires GoodEnv(env) && Execution(env, ss, steps) && t < |ss|
    requires j in ss[t].jobs && RecordFor(env, ss[t], j, b, surface, rec)
    ensures rec in ss[t].verified <==> AcceptedBy(ss, steps, t, j, b, rec)
  {
    if rec in ss[t].verified {
      var u := VerifiedWasChecked(env, ss, steps, t, rec);
      InvThroughout(env, ss, steps, t);
      InvThroughout(env, ss, steps, u);
      StepAt(env, ss, steps, u);
      CheckerHolds(env, ss[u], steps[u], rec);
      OneUploader(env, ss[u], steps[u].job, steps[u].attempt, CurrentKey(ss[u], steps[u].job, steps[u].attempt),
                  ss[t], j, b, surface, rec);
    }
    if AcceptedBy(ss, steps, t, j, b, rec) {
      var u: nat :|
        u < t && VerificationAccepted(ss, steps, u, rec) && steps[u].job == j && steps[u].attempt == b;
      AcceptedIsVerified(env, ss, steps, t, u, rec);
    }
  }

  /** A record's keys name the job and the attempt that uploaded it. */
  lemma OneUploader(env: Env, s: State, k: string, a: nat, x: string, s': State, j: string, b: nat, y: string,
                    rec: Record)
    requires GoodEnv(env) && k in s.jobs && j in s'.jobs
    requires WellTagged(TagOf(s, k, a, x, Screenshot)) && WellTagged(TagOf(s', j, b, y, Screenshot))
    requires rec.shot.key == env.key(TagOf(s, k, a, x, Screenshot)) == env.key(TagOf(s', j, b, y, Screenshot))
    ensures k == j && a == b
  {
  }

  lemma CheckerHolds(env: Env, s: State, step: Step, rec: Record)
    requires WorkersOk(env, s) && Enabled(env, s, step) && AcceptsNow(s, step, rec)
    ensures step.job in s.jobs && Present(s, step.job, step.attempt) &&
            AtSurface(s.workers[(step.job, step.attempt)].pc)
    ensures RecordFor(env, s, step.job, step.attempt, CurrentKey(s, step.job, step.attempt), rec)
  {
    assert WorkerOk(env, s, step.job, step.attempt, s.workers[(step.job, step.attempt)]);
  }

  /** A row is REFERENCED with a verified record exactly when the worker that marks it is of the
      attempt that uploaded the record, or that attempt had accepted its own record before. */
  lemma MarkedVerifiedExactly(tenant: string, digests: Digests, json: Observation -> Bytes,
                              ss: seq<State>, steps: seq<Step>, t: nat, id: (string, string))
    requires '/' !in tenant && Execution(Deployment(tenant, digests, json), ss, steps) && t < |steps|
    requires Marks(ss[t], steps[t], id)
    ensures var row := ss[t].results[id];
            row.rec.value in ss[t].verified <==>
              steps[t].attempt == row.attempt || AcceptedBy(ss, steps, t, id.0, row.attempt, row.rec.value)
  {
    var env := Deployment(tenant, digests, json);
    var s, row := ss[t], ss[t].results[id];
    DeploymentIsGood(tenant, digests, json);
    InvThroughout(env, ss, steps, t);
    HeldsThroughout(env, ss, steps, t);
    RowNamesItsUpload(env, s, id.0, id.1);
    VerifiedExactlyByItsUploader(env, ss, steps, t, id.0, row.attempt, id.1, row.rec.value);
    if steps[t].attempt == row.attempt {
      OwnMarkIsVerified(s, steps[t], id);
    }
  }

  lemma RowNamesItsUpload(env: Env, s: State, j: string, surface: string)
    requires RowsOk(env, s) && (j, surface) in s.results && s.results[(j, surface)].rec.Some?
    ensures j in s.jobs &&
            RecordFor(env, s, j, s.results[(j, surface)].attempt, surface, s.results[(j, surface)].rec.value)
  {
    assert RowOk(env, s, j, surface);
  }

  /** A worker that marks a row of its own attempt has verified what the row records. */
  lemma OwnMarkIsVerified(s: State, step: Step, id: (string, string))
    requires HeldsOk(s) && ChecksOk(s) && Marks(s, step, id) && step.attempt == s.results[id].attempt
    ensures s.results[id].rec.value in s.verified
  {
    assert HeldOk(s, id.0, step.attempt, s.workers[(id.0, step.attempt)]);
  }

  /** The test a marking step has to meet. */
  ghost predicate MarkedByUploader(ss: seq<State>, steps: seq<Step>, t: nat, id: (string, string))
    requires t < |ss| && t < |steps| && Marks(ss[t], steps[t], id)
  {
    var row := ss[t].results[id];
    steps[t].attempt == row.attempt || AcceptedBy(ss, steps, t, id.0, row.attempt, row.rec.value)
  }

  /** Every reference of a run was verified when it was made exactly when every marking step
      meets the test. */
  lemma ReferencesVerifiedExactly(tenant: string, digests: Digests, json: Observation -> Bytes,
                                  ss: seq<State>, steps: seq<Step>)
    requires '/' !in tenant && Execution(Deployment(tenant, digests, json), ss, steps)
    ensures (forall t: nat, id :: t < |steps| && Marks(ss[t], steps[t], id) ==>
            ss[t].results[id].rec.value in ss[t].verified) <==>
            (forall t: nat, id :: t < |steps| && Marks(ss[t], steps[t], id) ==> MarkedByUploader(ss, steps, t, id))
  {
    forall t: nat, id | t < |steps| && Marks(ss[t], steps[t], id)
      ensures ss[t].results[id].rec.value in ss[t].verified <==> MarkedByUploader(ss, steps, t, id)
    {
      MarkedVerifiedExactly(tenant, digests, json, ss, steps, t, id);
    }
  }

  /** Every step that leaves a row REFERENCED found it so or marks it. */
  lemma ReferencedOnlyByMarks(env: Env, s: State, step: Step, id: (string, string))
    requires Enabled(env, s, step) && RowsOk(env, s)
    requires id in Next(env, s, step).results && Next(env, s, step).results[id].state == Referenced
    ensures (id in s.results && s.results[id] == Next(env, s, step).results[id]) || Marks(s, step, id)
    ensures Marks(s, step, id) ==> SameUpload(s.results[id], Next(env, s, step).results[id])
  {
    if step.Work? && step.job == id.0 {
      var j, a, m := step.job, step.attempt, step.move;
      var write := WriteOf(env, s, j, a, m);
      assert write.SetRow? ==> m.WriteRow? || m.RecordCustody?;
      if m.RecordCustody? && id in s.results {
        assert RowOk(env, s, id.0, id.1);
      }
      ApplyRow(env, s, j, a, write, NextWorker(env, s, j, a, m), id);
    } else if step.Work? {
      ApplyRow(env, s, step.job, step.attempt, WriteOf(env, s, step.job, step.attempt, step.move),
               NextWorker(env, s, step.job, step.attempt, step.move), id);
    }
  }

  lemma ApplyRow(env: Env, s: State, j: string, a: nat, write: Write, worker: Worker, id: (string, string))
    requires j in s.jobs
    ensures var s' := Apply(env, s, j, a, write, worker);
            if write.SetRow? && id == (j, write.surface) then id in s'.results && s'.results[id] == write.row
            else (id in s'.results <==> id in s.results) && (id in s.results ==> s'.results[id] == s.results[id])
  {
  }

  /** A REFERENCED row goes back to the step that marked it, and its record is verified exactly
      when the attempt that uploaded it has accepted it. */
  lemma {:induction false} ReferencedVerifiedExactly(
    tenant: string, digests: Digests, json: Observation -> Bytes,
    ss: seq<State>, steps: seq<Step>, i: nat, id: (string, string)) returns (t: nat)
    requires '/' !in tenant && Execution(Deployment(tenant, digests, json), ss, steps) && i < |ss|
    requires id in ss[i].results && ss[i].results[id].state == Referenced
    ensures t < i && Marks(ss[t], steps[t], id) && SameUpload(ss[t].results[id], ss[i].results[id])
    ensures var row := ss[i].results[id];
            && row.rec.Some?
            && (row.rec.value in ss[i].verified <==> AcceptedBy(ss, steps, i, id.0, row.attempt, row.rec.value))
            && (steps[t].attempt == row.attempt ==> row.rec.value in ss[i].verified)
  {
    var env := Deployment(tenant, digests, json);
    DeploymentIsGood(tenant, digests, json);
    InvThroughout(env, ss, steps, i);
    assert RowOk(env, ss[i], id.0, id.1);
    var row := ss[i].results[id];
    VerifiedExactlyByItsUploader(env, ss, steps, i, id.0, row.attempt, id.1, row.rec.value);
    t := MarkOf(env, ss, steps, i, id);
    if steps[t].attempt == row.attempt {
      MarkedVerifiedExactly(tenant, digests, json, ss, steps, t, id);
      VerifiedLasts(env, ss, steps, t, i, row.rec.value);
    }
  }

  lemma {:induction false} VerifiedLasts(env: Env, ss: seq<State>, steps: seq<Step>, t: nat, i: nat, rec: Record)
    requires Execution(env, ss, steps) && t <= i < |ss| && rec in ss[t].verified
    ensures rec in ss[i].verified
    decreases i
  {
    if t < i {
      VerifiedLasts(env, ss, steps, t, i - 1, rec);
      StepAt(env, ss, steps, i - 1);
      StepKeepsVerified(env, ss[i - 1], steps[i - 1], rec);
    }
  }

  lemma {:induction false} MarkOf(env: Env, ss: seq<State>, steps: seq<Step>, i: nat, id: (string, string))
    returns (t: nat)
    requires GoodEnv(env) && Execution(env, ss, steps) && i < |ss|
    requires id in ss[i].results && ss[i].results[id].state == Referenced
    ensures t < i && Marks(ss[t], steps[t], id) && SameUpload(ss[t].results[id], ss[i].results[id])
  {
    assert i > 0;
    InvThroughout(env, ss, steps, i - 1);
    StepAt(env, ss, steps, i - 1);
    ReferencedOnlyByMarks(env, ss[i - 1], steps[i - 1], id);
    if Marks(ss[i - 1], steps[i - 1], id) {
      t := i - 1;
    } else {
      t := MarkOf(env, ss, steps, i - 1, id);
    }
  }

  // --- Success ---

  /** The step upserts the row of this surface. */
  ghost predicate WritesRow(s: State, step: Step, id: (string, string)) {
    && step.Work? && step.move.WriteRow? && step.job == id.0
    && Present(s, id.0, step.attempt) && AtSurface(s.workers[(id.0, step.attempt)].pc)
    && CurrentKey(s, id.0, step.attempt) == id.1
  }

  /** The attempt that wrote a row last in the first i steps. */
  ghost function LastWriter(ss: seq<State>, steps: seq<Step>, i: nat, id: (string, string)): Option<nat>
    requires i <= |steps| && i <= |ss|
  {
    if i == 0 then None
    else if WritesRow(ss[i - 1], steps[i - 1], id) then Some(steps[i - 1].attempt)
    else LastWriter(ss, steps, i - 1, id)
  }

  ghost function AttemptOf(s: State, id: (string, string)): Option<nat> {
    if id in s.results then Some(s.results[id].attempt) else None
  }

  lemma StepWritesAttempt(env: Env, s: State, step: Step, id: (string, string))
    requires Enabled(env, s, step)
    ensures AttemptOf(Next(env, s, step), id) == if WritesRow(s, step, id) then Some(step.attempt) else AttemptOf(s, id)
  {
    if step.Work? {
      var j, a, m := step.job, step.attempt, step.move;
      ApplyRow(env, s, j, a, WriteOf(env, s, j, a, m), NextWorker(env, s, j, a, m), id);
    }
  }

  lemma {:induction false} RowsShowTheirLastWriter(env: Env, ss: seq<State>, steps: seq<Step>, i: nat,
                                                   id: (string, string))
    requires Execution(env, ss, steps) && i < |ss|
    ensures LastWriter(ss, steps, i, id) == AttemptOf(ss[i], id)
  {
    if i > 0 {
      RowsShowTheirLastWriter(env, ss, steps, i - 1, id);
      StepAt(env, ss, steps, i - 1);
      StepWritesAttempt(env, ss[i - 1], steps[i - 1], id);
    }
  }

  /** The job has a row for every surface of its manifest and for nothing else, all written by
      its last attempt. */
  ghost predicate Complete(s: State, j: string) {
    && j in s.jobs && s.jobs[j].manifest in s.manifests
    && forall surface :: AttemptOf(s, (j, surface)) ==
         if surface in Keys(s.manifests[s.jobs[j].manifest].surfaces) then Some(s.jobs[j].attempts) else None
  }

  /** Over any run, a job - succeeded or not - is complete exactly when the last row write of each
      of its surfaces was by its last attempt. */
  lemma CompleteExactly(tenant: string, digests: Digests, json: Observation -> Bytes,
                        ss: seq<State>, steps: seq<Step>, i: nat, j: string)
    requires '/' !in tenant && Execution(Deployment(tenant, digests, json), ss, steps) && i < |ss| && j in ss[i].jobs
    ensures Complete(ss[i], j) <==>
            forall idx :: 0 <= idx < |Surfaces(ss[i], j)| ==>
              LastWriter(ss, steps, i, (j, Surfaces(ss[i], j)[idx].key)) == Some(ss[i].jobs[j].attempts)
  {
    var env := Deployment(tenant, digests, json);
    var s := ss[i];
    DeploymentIsGood(tenant, digests, json);
    InvThroughout(env, ss, steps, i);
    CompleteIsWritten(env, s, j);
    forall idx | 0 <= idx < |Surfaces(s, j)|
      ensures LastWriter(ss, steps, i, (j, Surfaces(s, j)[idx].key)) == AttemptOf(s, (j, Surfaces(s, j)[idx].key))
    {
      RowsShowTheirLastWriter(env, ss, steps, i, (j, Surfaces(s, j)[idx].key));
    }
  }

  lemma CompleteIsWritten(env: Env, s: State, j: string)
    requires Inv(env, s) && j in s.jobs
    ensures Complete(s, j) <==> WrittenBy(s, j, s.jobs[j].attempts, |Surfaces(s, j)|)
  {
    assert JobOk(s, j);
    assert Surfaces(s, j) == s.manifests[s.jobs[j].manifest].surfaces;
    forall surface | (j, surface) in s.results
      ensures surface in Keys(Surfaces(s, j))
    {
      assert RowOk(env, s, j, surface);
    }
    forall idx | 0 <= idx < |Surfaces(s, j)|
      ensures Surfaces(s, j)[idx].key in Keys(Surfaces(s, j))
    {
      assert Surfaces(s, j)[idx] in Surfaces(s, j);
    }
    forall surface | surface in Keys(Surfaces(s, j))
      ensures exists idx :: 0 <= idx < |Surfaces(s, j)| && Surfaces(s, j)[idx].key == surface
    {
      var x :| x in Surfaces(s, j) && x.key == surface;
      var idx :| 0 <= idx < |Surfaces(s, j)| && Surfaces(s, j)[idx] == x;
    }
  }

  /** A row write keeps a job's rows one attempt's own exactly when it is that attempt's. */
  lemma RowWriteKeepsExactly(env: Env, s: State, j: string, a: nat, b: nat)
    requires Present(s, j, a) && s.workers[(j, a)].pc.Writing?
    requires WrittenBy(s, j, b, |Surfaces(s, j)|)
    ensures var s' := Next(env, s, Work(j, a, WriteRow));
            j in s'.jobs && (WrittenBy(s', j, b, |Surfaces(s', j)|) <==> a == b)
  {
    var s' := Next(env, s, Work(j, a, WriteRow));
    assert Surfaces(s', j) == Surfaces(s, j);
    var id := (j, Surfaces(s, j)[s.workers[(j, a)].i].key);
    assert s'.results[id].attempt == a;
  }

  /** An accepted success leaves a complete job exactly when it was complete already; of a
      worker whose rows are all still its own, exactly when its claim is the last one. */
  lemma SuccessCompletesExactly(env: Env, s: State, j: string, a: nat)
    requires Inv(env, s) && Present(s, j, a) && s.workers[(j, a)].pc == Finishing(Ending(L.Success, None))
    requires s.jobs[j].status != L.Pending
    ensures var s' := Next(env, s, Work(j, a, FinishJob));
            && j in s'.jobs && s'.jobs[j].status == L.Succeeded
            && (Complete(s', j) <==> Complete(s, j))
            && (WrittenBy(s, j, a, |Surfaces(s, j)|) && Surfaces(s, j) != [] ==>
                  (Complete(s', j) <==> a == s.jobs[j].attempts))
  {
    var w := s.workers[(j, a)];
    assert JobOk(s, j);
    FinishRefusedExactlyWhenPending(s.jobs[j], "", L.Success, a, s.now);
    StatusKeepsCompleteness(env, s, j, a, FinishedJob(s.jobs[j], L.Classify(L.Success, a), s.now),
                            NextWorker(env, s, j, a, FinishJob));
    OneWritersRows(env, s, j, a);
  }

  /** Storing a status neither completes a job nor undoes it. */
  lemma StatusKeepsCompleteness(env: Env, s: State, j: string, a: nat, job: Job, worker: Worker)
    requires j in s.jobs && job.manifest == s.jobs[j].manifest && job.attempts == s.jobs[j].attempts
    ensures Complete(Apply(env, s, j, a, SetJob(job), worker), j) <==> Complete(s, j)
  {
    var s' := Apply(env, s, j, a, SetJob(job), worker);
    assert forall surface :: AttemptOf(s', (j, surface)) == AttemptOf(s, (j, surface));
  }

  /** Rows all of one attempt make the job complete exactly when it is the last one. */
  lemma OneWritersRows(env: Env, s: State, j: string, a: nat)
    requires Inv(env, s) && j in s.jobs
    ensures WrittenBy(s, j, a, |Surfaces(s, j)|) && Surfaces(s, j) != [] ==>
              (Complete(s, j) <==> a == s.jobs[j].attempts)
  {
    CompleteIsWritten(env, s, j);
    if WrittenBy(s, j, a, |Surfaces(s, j)|) && Surfaces(s, j) != [] {
      assert s.results[(j, Surfaces(s, j)[0].key)].attempt == a;
    }
  }
}
