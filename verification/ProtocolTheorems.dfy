/** What holds in every interleaving of the job protocol: evidence custody, the orphan
    sweep and the bound on claims. */
module ProtocolTheorems {
  import opened Text
  import opened Evidence
  import opened RunManifest
  import opened JobQueue
  import opened PortalSession
  import opened Protocol
  import opened ProtocolSafety
  import L = LeaseLedger

  // --- Evidence custody ---

  /** A result row that records evidence keys points at the two objects its own attempt
      uploaded for its own surface, stored with exactly the recorded sizes and digests. */
  lemma RecordedEvidenceIsExact(tenant: string, digests: Digests, json: Observation -> Bytes,
                                ss: seq<State>, steps: seq<Step>, i: nat, j: string, surface: string)
    requires '/' !in tenant && Execution(Deployment(tenant, digests, json), ss, steps) && i < |ss|
    requires (j, surface) in ss[i].results && ss[i].results[(j, surface)].rec.Some?
    ensures j in ss[i].jobs
    ensures var s, row := ss[i], ss[i].results[(j, surface)];
            && row.rec.value.shot.key == BuildKey(tenant, TagOf(s, j, row.attempt, surface, Screenshot))
            && row.rec.value.obs.key == BuildKey(tenant, TagOf(s, j, row.attempt, surface, ObservationJson))
            && Stored(digests, s.store, row.rec.value.shot) && Stored(digests, s.store, row.rec.value.obs)
  {
    var env := Deployment(tenant, digests, json);
    DeploymentIsGood(tenant, digests, json);
    InvThroughout(env, ss, steps, i);
    assert RowOk(env, ss[i], j, surface);
  }

  /** The surface is one of the manifest the job names. */
  ghost predicate OfItsManifest(s: State, j: string, surface: string) {
    && j in s.jobs && s.jobs[j].manifest in s.manifests
    && surface in Keys(s.manifests[s.jobs[j].manifest].surfaces)
  }

  /** Neither CHECK on the result table can fire, and every job executes its manifest. */
  lemma TablesStayConsistent(tenant: string, digests: Digests, json: Observation -> Bytes,
                             ss: seq<State>, steps: seq<Step>, i: nat)
    requires '/' !in tenant && Execution(Deployment(tenant, digests, json), ss, steps) && i < |ss|
    ensures forall id :: id in ss[i].results ==>
              var row := ss[i].results[id];
              && (row.state in {Uploaded, Referenced} ==> row.rec != None)
              && (row.state == Referenced ==> row.verifiedAt != None)
    ensures forall id :: id in ss[i].results ==> OfItsManifest(ss[i], id.0, id.1)
    ensures forall j :: j in ss[i].jobs ==>
              && TimesTell(ss[i].jobs[j]) && ss[i].jobs[j].manifest in ss[i].manifests
              && ss[i].jobs[j].payload.surfaces == ss[i].manifests[ss[i].jobs[j].manifest].surfaces
  {
    var env := Deployment(tenant, digests, json);
    DeploymentIsGood(tenant, digests, json);
    InvThroughout(env, ss, steps, i);
    InvIsConsistent(env, ss[i]);
    forall id | id in ss[i].results
      ensures ss[i].results[id].state == Referenced ==>
                ss[i].results[id].rec != None && ss[i].results[id].verifiedAt != None
    {
      ReferencedExactly(ss[i].results[id]);
    }
    forall j | j in ss[i].jobs
      ensures TimesTell(ss[i].jobs[j])
    {
      TimesExactly(ss[i].jobs[j]);
    }
  }

  lemma InvIsConsistent(env: Env, s: State)
    requires JobsOk(s) && RowsOk(env, s)
    ensures forall id :: id in s.results ==>
              && ReferencedOk(s.results[id]) && (s.results[id].state == Uploaded ==> s.results[id].rec.Some?)
              && OfItsManifest(s, id.0, id.1)
    ensures forall j :: j in s.jobs ==>
              && TimingOk(s.jobs[j]) && s.jobs[j].manifest in s.manifests
              && s.jobs[j].payload.surfaces == s.manifests[s.jobs[j].manifest].surfaces
  {
    forall id | id in s.results
      ensures ReferencedOk(s.results[id]) && (s.results[id].state == Uploaded ==> s.results[id].rec.Some?)
      ensures OfItsManifest(s, id.0, id.1)
    {
      assert RowOk(env, s, id.0, id.1);
      assert JobOk(s, id.0);
    }
    forall j | j in s.jobs
      ensures TimingOk(s.jobs[j]) && s.jobs[j].manifest in s.manifests
      ensures s.jobs[j].payload.surfaces == s.manifests[s.jobs[j].manifest].surfaces
    {
      assert JobOk(s, j);
    }
  }

  /** What a manifest says, what a job executes and what an upload stored stay as they are
      for the rest of the run. */
  ghost predicate Lasts(s: State, s': State) {
    && (forall id :: id in s.manifests ==> id in s'.manifests && s'.manifests[id] == s.manifests[id])
    && (forall j :: j in s.jobs ==>
          j in s'.jobs && s'.jobs[j].manifest == s.jobs[j].manifest && s'.jobs[j].payload == s.jobs[j].payload)
    && (forall key :: key in s.puts && key in s.store ==>
          key in s'.puts && s'.puts[key] == s.puts[key] && key in s'.store && s'.store[key] == s.store[key])
  }

  lemma ApplyKeepsManifests(env: Env, s: State, j: string, a: nat, write: Write, worker: Worker)
    requires j in s.jobs
    ensures Apply(env, s, j, a, write, worker).manifests == s.manifests
  {
  }

  lemma StepKeepsManifests(env: Env, s: State, step: Step, id: string)
    requires Enabled(env, s, step) && id in s.manifests
    ensures var s' := Next(env, s, step); id in s'.manifests && s'.manifests[id] == s.manifests[id]
  {
    if step.Work? {
      var j, a, m := step.job, step.attempt, step.move;
      ApplyKeepsManifests(env, s, j, a, WriteOf(env, s, j, a, m), NextWorker(env, s, j, a, m));
    }
  }

  lemma ExtendsLasts(s: State, s': State)
    requires Extends(s, s') && forall id :: id in s.manifests ==>
             id in s'.manifests && s'.manifests[id] == s.manifests[id]
    ensures Lasts(s, s')
  {
  }

  lemma StepLasts(env: Env, s: State, step: Step)
    requires GoodEnv(env) && Inv(env, s) && Enabled(env, s, step)
    ensures Lasts(s, Next(env, s, step))
  {
    StepExtends(env, s, step);
    var s' := Next(env, s, step);
    forall id | id in s.manifests
      ensures id in s'.manifests && s'.manifests[id] == s.manifests[id]
    {
      StepKeepsManifests(env, s, step, id);
    }
    ExtendsLasts(s, s');
  }

  lemma LastsOn(s: State, s': State, s'': State)
    requires Lasts(s, s') && Lasts(s', s'')
    ensures Lasts(s, s'')
  {
  }

  lemma LastsItself(s: State)
    ensures Lasts(s, s)
  {
  }

  lemma NextLasts(env: Env, ss: seq<State>, steps: seq<Step>, k: nat)
    requires GoodEnv(env) && Execution(env, ss, steps) && k < |steps|
    ensures Lasts(ss[k], ss[k + 1])
  {
    InvThroughout(env, ss, steps, k);
    StepAt(env, ss, steps, k);
    StepLasts(env, ss[k], steps[k]);
  }

  lemma {:induction false} LastsThroughout(env: Env, ss: seq<State>, steps: seq<Step>, i: nat, k: nat)
    requires GoodEnv(env) && Execution(env, ss, steps) && i <= k < |ss|
    ensures Lasts(ss[i], ss[k])
    decreases k
  {
    if i == k {
      LastsItself(ss[i]);
    } else {
      LastsThroughout(env, ss, steps, i, k - 1);
      NextLasts(env, ss, steps, k - 1);
      LastsOn(ss[i], ss[k - 1], ss[k]);
    }
  }

  lemma ManifestsAndUploadsLast(
    tenant: string, digests: Digests, json: Observation -> Bytes, ss: seq<State>, steps: seq<Step>, i: nat, k: nat)
    requires '/' !in tenant && Execution(Deployment(tenant, digests, json), ss, steps) && i <= k < |ss|
    ensures Lasts(ss[i], ss[k])
  {
    DeploymentIsGood(tenant, digests, json);
    LastsThroughout(Deployment(tenant, digests, json), ss, steps, i, k);
  }

  // --- The tenant guard ---

  /** A worker between its two PUTs has passed the guard, and so has every object put. */
  ghost predicate Guarded(env: Env, s: State) {
    && (forall j: string, a: nat ::
          (j, a) in s.workers && s.workers[(j, a)].pc.PuttingObs? ==> PassedGuard(env, s, j, a))
    && (forall key :: key in s.puts ==> TenantScoped(env.tenant, key))
  }

  ghost predicate PassedGuard(env: Env, s: State, j: string, a: nat) {
    Present(s, j, a) && AtSurface(s.workers[(j, a)].pc) && KeysScoped(env, s, j, a)
  }

  lemma GuardKept(env: Env, s: State, s': State, j: string, a: nat)
    requires PassedGuard(env, s, j, a) && Extends(s, s') && (j, a) in s'.workers
    requires s'.workers[(j, a)] == s.workers[(j, a)]
    ensures PassedGuard(env, s', j, a)
  {
  }

  lemma MoveGuarded(env: Env, s: State, j: string, a: nat, m: Move)
    requires Present(s, j, a) && CanMove(env, s, j, a, m)
    requires s.workers[(j, a)].pc.PuttingObs? ==> PassedGuard(env, s, j, a)
    ensures var w := WriteOf(env, s, j, a, m); w.Upload? ==> TenantScoped(env.tenant, env.key(w.tag))
    ensures NextWorker(env, s, j, a, m).pc.PuttingObs? ==>
              && AtSurface(s.workers[(j, a)].pc) && KeysScoped(env, s, j, a)
              && NextWorker(env, s, j, a, m).i == s.workers[(j, a)].i
  {
  }

  lemma GuardMoves(env: Env, s: State, s': State, j: string, a: nat)
    requires Present(s, j, a) && AtSurface(s.workers[(j, a)].pc) && KeysScoped(env, s, j, a) && Extends(s, s')
    requires (j, a) in s'.workers && AtSurface(s'.workers[(j, a)].pc) && s'.workers[(j, a)].i == s.workers[(j, a)].i
    ensures PassedGuard(env, s', j, a)
  {
  }

  lemma WorkGuarded(env: Env, s: State, j: string, a: nat, m: Move, s': State)
    requires Present(s, j, a) && CanMove(env, s, j, a, m) && Guarded(env, s) && Extends(s, s')
    requires s' == Apply(env, s, j, a, WriteOf(env, s, j, a, m), NextWorker(env, s, j, a, m))
    ensures Guarded(env, s')
  {
    var write, worker := WriteOf(env, s, j, a, m), NextWorker(env, s, j, a, m);
    MoveGuarded(env, s, j, a, m);
    AppliedPuts(env, s, j, a, write, worker);
    forall k: string, b: nat | (k, b) in s'.workers && s'.workers[(k, b)].pc.PuttingObs?
      ensures PassedGuard(env, s', k, b)
    {
      if (k, b) == (j, a) {
        GuardMoves(env, s, s', j, a);
      } else {
        GuardKept(env, s, s', k, b);
      }
    }
  }

  lemma AppliedPuts(env: Env, s: State, j: string, a: nat, write: Write, worker: Worker)
    requires j in s.jobs
    ensures var s' := Apply(env, s, j, a, write, worker);
            && s'.workers == s.workers[(j, a) := worker]
            && s'.puts.Keys == s.puts.Keys + if write.Upload? then {env.key(write.tag)} else {}
  {
  }

  lemma EnvironmentGuarded(env: Env, s: State, step: Step)
    requires Enabled(env, s, step) && !step.Work? && Roster(s) && Guarded(env, s) && Extends(s, Next(env, s, step))
    ensures Guarded(env, Next(env, s, step))
  {
    var s' := Next(env, s, step);
    forall k: string, b: nat | (k, b) in s'.workers && s'.workers[(k, b)].pc.PuttingObs?
      ensures PassedGuard(env, s', k, b)
    {
      GuardKept(env, s, s', k, b);
    }
  }

  lemma {:induction false} GuardedThroughout(env: Env, ss: seq<State>, steps: seq<Step>, i: nat)
    requires GoodEnv(env) && Execution(env, ss, steps) && i < |ss|
    ensures Guarded(env, ss[i])
  {
    if i > 0 {
      var s, step := ss[i - 1], steps[i - 1];
      GuardedThroughout(env, ss, steps, i - 1);
      InvThroughout(env, ss, steps, i - 1);
      StepAt(env, ss, steps, i - 1);
      StepExtends(env, s, step);
      if step.Work? {
        WorkGuarded(env, s, step.job, step.attempt, step.move, ss[i]);
      } else {
        EnvironmentGuarded(env, s, step);
      }
    }
  }

  /** In every run every object a worker put has a key of the tenant without two dots in a row,
      whatever surface keys the manifests hold. */
  lemma UploadsStayInTenant(tenant: string, digests: Digests, json: Observation -> Bytes,
                            ss: seq<State>, steps: seq<Step>, i: nat, key: string)
    requires '/' !in tenant && Execution(Deployment(tenant, digests, json), ss, steps) && i < |ss|
    requires key in ss[i].puts
    ensures InTenant(tenant, key)
  {
    DeploymentIsGood(tenant, digests, json);
    GuardedThroughout(Deployment(tenant, digests, json), ss, steps, i);
    TenantScopedExactly(tenant, key);
  }

  // --- The orphan sweep ---

  /** `rows` lists the evidence_keys column of the result table. */
  ghost predicate ListsRecords(results: Results, rows: seq<Option<Record>>) {
    forall rec: Option<Record> :: rec in rows <==> exists id :: id in results && results[id].rec == rec
  }

  /** The row for the job and surface of an upload records exactly that attempt's keys. */
  ghost predicate RecordedByItsRow(s: State, tag: KeyTag) {
    && (tag.job, tag.surface) in s.results
    && s.results[(tag.job, tag.surface)].rec.Some?
    && s.results[(tag.job, tag.surface)].attempt == tag.attempt
  }

  lemma RecordedKeyIsOwn(env: Env, s: State, id: (string, string), key: string, tag: KeyTag)
    requires GoodEnv(env) && TaggedJobs(s) && WellTagged(tag) && key == env.key(tag)
    requires id in s.results && RowOk(env, s, id.0, id.1) && key in RecordKeys(s.results[id].rec)
    ensures id == (tag.job, tag.surface) && s.results[id].attempt == tag.attempt
  {
    var a := s.results[id].attempt;
    assert WellTagged(TagOf(s, id.0, a, id.1, Screenshot)) && WellTagged(TagOf(s, id.0, a, id.1, ObservationJson));
  }

  lemma OwnRecordHasKey(env: Env, s: State, key: string)
    requires key in s.puts && PutOk(env, s, key) && RecordedByItsRow(s, s.puts[key])
    requires RowOk(env, s, s.puts[key].job, s.puts[key].surface)
    ensures key in RecordKeys(s.results[(s.puts[key].job, s.puts[key].surface)].rec)
  {
    var tag := s.puts[key];
    match tag.artifact
    case Screenshot => assert tag == TagOf(s, tag.job, tag.attempt, tag.surface, Screenshot);
    case ObservationJson => assert tag == TagOf(s, tag.job, tag.attempt, tag.surface, ObservationJson);
  }

  lemma ReferencedIffRecorded(env: Env, s: State, rows: seq<Option<Record>>, key: string)
    requires GoodEnv(env) && TaggedJobs(s) && RowsOk(env, s) && PutsOk(env, s)
    requires ListsRecords(s.results, rows) && key in s.puts
    ensures key in ReferencedKeys(rows) <==> RecordedByItsRow(s, s.puts[key])
  {
    var tag := s.puts[key];
    assert PutOk(env, s, key);
    assert WellTagged(tag);
    if key in ReferencedKeys(rows) {
      var i :| 0 <= i < |rows| && key in RecordKeys(rows[i]);
      assert rows[i] in rows;
      var id :| id in s.results && s.results[id].rec == rows[i];
      assert RowOk(env, s, id.0, id.1);
      RecordedKeyIsOwn(env, s, id, key, tag);
    }
    if RecordedByItsRow(s, tag) {
      var id := (tag.job, tag.surface);
      assert RowOk(env, s, id.0, id.1);
      OwnRecordHasKey(env, s, key);
      assert s.results[id].rec in rows;
    }
  }

  /** Among the tenant's own objects a sweep under the tenant prefix reports exactly those
      whose attempt the row for their job and surface does not record: superseded
      attempts, half-finished uploads, and uploads cut off before the row was written. */
  lemma SweepReportsExactlyTheUnrecorded(
    tenant: string, digests: Digests, json: Observation -> Bytes, ss: seq<State>, steps: seq<Step>, i: nat,
    rows: seq<Option<Record>>, orphans: set<string>, key: string)
    requires '/' !in tenant && Execution(Deployment(tenant, digests, json), ss, steps) && i < |ss|
    requires ListsRecords(ss[i].results, rows)
    requires forall k :: k in orphans <==> k in ss[i].store && tenant <= k && k !in ReferencedKeys(rows)
    requires key in ss[i].store && FirstSegment(key) == tenant
    ensures key in ss[i].puts && BuildKey(tenant, ss[i].puts[key]) == key
    ensures key in orphans <==> !RecordedByItsRow(ss[i], ss[i].puts[key])
  {
    var env := Deployment(tenant, digests, json);
    DeploymentIsGood(tenant, digests, json);
    InvThroughout(env, ss, steps, i);
    assert PutOk(env, ss[i], key);
    FirstSegmentIsPrefix(key);
    ReferencedIffRecorded(env, ss[i], rows, key);
  }

  // --- Claims ---

  /** The claim accounting of one job. */
  ghost function LedgerOf(s: State, j: string): L.Ledger
    requires j in s.jobs
  {
    var job := s.jobs[j];
    L.Ledger(job.status, job.attempts, job.reaps, if j in s.finishes then s.finishes[j] else 0, OpenAttempts(s, j))
  }

  ghost function OpenAttempts(s: State, j: string): set<nat>
    requires j in s.jobs
  {
    set a: nat | 1 <= a <= s.jobs[j].attempts && (j, a) in s.workers && !s.workers[(j, a)].pc.Gone?
  }

  /** What a step means for the ledger of job `j`: nothing, or one ledger step. */
  ghost function LedgerStep(env: Env, s: State, step: Step, j: string): Option<L.Step>
    requires Enabled(env, s, step) && j in s.jobs
  {
    match step
    case ClaimJob(id, _) => if id == j then Some(L.Claim) else None
    case ReapJobs => if Stalled(s.jobs[j], s.now) then Some(L.Reap) else None
    case Work(k, a, m) =>
      if k != j then None
      else if m.FinishJob? && FinishAccepted(s, j, a) then Some(L.Finish(a, s.workers[(j, a)].pc.ending.outcome))
      else if m.FinishJob? || m.Stop? || m.Crash? then Some(L.Lose(a))
      else None
    case _ => None
  }

  ghost function LedgerAfter(l: L.Ledger, step: Option<L.Step>): L.Ledger
    requires step.Some? ==> L.Enabled(l, step.value)
  {
    if step.Some? then L.Next(l, step.value, true) else l
  }

  ghost predicate FollowsLedger(env: Env, s: State, step: Step, j: string)
    requires Enabled(env, s, step) && j in s.jobs
  {
    var lstep := LedgerStep(env, s, step, j);
    && j in Next(env, s, step).jobs
    && (lstep.Some? ==> L.Enabled(LedgerOf(s, j), lstep.value))
    && LedgerOf(Next(env, s, step), j) == LedgerAfter(LedgerOf(s, j), lstep)
  }

  /** What one worker's write does to the ledgers. */
  lemma ApplyOnLedger(env: Env, s: State, k: string, a: nat, write: Write, worker: Worker, j: string)
    requires Roster(s) && k in s.jobs && (k, a) in s.workers && j in s.jobs
    requires write.SetJob? ==> write.job.attempts == s.jobs[k].attempts
    ensures var l, l' := LedgerOf(s, j), LedgerOf(Apply(env, s, k, a, write, worker), j);
            && l'.attempts == l.attempts
            && l'.open == (if k == j && worker.pc.Gone? then l.open - {a}
                           else if k == j then l.open + {a} else l.open)
            && (k != j || !write.SetJob? ==> l'.status == l.status && l'.reaps == l.reaps && l'.finishes == l.finishes)
            && (k == j && write.SetJob? ==>
                  l'.status == write.job.status && l'.reaps == write.job.reaps && l'.finishes == l.finishes + 1)
  {
    var s' := Apply(env, s, k, a, write, worker);
    assert k != j ==> OpenAttempts(s', j) == OpenAttempts(s, j);
    assert k == j && worker.pc.Gone? ==> OpenAttempts(s', j) == OpenAttempts(s, j) - {a};
    assert k == j && !worker.pc.Gone? ==> OpenAttempts(s', j) == OpenAttempts(s, j) + {a};
  }

  lemma FinishFollowsLedger(env: Env, s: State, j: string, a: nat)
    requires Roster(s) && Present(s, j, a) && s.workers[(j, a)].pc.Finishing? && TimingOk(s.jobs[j])
    ensures FollowsLedger(env, s, Work(j, a, FinishJob), j)
  {
    var w := s.workers[(j, a)];
    FinishRefusedExactlyWhenPending(s.jobs[j], "", w.pc.ending.outcome, a, s.now);
    EndingOnLedger(env, s, j, a, w.pc.ending.outcome, WriteOf(env, s, j, a, FinishJob),
                   NextWorker(env, s, j, a, FinishJob));
  }

  /** A finishing write that is accepted, or refused. */
  lemma EndingOnLedger(env: Env, s: State, j: string, a: nat, outcome: L.Outcome, write: Write, worker: Worker)
    requires Roster(s) && j in s.jobs && (j, a) in s.workers && !s.workers[(j, a)].pc.Gone? && worker.pc.Gone?
    requires write == if s.jobs[j].status == L.Pending then NoWrite
                      else SetJob(FinishedJob(s.jobs[j], L.Classify(outcome, a), s.now))
    ensures var l, step := LedgerOf(s, j), if s.jobs[j].status == L.Pending then L.Lose(a) else L.Finish(a, outcome);
            L.Enabled(l, step) && LedgerOf(Apply(env, s, j, a, write, worker), j) == L.Next(l, step, true)
  {
    assert a in OpenAttempts(s, j);
    ApplyOnLedger(env, s, j, a, write, worker, j);
  }

  lemma LeavingFollowsLedger(env: Env, s: State, j: string, a: nat, m: Move)
    requires Roster(s) && Present(s, j, a) && CanMove(env, s, j, a, m) && (m.Stop? || m.Crash?)
    ensures FollowsLedger(env, s, Work(j, a, m), j)
  {
    ApplyOnLedger(env, s, j, a, NoWrite, NextWorker(env, s, j, a, m), j);
  }

  lemma OnlyEndingsEnd(env: Env, s: State, k: string, a: nat, m: Move)
    requires Present(s, k, a) && CanMove(env, s, k, a, m)
    ensures WriteOf(env, s, k, a, m).SetJob? ==> m.FinishJob?
    ensures WriteOf(env, s, k, a, m).SetJob? ==> WriteOf(env, s, k, a, m).job.attempts == s.jobs[k].attempts
    ensures NextWorker(env, s, k, a, m).pc.Gone? ==> m.FinishJob? || m.Stop? || m.Crash?
    ensures !s.workers[(k, a)].pc.Gone?
  {
  }

  lemma QuietOnLedger(env: Env, s: State, k: string, a: nat, write: Write, worker: Worker, j: string)
    requires Roster(s) && k in s.jobs && (k, a) in s.workers && j in s.jobs
    requires write.SetJob? ==> write.job.attempts == s.jobs[k].attempts
    requires k == j ==> !write.SetJob? && !worker.pc.Gone? && !s.workers[(k, a)].pc.Gone?
    ensures LedgerOf(Apply(env, s, k, a, write, worker), j) == LedgerOf(s, j)
  {
    ApplyOnLedger(env, s, k, a, write, worker, j);
    if k == j {
      assert a in OpenAttempts(s, j);
    }
  }

  /** Every other move keeps the worker running and no finishing write. */
  lemma RunningKeepsLedger(env: Env, s: State, k: string, a: nat, m: Move, j: string)
    requires Roster(s) && Present(s, k, a) && CanMove(env, s, k, a, m) && j in s.jobs
    requires k != j || !(m.FinishJob? || m.Stop? || m.Crash?)
    ensures FollowsLedger(env, s, Work(k, a, m), j)
  {
    var write, worker := WriteOf(env, s, k, a, m), NextWorker(env, s, k, a, m);
    OnlyEndingsEnd(env, s, k, a, m);
    QuietOnLedger(env, s, k, a, write, worker, j);
  }

  lemma WorkFollowsLedger(env: Env, s: State, k: string, a: nat, m: Move, j: string)
    requires Roster(s) && JobsOk(s) && Present(s, k, a) && CanMove(env, s, k, a, m) && j in s.jobs
    ensures FollowsLedger(env, s, Work(k, a, m), j)
  {
    assert JobOk(s, j);
    if k != j || !(m.FinishJob? || m.Stop? || m.Crash?) {
      RunningKeepsLedger(env, s, k, a, m, j);
    } else if m.FinishJob? {
      FinishFollowsLedger(env, s, j, a);
    } else {
      LeavingFollowsLedger(env, s, j, a, m);
    }
  }

  lemma ClaimFollowsLedger(env: Env, s: State, step: Step, j: string)
    requires Roster(s) && Enabled(env, s, step) && step.ClaimJob? && j in s.jobs
    ensures FollowsLedger(env, s, step, j)
  {
    var s' := Next(env, s, step);
    if step.id == j {
      assert OpenAttempts(s', j) == OpenAttempts(s, j) + {s.jobs[j].attempts + 1};
    } else {
      assert OpenAttempts(s', j) == OpenAttempts(s, j);
    }
  }

  lemma EnvironmentFollowsLedger(env: Env, s: State, step: Step, j: string)
    requires Enabled(env, s, step) && !step.Work? && !step.ClaimJob? && j in s.jobs
    ensures FollowsLedger(env, s, step, j)
  {
    assert OpenAttempts(Next(env, s, step), j) == OpenAttempts(s, j);
  }

  /** Every step of the protocol is a step of each job's ledger, or none at all. */
  lemma StepFollowsLedger(env: Env, s: State, step: Step, j: string)
    requires Roster(s) && JobsOk(s) && Enabled(env, s, step) && j in s.jobs
    ensures FollowsLedger(env, s, step, j)
  {
    if step.Work? {
      WorkFollowsLedger(env, s, step.job, step.attempt, step.move, j);
    } else if step.ClaimJob? {
      ClaimFollowsLedger(env, s, step, j);
    } else {
      EnvironmentFollowsLedger(env, s, step, j);
    }
  }

  lemma NewJobHasFreshLedger(env: Env, s: State, step: Step, j: string)
    requires Roster(s) && Enabled(env, s, step) && j !in s.jobs && j in Next(env, s, step).jobs
    ensures LedgerOf(Next(env, s, step), j) == L.FRESH
  {
    NewJobsAreEnqueued(env, s, step, j);
    assert OpenAttempts(Next(env, s, step), j) == {};
  }

  lemma NewJobsAreEnqueued(env: Env, s: State, step: Step, j: string)
    requires Enabled(env, s, step) && j !in s.jobs && j in Next(env, s, step).jobs
    ensures step.EnqueueJob? && step.id == j
  {
    if step.Work? {
      ApplyKeepsJobKeys(env, s, step.job, step.attempt, WriteOf(env, s, step.job, step.attempt, step.move),
                        NextWorker(env, s, step.job, step.attempt, step.move));
    }
  }

  lemma ApplyKeepsJobKeys(env: Env, s: State, j: string, a: nat, write: Write, worker: Worker)
    requires j in s.jobs
    ensures Apply(env, s, j, a, write, worker).jobs.Keys == s.jobs.Keys
  {
  }

  /** Only a claim charges an attempt. */
  lemma OnlyClaimsCharge(env: Env, s: State, step: Step, j: string)
    requires Enabled(env, s, step) && j in s.jobs && FollowsLedger(env, s, step, j)
    ensures Next(env, s, step).jobs[j].attempts == s.jobs[j].attempts + if step.ClaimJob? && step.id == j then 1 else 0
  {
    var lstep := LedgerStep(env, s, step, j);
    assert lstep == Some(L.Claim) <==> step.ClaimJob? && step.id == j;
  }

  lemma {:induction false} AccountedThroughout(env: Env, ss: seq<State>, steps: seq<Step>, i: nat, j: string)
    requires GoodEnv(env) && Execution(env, ss, steps) && i < |ss| && j in ss[i].jobs
    ensures L.Accounted(LedgerOf(ss[i], j), true)
  {
    if i > 0 {
      var s, step := ss[i - 1], steps[i - 1];
      InvThroughout(env, ss, steps, i - 1);
      StepAt(env, ss, steps, i - 1);
      if j in s.jobs {
        AccountedThroughout(env, ss, steps, i - 1, j);
        StepFollowsLedger(env, s, step, j);
        var lstep := LedgerStep(env, s, step, j);
        if lstep.Some? {
          L.AccountedStep(LedgerOf(s, j), lstep.value, true);
        }
      } else {
        NewJobHasFreshLedger(env, s, step, j);
        L.FreshAccounted(true);
      }
    }
  }

  /** The claims of job `j` among some steps. */
  ghost function ClaimsOf(steps: seq<Step>, j: string): nat {
    if steps == [] then 0
    else
      var last := steps[|steps| - 1];
      ClaimsOf(steps[..|steps| - 1], j) + if last.ClaimJob? && last.id == j then 1 else 0
  }

  ghost function AttemptsOf(s: State, j: string): nat {
    if j in s.jobs then s.jobs[j].attempts else 0
  }

  lemma StepCharges(env: Env, s: State, step: Step, j: string)
    requires GoodEnv(env) && Inv(env, s) && Enabled(env, s, step)
    ensures AttemptsOf(Next(env, s, step), j) ==
            AttemptsOf(s, j) + if step.ClaimJob? && step.id == j then 1 else 0
  {
    if j in s.jobs {
      StepFollowsLedger(env, s, step, j);
      OnlyClaimsCharge(env, s, step, j);
    } else if j in Next(env, s, step).jobs {
      NewJobHasFreshLedger(env, s, step, j);
    }
  }

  lemma {:induction false} AttemptsCountClaims(env: Env, ss: seq<State>, steps: seq<Step>, i: nat, j: string)
    requires GoodEnv(env) && Execution(env, ss, steps) && i < |ss|
    ensures ClaimsOf(steps[..i], j) == if j in ss[i].jobs then ss[i].jobs[j].attempts else 0
  {
    if i > 0 {
      AttemptsCountClaims(env, ss, steps, i - 1, j);
      InvThroughout(env, ss, steps, i - 1);
      StepAt(env, ss, steps, i - 1);
      StepCharges(env, ss[i - 1], steps[i - 1], j);
      assert steps[..i][..i - 1] == steps[..i - 1];
    }
  }

  /** However workers, reaps, crashes and late writes interleave, a job is claimed at most
      2 * MAX - 1 times, and at most MAX plus its number of reaps.  */
  lemma ClaimsAreBounded(tenant: string, digests: Digests, json: Observation -> Bytes,
                         ss: seq<State>, steps: seq<Step>, j: string)
    requires '/' !in tenant && Execution(Deployment(tenant, digests, json), ss, steps)
    requires j in ss[|steps|].jobs
    ensures ClaimsOf(steps, j) <= 2 * L.MAX_ATTEMPTS - 1
    ensures ClaimsOf(steps, j) <= L.MAX_ATTEMPTS + ss[|steps|].jobs[j].reaps
  {
    var env := Deployment(tenant, digests, json);
    DeploymentIsGood(tenant, digests, json);
    AccountedThroughout(env, ss, steps, |steps|, j);
    AttemptsCountClaims(env, ss, steps, |steps|, j);
    assert steps[..|steps|] == steps;
    L.AccountedBounds(LedgerOf(ss[|steps|], j), true);
  }
}
