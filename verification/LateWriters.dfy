/** Why some guarantees need punctual workers: executions in which a worker that lost its lease
    still writes. */
module LateWriters {
  import opened Text
  import opened Evidence
  import opened RunManifest
  import opened JobQueue
  import opened PortalSession
  import opened Protocol
  import L = LeaseLedger

  const HOME := Surface("home", "/")
  const PLAN := Manifest([HOME], "default", Pins(None, None), None)
  const M := "m"
  const J := "j"

  /** One guest job of one surface, waiting or running. */
  ghost predicate OneJob(s: State, status: L.Status, attempts: nat, now: nat) {
    && s.now == now && s.jobs.Keys == {J}
    && s.jobs[J].status == status && s.jobs[J].attempts == attempts && s.jobs[J].manifest == M
    && s.jobs[J].payload.surfaces == [HOME] && s.jobs[J].payload.auth.None? &&
       s.jobs[J].startedAt.Some? == (status != L.Pending)
    && (status == L.InProgress ==> s.jobs[J].heartbeatAt.Some? && s.jobs[J].heartbeatAt.value <= now)
  }

  lemma FirstClaim(env: Env) returns (s: State)
    ensures Reached(env, s) && OneJob(s, L.InProgress, 1, 0)
    ensures s.workers == map[(J, 1) := Worker(Start, 0, None, None)] && s.results == map[] && s.verified == {}
  {
    ReachedEmpty(env);
    s := ReachedNext(env, EMPTY, CreateManifest(M, PLAN));
    s := ReachedNext(env, s, EnqueueJob(J, M));
    assert OldestClaimable(s.jobs, J);
    s := ReachedNext(env, s, ClaimJob(J, "first"));
  }

  /** The lease dies and the job is claimed again; the worker of attempt 1 lives on. */
  lemma SecondClaim(env: Env, s: State) returns (s': State)
    requires Reached(env, s) && OneJob(s, L.InProgress, 1, 0)
    ensures Reached(env, s') && OneJob(s', L.InProgress, 2, 121)
    ensures s'.workers == s.workers[(J, 2) := Worker(Start, 0, None, None)]
    ensures s'.results == s.results && s'.verified == s.verified
  {
    s' := ReachedNext(env, s, Tick(121));
    s' := ReachedNext(env, s', ReapJobs);
    assert OldestClaimable(s'.jobs, J);
    s' := ReachedNext(env, s', ClaimJob(J, "second"));
  }

  lemma OpensHome(env: Env, s: State, a: nat, now: nat) returns (s': State)
    requires Reached(env, s) && OneJob(s, L.InProgress, a, now)
    requires (J, a) in s.workers && s.workers[(J, a)] == Worker(Start, 0, None, None)
    ensures Reached(env, s') && OneJob(s', L.InProgress, a, now)
    ensures s'.workers == s.workers[(J, a) := Worker(Scanning, 0, None, None)]
    ensures s'.results == s.results && s'.verified == s.verified
  {
    s' := ReachedNext(env, s, Work(J, a, BeginGuest));
    s' := ReachedNext(env, s', Work(J, a, BeatSurface));
  }

  /** From its claim to the end of its scan. */
  lemma ScansHome(env: Env, s: State, a: nat, now: nat, obs: Observation, png: Option<Bytes>) returns (s': State)
    requires Reached(env, s) && OneJob(s, L.InProgress, a, now)
    requires (J, a) in s.workers && s.workers[(J, a)] == Worker(Start, 0, None, None)
    ensures Reached(env, s') && OneJob(s', L.InProgress, a, now)
    ensures s'.workers == s.workers[(J, a) := Worker(
              if obs.ok && png.Some? then PuttingShot(png.value, obs) else Writing(obs, None, "NONE"), 0, None, None)]
    ensures s'.results == s.results && s'.verified == s.verified
  {
    s' := OpensHome(env, s, a, now);
    s' := ReachedNext(env, s', Work(J, a, ScanDone(obs, png)));
  }

  // --- A success that is not the last attempt's ---

  lemma RecordsFailure(env: Env, s: State, a: nat, now: nat, obs: Observation) returns (s': State)
    requires Reached(env, s) && OneJob(s, L.InProgress, a, now)
    requires (J, a) in s.workers && s.workers[(J, a)] == Worker(Writing(obs, None, "NONE"), 0, None, None)
    ensures Reached(env, s') && OneJob(s', L.InProgress, a, now)
    ensures s'.workers == s.workers[(J, a) := Worker(Top, 1, None, None)]
    ensures s'.results == s.results[(J, HOME.key) := UpsertedRow(a, obs, Custody(Incomplete, None, Some("NONE")))]
  {
    s' := ReachedNext(env, s, Work(J, a, WriteRow));
  }

  lemma Completes(env: Env, s: State, a: nat, now: nat) returns (s': State)
    requires Reached(env, s) && OneJob(s, L.InProgress, a, now)
    requires (J, a) in s.workers && s.workers[(J, a)] == Worker(Top, 1, None, None)
    ensures Reached(env, s') && OneJob(s', L.InProgress, a, now) && s'.results == s.results
    ensures s'.workers == s.workers[(J, a) := Worker(Finishing(Ending(L.Success, None)), 1, None, None)]
  {
    s' := ReachedNext(env, s, Work(J, a, Complete));
  }

  /** A finishing write is accepted whoever holds the lease. */
  lemma Finishes(env: Env, s: State, a: nat, attempts: nat, now: nat) returns (s': State)
    requires Reached(env, s) && OneJob(s, L.InProgress, attempts, now)
    requires (J, a) in s.workers && s.workers[(J, a)] == Worker(Finishing(Ending(L.Success, None)), 1, None, None)
    ensures Reached(env, s') && OneJob(s', L.Succeeded, attempts, now) && s'.results == s.results
  {
    s' := ReachedNext(env, s, Work(J, a, FinishJob));
  }

  /** A worker that lost its lease reports success while attempt 2 runs: the job is succeeded,
      but its row is not the last attempt's. */
  lemma LateSuccess(env: Env) returns (s: State)
    ensures Reached(env, s) && J in s.jobs && s.jobs[J].status == L.Succeeded
    ensures (J, HOME.key) in s.results && s.results[(J, HOME.key)].attempt != s.jobs[J].attempts
  {
    var obs := Observation(false, "");
    s := FirstClaim(env);
    s := ScansHome(env, s, 1, 0, obs, None);
    s := RecordsFailure(env, s, 1, 0, obs);
    s := Completes(env, s, 1, 0);
    s := SecondClaim(env, s);
    s := Finishes(env, s, 1, 2, 121);
  }

  // --- A reference nobody verified ---

  function HomeTag(a: nat, artifact: Artifact): KeyTag {
    KeyTag(M, J, HOME.key, a, artifact)
  }

  /** The tenant guard lets the keys of this job through. */
  ghost predicate HomeScoped(env: Env) {
    forall a: nat, artifact :: TenantScoped(env.tenant, env.key(HomeTag(a, artifact)))
  }

  lemma NoDotsJoined(s: string, t: string)
    requires !HasDotDot(s) && !HasDotDot(t)
    ensures !HasDotDot(s + ['/'] + t)
  {
    var all := s + ['/'] + t;
    forall i | 0 <= i < |all| - 1
      ensures !(all[i] == '.' && all[i + 1] == '.')
    {
      assert i + 1 < |s| ==> all[i] == s[i] && all[i + 1] == s[i + 1];
      assert i > |s| ==> all[i] == t[i - |s| - 1] && all[i + 1] == t[i - |s|];
    }
  }

  lemma NoDots(s: string)
    requires '.' !in s
    ensures !HasDotDot(s)
  {
  }

  lemma NoDotsInName(artifact: Artifact)
    ensures !HasDotDot(FileName(artifact))
  {
    var name := FileName(artifact);
    assert name == if artifact.Screenshot? then "screenshot" + ".png" else "observation" + ".json";
    forall i | 0 <= i < |name| && name[i] == '.'
      ensures i == if artifact.Screenshot? then 10 else 11
    {
    }
  }

  /** The deployment's own keys pass the guard. */
  lemma DeploymentScopesHome(tenant: string, digests: Digests, json: Observation -> Bytes)
    requires '/' !in tenant && tenant != "" && !HasDotDot(tenant)
    ensures HomeScoped(Deployment(tenant, digests, json))
  {
    forall a: nat, artifact
      ensures TenantScoped(tenant, BuildKey(tenant, HomeTag(a, artifact)))
    {
      var tag := HomeTag(a, artifact);
      DecimalIsDigits(a);
      NoDots(Decimal(a));
      NoDots(HOME.key);
      NoDots(J);
      NoDots(M);
      NoDotsInName(artifact);
      var surface := HOME.key + ['/'] + Decimal(a);
      NoDotsJoined(HOME.key, Decimal(a));
      NoDotsJoined(surface, FileName(artifact));
      NoDotsJoined(J, surface + ['/'] + FileName(artifact));
      NoDotsJoined(M, J + ['/'] + (surface + ['/'] + FileName(artifact)));
      NoDotsJoined(tenant, M + ['/'] + (J + ['/'] + (surface + ['/'] + FileName(artifact))));
      BuildKeyStaysInTenant(tenant, tag);
      assert BuildKey(tenant, tag)[0] == tenant[0];
    }
  }

  function HomeRecord(env: Env, a: nat, png: Bytes, obs: Observation): Record {
    Record(MetaOf(env.digests, env.key(HomeTag(a, Screenshot)), png, Screenshot),
           MetaOf(env.digests, env.key(HomeTag(a, ObservationJson)), env.json(obs), ObservationJson))
  }

  lemma Puts(env: Env, s: State, a: nat, now: nat, obs: Observation, png: Bytes) returns (s': State)
    requires Reached(env, s) && OneJob(s, L.InProgress, a, now) && HomeScoped(env)
    requires (J, a) in s.workers && s.workers[(J, a)] == Worker(PuttingShot(png, obs), 0, None, None)
    ensures Reached(env, s') && OneJob(s', L.InProgress, a, now)
    ensures s'.workers == s.workers[(J, a) := Worker(PuttingObs(png, obs), 0, None, None)]
    ensures s'.results == s.results && s'.verified == s.verified
  {
    forall artifact
      ensures ObjectKey(env, s, J, a, artifact) == env.key(HomeTag(a, artifact))
    {
      assert TagOf(s, J, a, HOME.key, artifact) == HomeTag(a, artifact);
    }
    s' := ReachedNext(env, s, Work(J, a, PutShotOk));
  }

  lemma PutsBoth(env: Env, s: State, a: nat, now: nat, obs: Observation, png: Bytes) returns (s': State)
    requires Reached(env, s) && OneJob(s, L.InProgress, a, now)
    requires (J, a) in s.workers && s.workers[(J, a)] == Worker(PuttingObs(png, obs), 0, None, None)
    ensures Reached(env, s') && OneJob(s', L.InProgress, a, now)
    ensures s'.workers == s.workers[(J, a) :=
            Worker(Writing(obs, Some(HomeRecord(env, a, png, obs)), ""), 0, None, None)]
    ensures s'.results == s.results && s'.verified == s.verified
  {
    s' := ReachedNext(env, s, Work(J, a, PutObsOk));
  }

  lemma RecordsUpload(env: Env, s: State, a: nat, now: nat, obs: Observation, rec: Record) returns (s': State)
    requires Reached(env, s) && OneJob(s, L.InProgress, a, now)
    requires (J, a) in s.workers && s.workers[(J, a)] == Worker(Writing(obs, Some(rec), ""), 0, None, None)
    ensures Reached(env, s') && OneJob(s', L.InProgress, a, now)
    ensures s'.workers == s.workers[(J, a) := Worker(Checking(rec), 0, None, None)]
    ensures s'.results == s.results[(J, HOME.key) := UpsertedRow(a, obs, Custody(Uploaded, Some(rec), None))]
    ensures s'.verified == s.verified
  {
    s' := ReachedNext(env, s, Work(J, a, WriteRow));
  }

  /** From its claim to the row that records its upload. */
  lemma UploadsHome(env: Env, s: State, a: nat, now: nat, obs: Observation, png: Bytes) returns (s': State)
    requires Reached(env, s) && OneJob(s, L.InProgress, a, now) && HomeScoped(env) && obs.ok
    requires (J, a) in s.workers && s.workers[(J, a)] == Worker(Start, 0, None, None)
    ensures Reached(env, s') && OneJob(s', L.InProgress, a, now)
    ensures s'.workers == s.workers[(J, a) := Worker(Checking(HomeRecord(env, a, png, obs)), 0, None, None)]
    ensures s'.results == s.results[(J, HOME.key) :=
            UpsertedRow(a, obs, Custody(Uploaded, Some(HomeRecord(env, a, png, obs)), None))]
    ensures s'.verified == s.verified
  {
    s' := ScansHome(env, s, a, now, obs, Some(png));
    s' := Puts(env, s', a, now, obs, png);
    s' := PutsBoth(env, s', a, now, obs, png);
    s' := RecordsUpload(env, s', a, now, obs, HomeRecord(env, a, png, obs));
  }

  function Answers(rec: Record): string -> Option<Head> {
    key => if key == rec.shot.key then Some(Head(rec.shot.size, Some(rec.shot.sha256), ""))
           else Some(Head(rec.obs.size, Some(rec.obs.sha256), ""))
  }

  lemma Verifies(env: Env, s: State, a: nat, now: nat, rec: Record) returns (s': State)
    requires Reached(env, s) && OneJob(s, L.InProgress, a, now) && rec.shot.key != rec.obs.key
    requires (J, a) in s.workers && s.workers[(J, a)] == Worker(Checking(rec), 0, None, None)
    ensures Reached(env, s') && OneJob(s', L.InProgress, a, now) && s'.results == s.results
    ensures s'.workers == s.workers[(J, a) := Worker(Recording(rec, true), 0, None, None)]
    ensures s'.verified == s.verified + {rec}
  {
    assert AcceptsRecord(rec, Answers(rec));
    s' := ReachedNext(env, s, Work(J, a, CheckHeads(Answers(rec))));
  }

  /** Marking a row referenced is keyed by job and surface only. */
  lemma MarksReferenced(env: Env, s: State, a: nat, attempts: nat, now: nat, rec: Record) returns (s': State)
    requires Reached(env, s) && OneJob(s, L.InProgress, attempts, now)
    requires (J, a) in s.workers && s.workers[(J, a)] == Worker(Recording(rec, true), 0, None, None)
    requires (J, HOME.key) in s.results && s.results[(J, HOME.key)].state == Uploaded
    ensures Reached(env, s') && s'.verified == s.verified
    ensures s'.results == s.results[(J, HOME.key) := ReferencedRow(s.results[(J, HOME.key)], now)]
  {
    s' := ReachedNext(env, s, Work(J, a, RecordCustody));
  }

  lemma KeysDiffer(env: Env)
    requires GoodEnv(env)
    ensures HomeRecord(env, 1, [], SEEN).shot.key != HomeRecord(env, 1, [], SEEN).obs.key
    ensures HomeRecord(env, 1, [], SEEN) != HomeRecord(env, 2, [], SEEN)
  {
    assert WellTagged(HomeTag(1, Screenshot)) && WellTagged(HomeTag(2, Screenshot)) &&
        WellTagged(HomeTag(1, ObservationJson));
  }

  const SEEN := Observation(true, "")

  lemma FirstVerifies(env: Env) returns (s: State)
    requires GoodEnv(env) && HomeScoped(env)
    ensures Reached(env, s) && OneJob(s, L.InProgress, 1, 0)
    ensures var rec := HomeRecord(env, 1, [], SEEN);
            s.workers == map[(J, 1) := Worker(Recording(rec, true), 0, None, None)] && s.verified == {rec}
  {
    KeysDiffer(env);
    s := FirstClaim(env);
    s := UploadsHome(env, s, 1, 0, SEEN, []);
    s := Verifies(env, s, 1, 0, HomeRecord(env, 1, [], SEEN));
  }

  lemma LateReferenceIn(env: Env) returns (s: State)
    requires GoodEnv(env) && HomeScoped(env)
    ensures Reached(env, s) && (J, HOME.key) in s.results
    ensures var row := s.results[(J, HOME.key)];
            row.state == Referenced && row.rec.Some? && row.rec.value !in s.verified
  {
    KeysDiffer(env);
    s := FirstVerifies(env);
    s := SecondClaim(env, s);
    s := UploadsHome(env, s, 2, 121, SEEN, []);
    s := MarksReferenced(env, s, 1, 2, 121, HomeRecord(env, 1, [], SEEN));
  }

  /** In any deployment: attempt 1 verifies its own upload, loses its lease, and marks the row
      after attempt 2 has replaced it. The row is referenced, but nobody verified what it records. */
  lemma LateReference(tenant: string, digests: Digests, json: Observation -> Bytes) returns (s: State)
    requires '/' !in tenant && tenant != "" && !HasDotDot(tenant)
    ensures Reached(Deployment(tenant, digests, json), s) && (J, HOME.key) in s.results
    ensures var row := s.results[(J, HOME.key)];
            row.state == Referenced && row.rec.Some? && row.rec.value !in s.verified
  {
    DeploymentIsGood(tenant, digests, json);
    DeploymentScopesHome(tenant, digests, json);
    s := LateReferenceIn(Deployment(tenant, digests, json));
  }

  // --- As many claims as there can be ---

  const LOGIN_PLAN := Manifest([HOME], "default", Pins(None, None), Some(Auth(TOTP_ENV, None)))

  /** A login the portal never answered. */
  const UNREACHED := LoginRun([], [], [], Some(PageNotReached))

  /** The one job, now with a login. */
  ghost predicate LoginJob(s: State, status: L.Status, attempts: nat, now: nat) {
    && s.now == now && s.jobs.Keys == {J}
    && s.jobs[J].status == status && s.jobs[J].attempts == attempts
    && s.jobs[J].payload.surfaces == [HOME] && s.jobs[J].payload.auth.Some?
    && (s.jobs[J].startedAt.Some? <==> status != L.Pending)
  }

  /** The job is claimed, and nothing more is heard of the worker until its lease is dead. */
  lemma LeaseDies(env: Env, s: State, status: L.Status, k: nat, now: nat) returns (s': State)
    requires Reached(env, s) && LoginJob(s, status, k, now) && L.Claimable(status)
    ensures Reached(env, s')
    ensures LoginJob(s', if k + 1 >= L.MAX_ATTEMPTS then L.FailedPermanent else L.Pending, k + 1, now + 121)
    ensures s'.workers == s.workers[(J, k + 1) := Worker(Start, 0, None, None)]
  {
    assert OldestClaimable(s.jobs, J);
    s' := ReachedNext(env, s, ClaimJob(J, "worker"));
    s' := LeaseRunsOut(env, s', k + 1, now);
  }

  lemma LeaseRunsOut(env: Env, s: State, k: nat, now: nat) returns (s': State)
    requires Reached(env, s) && LoginJob(s, L.InProgress, k, now) && s.jobs[J].heartbeatAt == Some(now)
    ensures Reached(env, s')
    ensures LoginJob(s', if k >= L.MAX_ATTEMPTS then L.FailedPermanent else L.Pending, k, now + 121)
    ensures s'.workers == s.workers
  {
    s' := ReachedNext(env, s, Tick(121));
    s' := ReachedNext(env, s', ReapJobs);
  }

  lemma LogsInLate(env: Env, s: State, a: nat, k: nat, now: nat) returns (s': State)
    requires Reached(env, s) && LoginJob(s, L.FailedPermanent, k, now)
    requires (J, a) in s.workers && s.workers[(J, a)] == Worker(Start, 0, None, None)
    ensures Reached(env, s') && LoginJob(s', L.FailedPermanent, k, now)
    ensures s'.workers == s.workers[(J, a) := Worker(LoginCall, 0, None, None)]
  {
    s' := ReachedNext(env, s, Work(J, a, CredentialsOk));
    s' := ReachedNext(env, s', Work(J, a, BeatLogin));
  }

  lemma FailsToReach(env: Env, s: State, a: nat, k: nat, now: nat) returns (s': State)
    requires Reached(env, s) && LoginJob(s, L.FailedPermanent, k, now)
    requires (J, a) in s.workers && s.workers[(J, a)] == Worker(LoginCall, 0, None, None)
    ensures Reached(env, s') && LoginJob(s', L.FailedPermanent, k, now)
    ensures s'.workers ==
            s.workers[(J, a) := Worker(Finishing(Ending(L.Failure(true), Some(PageNotReached))), 0, Some(UNREACHED),
                None)]
  {
    assert Retryable(PageNotReached);
    s' := ReachedNext(env, s, Work(J, a, LoginAs(UNREACHED)));
  }

  lemma ReportsLate(env: Env, s: State, a: nat, k: nat, now: nat) returns (s': State, w: Worker)
    requires Reached(env, s) && LoginJob(s, L.FailedPermanent, k, now) && a < L.MAX_ATTEMPTS
    requires (J, a) in s.workers && s.workers[(J, a)].i == 0
    requires s.workers[(J, a)].pc == Finishing(Ending(L.Failure(true), Some(PageNotReached)))
    ensures Reached(env, s') && LoginJob(s', L.FailedRetryable, k, now)
    ensures s'.workers == s.workers[(J, a) := w]
  {
    w := NextWorker(env, s, J, a, FinishJob);
    s' := ReachedNext(env, s, Work(J, a, FinishJob));
  }

  /** The worker of a dead lease reports a retryable LoginError, and the job lives again. */
  lemma RevivesLate(env: Env, s: State, a: nat, k: nat, now: nat) returns (s': State, w: Worker)
    requires Reached(env, s) && LoginJob(s, L.FailedPermanent, k, now) && a < L.MAX_ATTEMPTS
    requires (J, a) in s.workers && s.workers[(J, a)] == Worker(LoginCall, 0, None, None)
    ensures Reached(env, s') && LoginJob(s', L.FailedRetryable, k, now)
    ensures s'.workers == s.workers[(J, a) := w]
  {
    s' := FailsToReach(env, s, a, k, now);
    s', w := ReportsLate(env, s', a, k, now);
  }

  lemma FirstLoginJob(env: Env) returns (s: State)
    ensures Reached(env, s) && LoginJob(s, L.Pending, 0, 0)
  {
    ReachedEmpty(env);
    s := ReachedNext(env, EMPTY, CreateManifest(M, LOGIN_PLAN));
    s := ReachedNext(env, s, EnqueueJob(J, M));
  }

  ghost predicate AllWaiting(s: State, lo: nat, hi: nat) {
    forall a: nat :: lo <= a <= hi ==> (J, a) in s.workers && s.workers[(J, a)] == Worker(Start, 0, None, None)
  }

  lemma FiveLeasesDie(env: Env) returns (s: State)
    ensures Reached(env, s) && LoginJob(s, L.FailedPermanent, 5, 605) && AllWaiting(s, 1, 4)
  {
    s := FirstLoginJob(env);
    for k := 0 to 5
      invariant Reached(env, s) && LoginJob(s, if k < 5 then L.Pending else L.FailedPermanent, k, 121 * k)
      invariant AllWaiting(s, 1, k)
    {
      s := LeaseDies(env, s, L.Pending, k, 121 * k);
    }
  }

  lemma LivesOnce(env: Env, s: State, a: nat, k: nat, now: nat) returns (s': State)
    requires Reached(env, s) && LoginJob(s, L.FailedPermanent, k, now) && L.MAX_ATTEMPTS <= k
    requires AllWaiting(s, a, 4) && a <= 4
    ensures Reached(env, s') && LoginJob(s', L.FailedPermanent, k + 1, now + 121) && AllWaiting(s', a + 1, 4)
  {
    s' := LogsInLate(env, s, a, k, now);
    var w: Worker;
    s', w := RevivesLate(env, s', a, k, now);
    s' := LeaseDies(env, s', L.FailedRetryable, k, now);
  }

  /** The bound on claims is reached by a run of the whole system: five leases die, and four of
      their workers revive the parked job one after the other. */
  lemma MostClaimsAreReached(env: Env) returns (s: State)
    ensures Reached(env, s) && J in s.jobs && s.jobs[J].attempts == 2 * L.MAX_ATTEMPTS - 1
  {
    s := FiveLeasesDie(env);
    for a := 1 to 5
      invariant Reached(env, s) && LoginJob(s, L.FailedPermanent, 4 + a, 121 * (4 + a))
      invariant AllWaiting(s, a, 4)
    {
      s := LivesOnce(env, s, a, 4 + a, 121 * (4 + a));
    }
  }
}
