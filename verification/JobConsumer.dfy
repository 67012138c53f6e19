/** The consumer: one claimed job's surfaces run to completion against the tables, the bucket and
    an arbitrary browser, while every other actor of the system goes on moving between its
    statements. Every method shows that what it does is a run of the worker's program inside a
    run of the whole system. */
module JobConsumer {
  import opened Text
  import opened Evidence
  import opened RunManifest
  import opened JobQueue
  import opened PortalSession
  import opened Protocol
  import opened ProtocolSafety
  import opened Reports
  import L = LeaseLedger

  /** Where a run of steps leads, if every step is enabled in turn. */
  ghost function After(env: Env, s: State, steps: seq<Step>): Option<State> {
    if steps == [] then Some(s)
    else
      match After(env, s, steps[..|steps| - 1])
      case None => None
      case Some(t) =>
        if Enabled(env, t, steps[|steps| - 1]) then Some(Next(env, t, steps[|steps| - 1])) else None
  }

  lemma AfterOneMore(env: Env, start: State, steps: seq<Step>, s: State, step: Step)
    requires After(env, start, steps) == Some(s) && Enabled(env, s, step)
    ensures After(env, start, steps + [step]) == Some(Next(env, s, step))
  {
    assert (steps + [step])[..|steps|] == steps;
  }

  /** What the outside world answers while a job runs, by surface index; `others` are the steps
      the rest of the system takes before each statement. */
  datatype World = World(
    stop: nat -> bool,
    scan: nat -> Scan,
    put: nat -> (Artifact -> PutAnswer),
    head: nat -> (string -> Option<Head>),
    credentials: CredentialLookup,
    whitespace: char -> bool,
    seedWorks: string -> bool,
    others: nat -> seq<Step>)

  /** A scan yields an observation (an error is one too), or finds the session lost. */
  datatype Scan = Scanned(obs: Observation, png: Option<Bytes>) | SessionGone

  /** Resolving credentials may raise a LoginError or something uncoded. */
  datatype CredentialLookup = Found(creds: Credentials) | Coded(code: Code) | Uncoded

  datatype Result = Interrupted | Reported(ending: Ending, accepted: bool)

  predicate IsMine(step: Step, job: string, attempt: nat) {
    step.Work? && step.job == job && step.attempt == attempt
  }

  // --- What a move does to the tables and the bucket ---

  function JobsAfter(s: State, j: string, write: Write): Jobs
    requires j in s.jobs
  {
    match write
    case Beat => s.jobs[j := BeatJob(s.jobs[j], s.now)]
    case SetJob(job) => s.jobs[j := job]
    case _ => s.jobs
  }

  function ResultsAfter(s: State, j: string, write: Write): Results {
    match write
    case SetRow(surface, row) => s.results[(j, surface) := row]
    case _ => s.results
  }

  function StoreAfter(env: Env, s: State, write: Write): map<string, Object> {
    match write
    case Upload(tag, content) => s.store[env.key(tag) := content]
    case _ => s.store
  }

  lemma ApplyShows(env: Env, s: State, j: string, a: nat, write: Write, worker: Worker)
    requires j in s.jobs
    ensures var s' := Apply(env, s, j, a, write, worker);
            && s'.jobs == JobsAfter(s, j, write) && s'.results == ResultsAfter(s, j, write)
            && s'.store == StoreAfter(env, s, write) && s'.now == s.now
            && s'.workers == s.workers[(j, a) := worker]
  {
  }

  lemma NextWorkerInRange(env: Env, s: State, j: string, a: nat, m: Move)
    requires Present(s, j, a) && CanMove(env, s, j, a, m)
    ensures AtSurface(NextWorker(env, s, j, a, m).pc) ==> NextWorker(env, s, j, a, m).i < |Surfaces(s, j)|
  {
  }

  lemma SetJobKeepsContent(env: Env, s: State, j: string, a: nat, m: Move)
    requires Present(s, j, a) && CanMove(env, s, j, a, m)
    ensures var write := WriteOf(env, s, j, a, m);
            write.SetJob? ==> write.job.payload == s.jobs[j].payload && write.job.manifest == s.jobs[j].manifest
  {
  }

  /** What the job is about. */
  predicate SameContent(job: Job, job': Job) {
    job'.payload == job.payload && job'.manifest == job.manifest
  }

  /** A move keeps the worker pointing where its program needs it. */
  lemma NextStaysPresent(env: Env, s: State, j: string, a: nat, m: Move)
    requires Present(s, j, a) && CanMove(env, s, j, a, m)
    ensures var s' := Next(env, s, Work(j, a, m));
            Present(s', j, a) && SameContent(s.jobs[j], s'.jobs[j])
  {
    NextWorkerInRange(env, s, j, a, m);
    SetJobKeepsContent(env, s, j, a, m);
    ApplyShows(env, s, j, a, WriteOf(env, s, j, a, m), NextWorker(env, s, j, a, m));
  }

  /** Another actor's step leaves the worker and what it executes alone. */
  lemma OthersLeaveWorker(env: Env, s: State, step: Step, j: string, a: nat)
    requires GoodEnv(env) && Reached(env, s) && Enabled(env, s, step) && !IsMine(step, j, a) && Present(s, j, a)
    ensures var s' := Next(env, s, step);
            Present(s', j, a) && s'.workers[(j, a)] == s.workers[(j, a)] && SameContent(s.jobs[j], s'.jobs[j])
  {
    ReachedInv(env, s);
    StepExtends(env, s, step);
    if step.Work? {
      var k, b, m := step.job, step.attempt, step.move;
      ApplyShows(env, s, k, b, WriteOf(env, s, k, b, m), NextWorker(env, s, k, b, m));
    } else {
      EnvironmentLeavesWorker(env, s, step, j, a);
    }
  }

  lemma ReachedInv(env: Env, s: State)
    requires GoodEnv(env) && Reached(env, s)
    ensures Inv(env, s)
  {
    var ss, steps :| Execution(env, ss, steps) && ss[|steps|] == s;
    InvThroughout(env, ss, steps, |steps|);
  }

  lemma EnvironmentLeavesWorker(env: Env, s: State, step: Step, j: string, a: nat)
    requires Roster(s) && Enabled(env, s, step) && !step.Work? && (j, a) in s.workers
    ensures var s' := Next(env, s, step); (j, a) in s'.workers && s'.workers[(j, a)] == s.workers[(j, a)]
  {
  }

  /** The CHECK constraints hold of a reachable state's tables. */
  lemma TablesAreValid(env: Env, s: State, tables: InspectionTables)
    requires GoodEnv(env) && Reached(env, s) && tables.jobs == s.jobs && tables.results == s.results
    ensures tables.Valid()
  {
    ReachedInv(env, s);
    forall id | id in s.jobs
      ensures TimingOk(s.jobs[id])
    {
      assert JobOk(s, id);
    }
    forall id | id in s.results
      ensures ReferencedOk(s.results[id])
    {
      assert RowOk(env, s, id.0, id.1);
    }
  }

  function RecordOf(env: Env, s: State, j: string, a: nat, png: Bytes, obs: Observation): Record
    requires Present(s, j, a) && AtSurface(s.workers[(j, a)].pc)
  {
    Record(MetaOf(env.digests, ObjectKey(env, s, j, a, Screenshot), png, Screenshot),
           MetaOf(env.digests, ObjectKey(env, s, j, a, ObservationJson), env.json(obs), ObservationJson))
  }

  class Consumer {
    const env: Env
    const world: World
    const tables: InspectionTables
    const bucket: Bucket
    const job: string
    const attempt: nat
    const manifest: string
    const surfaces: seq<Surface>
    const authenticated: bool
    ghost const start: State
    // The whole system, which the other actors move; the tables and the bucket are parts of it.
    var s: State
    var turn: nat
    ghost var steps: seq<Step>

    constructor (env: Env, world: World, tables: InspectionTables, bucket: Bucket, job: string, attempt: nat, s: State)
      requires GoodEnv(env) && Reached(env, s)
      requires s.jobs == tables.jobs && s.results == tables.results && s.store == bucket.objects
      requires job in s.jobs && (job, attempt) in s.workers
      requires s.workers[(job, attempt)] == Worker(Start, 0, None, None)
      ensures Valid() && this.s == s && start == s && steps == [] && At(Start, 0)
      ensures this.tables == tables && this.bucket == bucket && this.env == env
      ensures this.job == job && this.attempt == attempt
    {
      this.env, this.world, this.tables, this.bucket := env, world, tables, bucket;
      this.job, this.attempt := job, attempt;
      this.manifest, this.surfaces := tables.jobs[job].manifest, tables.jobs[job].payload.surfaces;
      this.authenticated := tables.jobs[job].payload.auth.Some?;
      this.start, this.s, this.turn, this.steps := s, s, 0, [];
    }

    /** The system state is reachable, by the recorded steps, and this worker is part of it. */
    ghost predicate Core()
      reads this
    {
      && GoodEnv(env) && Reached(env, s) && Present(s, job, attempt)
      && s.jobs[job].manifest == manifest && s.jobs[job].payload.surfaces == surfaces
      && (s.jobs[job].payload.auth.Some? <==> authenticated)
      && After(env, start, steps) == Some(s)
    }

    /** ... and the tables and the bucket hold what it says. */
    ghost predicate Valid()
      reads this, tables, bucket
    {
      Core() && s.jobs == tables.jobs && s.results == tables.results && s.store == bucket.objects
    }

    ghost predicate At(pc: Pc, i: nat)
      reads this
    {
      (job, attempt) in s.workers && s.workers[(job, attempt)].pc == pc && s.workers[(job, attempt)].i == i
    }

    /** The system takes one move of this worker. */
    method Advance(m: Move)
      requires Core() && CanMove(env, s, job, attempt, m)
      modifies this`s, this`steps
      ensures Core() && s.now == old(s.now)
      ensures var write := WriteOf(env, old(s), job, attempt, m);
              && s.jobs == JobsAfter(old(s), job, write) && s.results == ResultsAfter(old(s), job, write)
              && s.store == StoreAfter(env, old(s), write)
      ensures s.workers == old(s.workers)[(job, attempt) := NextWorker(env, old(s), job, attempt, m)]
    {
      ApplyShows(env, s, job, attempt, WriteOf(env, s, job, attempt, m), NextWorker(env, s, job, attempt, m));
      NextStaysPresent(env, s, job, attempt, m);
      var _ := ReachedNext(env, s, Work(job, attempt, m));
      AfterOneMore(env, start, steps, s, Work(job, attempt, m));
      s, steps := Next(env, s, Work(job, attempt, m)), steps + [Work(job, attempt, m)];
    }

    /** A move that writes nothing. */
    method AdvanceQuietly(m: Move)
      requires Valid() && CanMove(env, s, job, attempt, m)
      requires WriteOf(env, s, job, attempt, m).NoWrite? || WriteOf(env, s, job, attempt, m).Accept?
      modifies this`s, this`steps
      ensures Valid() && s.workers == old(s.workers)[(job, attempt) := NextWorker(env, old(s), job, attempt, m)]
    {
      Advance(m);
    }

    // --- Everybody else ---

    /** A step of another worker, of the reaper, of a claim, of another tenant. */
    method TakeOthers(step: Step)
      requires Valid() && Enabled(env, s, step) && !IsMine(step, job, attempt)
      modifies this`s, this`steps, tables, bucket
      ensures Valid() && s == Next(env, old(s), step)
      ensures s.workers[(job, attempt)] == old(s.workers)[(job, attempt)]
    {
      OthersLeaveWorker(env, s, step, job, attempt);
      var _ := ReachedNext(env, s, step);
      AfterOneMore(env, start, steps, s, step);
      s, steps := Next(env, s, step), steps + [step];
      tables.jobs, tables.results, bucket.objects := s.jobs, s.results, s.store;
    }

    /** What happens before this worker's next statement takes effect. */
    method Others()
      requires Valid()
      modifies this`s, this`steps, this`turn, tables, bucket
      ensures Valid() && s.workers[(job, attempt)] == old(s.workers)[(job, attempt)]
    {
      var plan := world.others(turn);
      turn := turn + 1;
      for k := 0 to |plan|
        invariant Valid() && s.workers[(job, attempt)] == old(s.workers)[(job, attempt)]
      {
        if !IsMine(plan[k], job, attempt) && Enabled(env, s, plan[k]) {
          TakeOthers(plan[k]);
        }
      }
    }

    // --- The worker's statements ---

    method Heartbeat(login: bool, ghost i: nat)
      requires Valid() && At(if login then LoginBeat else Top, i) && (!login ==> i < |surfaces|)
      modifies this`s, this`steps, this`turn, tables, bucket
      ensures Valid() && At(if login then LoginCall else Scanning, i)
    {
      Others();
      TablesAreValid(env, s, tables);
      tables.Heartbeat(job, s.now);
      Advance(if login then BeatLogin else BeatSurface);
    }

    /** One PUT, as the system sees it. */
    method AdvancePut(m: Move)
      requires Core() && CanMove(env, s, job, attempt, m) && (m.PutShotOk? || m.PutObsOk? || m.PutFails?)
      modifies this`s, this`steps
      ensures Core() && s.jobs == old(s.jobs) && s.results == old(s.results) && s.now == old(s.now)
      ensures s.store == StoreAfter(env, old(s), WriteOf(env, old(s), job, attempt, m))
      ensures s.workers == old(s.workers)[(job, attempt) := NextWorker(env, old(s), job, attempt, m)]
    {
      Advance(m);
    }

    /** The first PUT. */
    method AdvanceShot(i: nat, png: Bytes, obs: Observation)
      requires Core() && i < |surfaces| && At(PuttingShot(png, obs), i) && KeysScoped(env, s, job, attempt)
      modifies this`s, this`steps
      ensures Core() && s.jobs == old(s.jobs) && s.results == old(s.results) && At(PuttingObs(png, obs), i)
      ensures s.store == old(s.store)[ObjectKey(env, old(s), job, attempt, Screenshot) :=
                                        ObjectOf(env.digests, png, Screenshot)]
    {
      AdvancePut(PutShotOk);
    }

    /** The second PUT. */
    method AdvanceObservation(i: nat, png: Bytes, obs: Observation, answer: PutAnswer) returns (rec: Option<Record>)
      requires Core() && i < |surfaces| && At(PuttingObs(png, obs), i)
      modifies this`s, this`steps
      ensures Core() && s.jobs == old(s.jobs) && s.results == old(s.results)
      ensures s.store == if Stores(answer)
                         then old(s.store)[ObjectKey(env, old(s), job, attempt, ObservationJson) :=
                                             ObjectOf(env.digests, env.json(obs), ObservationJson)]
                         else old(s.store)
      ensures rec.Some? <==> answer.Acknowledged?
      ensures rec.Some? ==> rec.value == RecordOf(env, old(s), job, attempt, png, obs)
      ensures At(Writing(obs, rec, if rec.Some? then "" else "CAPTURED"), i)
    {
      if answer.Acknowledged? {
        rec := Some(RecordOf(env, s, job, attempt, png, obs));
        AdvancePut(PutObsOk);
      } else {
        rec := None;
        AdvancePut(PutFails(answer.stored));
      }
    }

    /** CAPTURED -> UPLOADED: the sink's upload, never raising into the batch. The other actors
        move before each of its two PUTs. */
    method Upload(i: nat, png: Bytes, obs: Observation) returns (rec: Option<Record>)
      requires Valid() && i < |surfaces| && At(PuttingShot(png, obs), i)
      modifies this`s, this`steps, this`turn, tables, bucket
      ensures Valid() && At(Writing(obs, rec, if rec.Some? then "" else "CAPTURED"), i)
    {
      Others();
      var shotKey, obsKey := ObjectKey(env, s, job, attempt, Screenshot),
          ObjectKey(env, s, job, attempt, ObservationJson);
      var ok := UploadScreenshot(i, png, obs, shotKey, obsKey);
      if !ok {
        return None;
      }
      rec := UploadObservation(i, png, obs, shotKey, obsKey);
    }

    method UploadScreenshot(i: nat, png: Bytes, obs: Observation, shotKey: string, obsKey: string) returns (ok: bool)
      requires Valid() && i < |surfaces| && At(PuttingShot(png, obs), i)
      requires shotKey == ObjectKey(env, s, job, attempt, Screenshot)
      requires obsKey == ObjectKey(env, s, job, attempt, ObservationJson)
      modifies this`s, this`steps, bucket
      ensures Valid() && At(if ok then PuttingObs(png, obs) else Writing(obs, None, "CAPTURED"), i)
      ensures ok ==> shotKey == ObjectKey(env, s, job, attempt, Screenshot)
      ensures ok ==> obsKey == ObjectKey(env, s, job, attempt, ObservationJson)
    {
      var scoped, answer := KeysScoped(env, s, job, attempt), world.put(i)(Screenshot);
      ok := bucket.PutScreenshot(env.digests, env.tenant, shotKey, obsKey, png, answer);
      if ok {
        AdvanceShot(i, png, obs);
      } else {
        AdvancePut(PutFails(scoped && Stores(answer)));
      }
    }

    /** The second PUT, whenever it arrives. */
    method UploadObservation(i: nat, png: Bytes, obs: Observation, shotKey: string, obsKey: string)
      returns (rec: Option<Record>)
      requires Valid() && i < |surfaces| && At(PuttingObs(png, obs), i)
      requires shotKey == ObjectKey(env, s, job, attempt, Screenshot)
      requires obsKey == ObjectKey(env, s, job, attempt, ObservationJson)
      modifies this`s, this`steps, this`turn, tables, bucket
      ensures Valid() && At(Writing(obs, rec, if rec.Some? then "" else "CAPTURED"), i)
    {
      Others();
      var answer := world.put(i)(ObservationJson);
      rec := bucket.PutObservation(env.digests, shotKey, obsKey, png, env.json(obs), answer);
      ghost var seen := AdvanceObservation(i, png, obs, answer);
    }

    /** The UPSERT that records the observation and the custody reached so far. */
    method FinalizeSurface(i: nat, obs: Observation, rec: Option<Record>, reached: string)
      requires Valid() && i < |surfaces| && At(Writing(obs, rec, reached), i)
      modifies this`s, this`steps, this`turn, tables, bucket
      ensures Valid() && (if rec.Some? then At(Checking(rec.value), i) else At(Top, i + 1))
      ensures (job, surfaces[i].key) in s.results
      ensures s.results[(job, surfaces[i].key)] == UpsertedRow(attempt, obs, CustodyOf(rec, reached))
    {
      Others();
      TablesAreValid(env, s, tables);
      var refused := tables.FinalizeSurface(job, surfaces[i].key, attempt, obs, Some(CustodyOf(rec, reached)));
      Advance(WriteRow);
    }

    /** UPLOADED -> VERIFIED -> REFERENCED, or the honest incomplete. The statements are keyed by
        job and surface, so they meet whatever row is there when they arrive: `met` is that state. */
    method VerifyAndReference(i: nat, rec: Record) returns (state: EvidenceState, ghost met: State)
      requires Valid() && i < |surfaces| && At(Checking(rec), i)
      modifies this`s, this`steps, this`turn, tables, bucket
      ensures Valid() && At(Top, i + 1)
      ensures state == if AcceptsRecord(rec, world.head(i)) then Referenced else Incomplete
      ensures s.results == Settled(met, (job, surfaces[i].key), state == Referenced)
    {
      var ok, _ := VerifyEvidence(rec, world.head(i));
      AdvanceQuietly(CheckHeads(world.head(i)));
      met := Settle(i, rec, ok);
      state := if ok then Referenced else Incomplete;
    }

    method Settle(i: nat, rec: Record, ok: bool) returns (ghost met: State)
      requires Valid() && i < |surfaces| && At(Recording(rec, ok), i)
      modifies this`s, this`steps, this`turn, tables, bucket
      ensures Valid() && At(Top, i + 1) && s.results == Settled(met, (job, surfaces[i].key), ok)
    {
      Others();
      met := s;
      SettleRow(surfaces[i].key, ok);
      Advance(RecordCustody);
    }

    /** The statement that settles the row's custody. */
    method SettleRow(surface: string, ok: bool)
      requires Valid()
      modifies tables
      ensures Core() && tables.jobs == s.jobs && tables.results == Settled(s, (job, surface), ok)
    {
      TablesAreValid(env, s, tables);
      if ok {
        UploadedHasKeys(env, s, job, surface);
        var refused := tables.MarkEvidenceReferenced(job, surface, s.now);
      } else {
        tables.SetEvidenceIncomplete(job, surface, "UPLOADED");
      }
    }

    /** Where a scan leaves the worker. */
    function AfterScan(obs: Observation, png: Option<Bytes>): Pc {
      if obs.ok && png.Some? then PuttingShot(png.value, obs) else Writing(obs, None, "NONE")
    }

    method ScanSurface(i: nat) returns (lost: bool, obs: Observation, png: Option<Bytes>)
      requires Valid() && i < |surfaces| && At(Top, i)
      modifies this`s, this`steps, this`turn, tables, bucket
      ensures Valid() && (lost <==> world.scan(i).SessionGone? && authenticated)
      ensures At(if lost then FailLogin(SessionLost) else AfterScan(obs, png), i)
    {
      Heartbeat(false, i);
      lost := world.scan(i).SessionGone? && authenticated;
      obs := if world.scan(i).Scanned? then world.scan(i).obs else Observation(false, "ERROR");
      png := if world.scan(i).Scanned? then world.scan(i).png else None;
      AdvanceQuietly(if lost then ScanLost else ScanDone(obs, png));
    }

    /** Upload before the row, verify after it. */
    method RecordSurface(i: nat, obs: Observation, png: Option<Bytes>)
      requires Valid() && i < |surfaces| && At(AfterScan(obs, png), i)
      modifies this`s, this`steps, this`turn, tables, bucket
      ensures Valid() && At(Top, i + 1)
    {
      var rec: Option<Record> := None;
      if obs.ok && png.Some? {
        rec := Upload(i, png.value, obs);
        FinalizeSurface(i, obs, rec, if rec.Some? then "" else "CAPTURED");
      } else {
        FinalizeSurface(i, obs, None, "NONE");
      }
      if rec.Some? {
        var _, _ := VerifyAndReference(i, rec.value);
      }
    }

    /** What the loop needs of surface `k` to get past it. */
    predicate Passes(k: nat) {
      (k > 0 ==> !world.stop(k)) && !(authenticated && world.scan(k).SessionGone?)
    }

    ghost predicate Ends(r: Run)
      reads this
    {
      match r
      case AllDone => At(Top, |surfaces|)
      case Stopped(k) => At(Gone, k) && 0 < k < |surfaces| && world.stop(k)
      case Lost(k) =>
        At(FailLogin(SessionLost), k) && k < |surfaces| && authenticated && world.scan(k).SessionGone?
    }

    /** One turn of the loop; AllDone means it goes on to the next surface. */
    method RunSurface(i: nat) returns (r: Run)
      requires Valid() && i < |surfaces| && At(Top, i)
      modifies this`s, this`steps, this`turn, tables, bucket
      ensures Valid()
      ensures if r.AllDone? then At(Top, i + 1) && Passes(i) else Ends(r) && r.at == i
    {
      if i > 0 && world.stop(i) {
        AdvanceQuietly(Stop);
        return Stopped(i);
      }
      var lost, obs, png := ScanSurface(i);
      if lost {
        return Lost(i);
      }
      RecordSurface(i, obs, png);
      return AllDone;
    }

    /** Every surface in turn. It stops early when a SIGTERM arrived after a finished
        surface (the job stays leased for the reaper) or when the session is lost. A
        surface-level failure is recorded and does not stop the batch. */
    method RunSurfaces() returns (r: Run)
      requires Valid() && At(Top, 0)
      modifies this`s, this`steps, this`turn, tables, bucket
      ensures Valid() && Ends(r)
      ensures forall k: nat :: k < r.Upto(|surfaces|) ==> Passes(k)
    {
      for i := 0 to |surfaces|
        invariant Valid() && At(Top, i)
        invariant forall k: nat :: k < i ==> Passes(k)
      {
        r := RunSurface(i);
        if !r.AllDone? {
          return;
        }
      }
      return AllDone;
    }

    /** mark_succeeded or mark_failed, on whatever the job is by then. A refusal by the CHECK ends
        the worker too. */
    method Report(ending: Ending, ghost i: nat) returns (accepted: bool, ghost met: State)
      requires Valid() && At(Finishing(ending), i)
      modifies this`s, this`steps, this`turn, tables, bucket
      ensures Valid() && At(Gone, i) && job in met.jobs
      ensures accepted <==> met.jobs[job].status != L.Pending
      ensures s.jobs == if accepted
                        then met.jobs[job := FinishedJob(met.jobs[job], L.Classify(ending.outcome, attempt), met.now)]
                        else met.jobs
    {
      Others();
      met := s;
      TablesAreValid(env, s, tables);
      FinishRefusedExactlyWhenPending(s.jobs[job], "", ending.outcome, attempt, s.now);
      var status, refused := tables.MarkFinished(job, ending.outcome, attempt, s.now);
      accepted := !refused;
      Advance(FinishJob);
    }

    /** Resolve the credentials and log in once, with one heartbeat in between. */
    method OpenSession(page: LoginPage) returns (r: Session)
      requires Valid() && At(Start, 0) && authenticated && surfaces != []
      requires page.actions == [] && page.seen == []
      requires world.credentials.Coded? ==>
                 world.credentials.code in {
                   CredentialNotConfigured, PersonaNotFound, PersonaInactive, DevAuthModeRefused}
      modifies this`s, this`steps, this`turn, tables, bucket, page
      ensures Valid()
      ensures r.Opened? ==> At(Top, 0) && world.credentials.Found?
      ensures r.Declined? ==> At(FailLogin(r.code), 0)
      ensures r.Broken? <==> world.credentials.Uncoded?
      ensures r.Broken? ==> At(Finishing(Ending(L.Failure(false), None)), 0)
    {
      match world.credentials
      case Uncoded =>
        AdvanceQuietly(Raise);
        return Broken;
      case Coded(code) =>
        AdvanceQuietly(CredentialsFail(code));
        return Declined(code);
      case Found(creds) =>
        AdvanceQuietly(CredentialsOk);
        r := LogIn(creds, page);
    }

    method LogIn(creds: Credentials, page: LoginPage) returns (r: Session)
      requires Valid() && At(LoginBeat, 0) && page.actions == [] && page.seen == []
      modifies this`s, this`steps, this`turn, tables, bucket, page
      ensures Valid() && !r.Broken?
      ensures r.Opened? ==> At(Top, 0)
      ensures r.Declined? ==> At(FailLogin(r.code), 0)
    {
      Heartbeat(true, 0);
      var run := page.Login(creds, world.whitespace, world.seedWorks);
      AdvanceQuietly(LoginAs(run));
      return if run.raised.Some? then Declined(run.raised.value) else Opened;
    }

    /** The ending an opened session's batch leads to; None when it was interrupted. */
    method RunBatch() returns (ending: Option<Ending>, ghost i: nat)
      requires Valid() && At(Top, 0)
      modifies this`s, this`steps, this`turn, tables, bucket
      ensures Valid()
      ensures ending.None? ==> At(Gone, i) && 0 < i < |surfaces| && world.stop(i)
      ensures ending.Some? ==> At(Finishing(ending.value), i)
      ensures ending.Some? && ending.value.outcome.Success? ==>
                ending.value.code.None? && forall k: nat :: 0 < k < |surfaces| ==> Passes(k)
      ensures ending.Some? && !ending.value.outcome.Success? ==> ending.value == SESSION_LOST_ENDING && authenticated
    {
      var run := RunSurfaces();
      match run {
        case Stopped(k) =>
          ending, i := None, k;
        case Lost(k) =>
          ending, i := Some(SESSION_LOST_ENDING), k;
        case AllDone =>
          AdvanceQuietly(Complete);
          ending, i := Some(Ending(L.Success, None)), |surfaces|;
      }
    }

    /** Runs the claimed job to an end: interrupted and left leased, or reported once. The recorded
        steps are a run of the whole system in which this worker's own are its program's. */
    method ConsumeJob(page: LoginPage) returns (result: Result)
      requires Valid() && At(Start, 0) && page.actions == [] && page.seen == []
      requires world.credentials.Coded? ==>
                 world.credentials.code in {
                   CredentialNotConfigured, PersonaNotFound, PersonaInactive, DevAuthModeRefused}
      modifies this`s, this`steps, this`turn, tables, bucket, page
      ensures Valid() && After(env, start, steps) == Some(s) && exists i :: At(Gone, i)
      ensures result.Reported? && result.ending.outcome.Success? ==>
                forall k: nat :: 0 < k < |surfaces| ==> Passes(k)
      ensures result.Reported? && result.ending.code.Some? ==>
                authenticated && result.ending.outcome == L.Failure(Retryable(result.ending.code.value))
      ensures result.Reported? && result.accepted ==>
                job in s.jobs && ReportShows(result.ending, attempt, s.jobs[job].status)
      ensures result.Interrupted? ==> exists k: nat :: 0 < k < |surfaces| && world.stop(k)
    {
      var ending := None;
      ghost var i := 0;
      var session := Opened;
      if authenticated && surfaces != [] {
        session := OpenSession(page);
      } else {
        AdvanceQuietly(BeginGuest);
      }
      match session {
        case Broken =>
          ending := Some(Ending(L.Failure(false), None));
        case Declined(code) =>
          ending := Some(Ending(L.Failure(Retryable(code)), Some(code)));
        case Opened =>
          ending, i := RunBatch();
      }
      if ending.None? {
        return Interrupted;
      }
      ClassifiedAsReported(ending.value, attempt);
      var accepted, _ := Report(ending.value, i);
      return Reported(ending.value, accepted);
    }
  }

  /** The rows after a worker settled custody on whatever row it met. */
  function Settled(met: State, id: (string, string), ok: bool): Results {
    if id !in met.results then met.results
    else met.results[id := if ok then ReferencedRow(met.results[id], met.now)
                           else IncompleteRow(met.results[id], "UPLOADED")]
  }

  lemma UploadedHasKeys(env: Env, s: State, j: string, surface: string)
    requires GoodEnv(env) && Reached(env, s)
    ensures (j, surface) in s.results && s.results[(j, surface)].state == Uploaded ==>
              s.results[(j, surface)].rec.Some?
  {
    ReachedInv(env, s);
    assert (j, surface) in s.results ==> RowOk(env, s, j, surface);
  }

  const SESSION_LOST_ENDING := Ending(L.Failure(Retryable(SessionLost)), Some(SessionLost))

  datatype Session = Opened | Declined(code: Code) | Broken

  /** How the loop over the surfaces ended; `Lost` and `Stopped` say at which surface. */
  datatype Run = AllDone | Stopped(at: nat) | Lost(at: nat) {
    function Upto(n: nat): nat {
      if AllDone? then n else at
    }
  }
}
