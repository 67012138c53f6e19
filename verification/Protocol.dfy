/** The UI inspection job protocol as a transition system: any number of workers, each
    running the consumer's program one committed statement at a time, interleaved with
    the reaper, with new manifests and jobs, with other tenants' uploads and with crashes.

    A worker is one execution of one claim, named by its job and the attempt number the
    claim handed it. Its finishing and result writes are keyed by the job id only, so a
    worker whose lease was reaped long ago still moves. */
module Protocol {
  import opened Text
  import opened Evidence
  import opened RunManifest
  import opened JobQueue
  import opened PortalSession
  import L = LeaseLedger

  /** What the deployment fixes: the tenant, the key scheme, the digests, the JSON encoding. */
  datatype Env = Env(tenant: string, key: KeyTag -> string, digests: Digests, json: Observation -> Bytes)

  /** How an execution ends: the outcome it reports and, for a LoginError, its code. */
  datatype Ending = Ending(outcome: L.Outcome, code: Option<Code>)

  /** Where a worker stands in the consumer's program. */
  datatype Pc =
    | Start
    | LoginBeat
    | LoginCall
    | Top
    | Scanning
    | PuttingShot(png: Bytes, obs: Observation)
    | PuttingObs(png: Bytes, obs: Observation)
    | Writing(obs: Observation, upload: Option<Record>, reached: string)
    | Checking(rec: Record)
    | Recording(rec: Record, ok: bool)
    | Finishing(ending: Ending)
    | Gone

  /** `i` counts the surfaces done; `ended` is the finishing write the database accepted. */
  datatype Worker = Worker(pc: Pc, i: nat, login: Option<LoginRun>, ended: Option<Ending>)

  type WorkerId = (string, nat)

  /** The last three fields are history: accepted finishes per job, records verification
      accepted, and which upload put each object of this tenant. */
  datatype State = State(
    now: nat,
    manifests: map<string, Manifest>,
    jobs: Jobs,
    results: Results,
    store: map<string, Object>,
    workers: map<WorkerId, Worker>,
    finishes: map<string, nat>,
    verified: set<Record>,
    puts: map<string, KeyTag>)

  const EMPTY := State(0, map[], map[], map[], map[], map[], map[], {}, map[])

  datatype Move =
    | BeginGuest
    | CredentialsFail(code: Code)
    | CredentialsOk
    | BeatLogin
    | LoginAs(run: LoginRun)
    | Stop
    | BeatSurface
    | Complete
    | ScanDone(obs: Observation, png: Option<Bytes>)
    | ScanLost
    | PutShotOk
    | PutObsOk
    | PutFails(stored: bool)
    | WriteRow
    | CheckHeads(head: string -> Option<Head>)
    | RecordCustody
    | FinishJob
    | Raise
    | Crash

  datatype Step =
    | CreateManifest(id: string, manifest: Manifest)
    | EnqueueJob(id: string, manifestId: string)
    | Tick(seconds: nat)
    | ClaimJob(id: string, who: string)
    | ReapJobs
    | Work(job: string, attempt: nat, move: Move)
    | ForeignPut(key: string, content: Object)

  // --- The worker's program ---

  function Surfaces(s: State, j: string): seq<Surface>
    requires j in s.jobs
  {
    s.jobs[j].payload.surfaces
  }

  function TagOf(s: State, j: string, a: nat, surface: string, artifact: Artifact): KeyTag
    requires j in s.jobs
  {
    KeyTag(s.jobs[j].manifest, j, surface, a, artifact)
  }

  predicate AtSurface(pc: Pc) {
    pc.Scanning? || pc.PuttingShot? || pc.PuttingObs? || pc.Writing? || pc.Checking? || pc.Recording?
  }

  /** The worker exists, and points at a surface where its program needs one. */
  predicate Present(s: State, j: string, a: nat) {
    && j in s.jobs && (j, a) in s.workers
    && (AtSurface(s.workers[(j, a)].pc) ==> s.workers[(j, a)].i < |Surfaces(s, j)|)
  }

  function CurrentKey(s: State, j: string, a: nat): string
    requires Present(s, j, a) && AtSurface(s.workers[(j, a)].pc)
  {
    Surfaces(s, j)[s.workers[(j, a)].i].key
  }

  function ObjectKey(env: Env, s: State, j: string, a: nat, artifact: Artifact): string
    requires Present(s, j, a) && AtSurface(s.workers[(j, a)].pc)
  {
    env.key(TagOf(s, j, a, CurrentKey(s, j, a), artifact))
  }

  /** The tenant guard lets both keys of the upload through. */
  predicate KeysScoped(env: Env, s: State, j: string, a: nat)
    requires Present(s, j, a) && AtSurface(s.workers[(j, a)].pc)
  {
    && TenantScoped(env.tenant, ObjectKey(env, s, j, a, Screenshot))
    && TenantScoped(env.tenant, ObjectKey(env, s, j, a, ObservationJson))
  }

  predicate CanMove(env: Env, s: State, j: string, a: nat, m: Move)
    requires Present(s, j, a)
  {
    var w := s.workers[(j, a)];
    var auth := s.jobs[j].payload.auth;
    var n := |Surfaces(s, j)|;
    match m
    case BeginGuest => w.pc.Start? && (auth.None? || n == 0)
    case CredentialsFail(code) =>
      w.pc.Start? && auth.Some? && n > 0 &&
      code in {CredentialNotConfigured, PersonaNotFound, PersonaInactive, DevAuthModeRefused}
    case CredentialsOk => w.pc.Start? && auth.Some? && n > 0
    case BeatLogin => w.pc.LoginBeat?
    case LoginAs(run) => w.pc.LoginCall? && LoginContract(run)
    case Stop => w.pc.Top? && 0 < w.i < n
    case BeatSurface => w.pc.Top? && w.i < n
    case Complete => w.pc.Top? && w.i == n
    case ScanDone(_, _) => w.pc.Scanning?
    case ScanLost => w.pc.Scanning? && auth.Some?
    case PutShotOk => w.pc.PuttingShot? && KeysScoped(env, s, j, a)
    case PutObsOk => w.pc.PuttingObs?
    case PutFails(stored) => (w.pc.PuttingShot? && (stored ==> KeysScoped(env, s, j, a))) || w.pc.PuttingObs?
    case WriteRow => w.pc.Writing?
    case CheckHeads(_) => w.pc.Checking?
    case RecordCustody => w.pc.Recording?
    case FinishJob => w.pc.Finishing?
    case Raise => !w.pc.Gone? && !w.pc.Finishing?
    case Crash => !w.pc.Gone?
  }

  function FailLogin(code: Code): Pc {
    Finishing(Ending(L.Failure(Retryable(code)), Some(code)))
  }

  /** Where the program goes next; its effect on the tables is `WriteOf`. */
  function NextWorker(env: Env, s: State, j: string, a: nat, m: Move): Worker
    requires Present(s, j, a) && CanMove(env, s, j, a, m)
  {
    var w := s.workers[(j, a)];
    match m
    case BeginGuest => w.(pc := Top)
    case CredentialsFail(code) => w.(pc := FailLogin(code))
    case CredentialsOk => w.(pc := LoginBeat)
    case BeatLogin => w.(pc := LoginCall)
    case LoginAs(run) =>
      w.(login := Some(run), pc := if run.raised.Some? then FailLogin(run.raised.value) else Top)
    case Stop => w.(pc := Gone)
    case BeatSurface => w.(pc := Scanning)
    case Complete => w.(pc := Finishing(Ending(L.Success, None)))
    case ScanDone(obs, png) =>
      if obs.ok && png.Some? then w.(pc := PuttingShot(png.value, obs)) else w.(pc := Writing(obs, None, "NONE"))
    case ScanLost => w.(pc := FailLogin(SessionLost))
    case PutShotOk => w.(pc := PuttingObs(w.pc.png, w.pc.obs))
    case PutObsOk =>
      w.(pc := Writing(w.pc.obs, Some(UploadedRecord(env, s, j, a)), ""))
    case PutFails(_) => w.(pc := Writing(w.pc.obs, None, "CAPTURED"))
    case WriteRow => if w.pc.upload.Some? then w.(pc := Checking(w.pc.upload.value)) else w.(pc := Top, i := w.i + 1)
    case CheckHeads(head) => w.(pc := Recording(w.pc.rec, AcceptsRecord(w.pc.rec, head)))
    case RecordCustody => w.(pc := Top, i := w.i + 1)
    case FinishJob => w.(pc := Gone, ended := if FinishAccepted(s, j, a) then Some(w.pc.ending) else None)
    case Raise => w.(pc := Finishing(Ending(L.Failure(false), None)))
    case Crash => w.(pc := Gone)
  }

  predicate AcceptsRecord(rec: Record, head: string -> Option<Head>) {
    Accepts(rec.shot, head(rec.shot.key)) && Accepts(rec.obs, head(rec.obs.key))
  }

  function UploadedRecord(env: Env, s: State, j: string, a: nat): Record
    requires Present(s, j, a) && s.workers[(j, a)].pc.PuttingObs?
  {
    var pc := s.workers[(j, a)].pc;
    Record(MetaOf(env.digests, ObjectKey(env, s, j, a, Screenshot), pc.png, Screenshot),
           MetaOf(env.digests, ObjectKey(env, s, j, a, ObservationJson), env.json(pc.obs), ObservationJson))
  }

  /** A finishing write is refused when it would break the timing CHECK. */
  predicate FinishAccepted(s: State, j: string, a: nat)
    requires Present(s, j, a) && s.workers[(j, a)].pc.Finishing?
  {
    TimingOk(FinishedJob(s.jobs[j], L.Classify(s.workers[(j, a)].pc.ending.outcome, a), s.now))
  }

  function CustodyOf(rec: Option<Record>, reached: string): Custody {
    if rec.Some? then Custody(Uploaded, rec, None) else Custody(Incomplete, None, Some(reached))
  }

  /** The one committed effect a move has outside the worker. */
  datatype Write =
    | NoWrite
    | Beat
    | Upload(tag: KeyTag, content: Object)
    | SetRow(surface: string, row: Row)
    | Accept(rec: Record)
    | SetJob(job: Job)

  /** The PUT a worker is at. */
  function PendingUpload(env: Env, s: State, j: string, a: nat): Write
    requires Present(s, j, a) && (s.workers[(j, a)].pc.PuttingShot? || s.workers[(j, a)].pc.PuttingObs?)
  {
    var pc := s.workers[(j, a)].pc;
    if pc.PuttingShot? then
      Upload(TagOf(s, j, a, CurrentKey(s, j, a), Screenshot), ObjectOf(env.digests, pc.png, Screenshot))
    else
      Upload(TagOf(s, j, a, CurrentKey(s, j, a), ObservationJson),
             ObjectOf(env.digests, env.json(pc.obs), ObservationJson))
  }

  /** A PUT that raises may have stored its object all the same. */
  function WriteOf(env: Env, s: State, j: string, a: nat, m: Move): Write
    requires Present(s, j, a) && CanMove(env, s, j, a, m)
  {
    var pc := s.workers[(j, a)].pc;
    match m
    case BeatLogin => Beat
    case BeatSurface => Beat
    case PutShotOk => PendingUpload(env, s, j, a)
    case PutObsOk => PendingUpload(env, s, j, a)
    case PutFails(stored) => if stored then PendingUpload(env, s, j, a) else NoWrite
    case WriteRow => SetRow(CurrentKey(s, j, a), UpsertedRow(a, pc.obs, CustodyOf(pc.upload, pc.reached)))
    case CheckHeads(head) => if AcceptsRecord(pc.rec, head) then Accept(pc.rec) else NoWrite
    case RecordCustody =>
      var id := (j, CurrentKey(s, j, a));
      if id !in s.results then NoWrite
      else SetRow(id.1, if pc.ok then ReferencedRow(s.results[id], s.now) else IncompleteRow(s.results[id], "UPLOADED"))
    case FinishJob =>
      if FinishAccepted(s, j, a) then SetJob(FinishedJob(s.jobs[j], L.Classify(pc.ending.outcome, a), s.now))
          else NoWrite
    case _ => NoWrite
  }

  /** `worker` is what worker (j, a) becomes. */
  function Apply(env: Env, s: State, j: string, a: nat, write: Write, worker: Worker): State
    requires j in s.jobs
  {
    var t := s.(workers := s.workers[(j, a) := worker]);
    match write
    case NoWrite => t
    case Beat => t.(jobs := s.jobs[j := BeatJob(s.jobs[j], s.now)])
    case Upload(tag, content) => t.(store := s.store[env.key(tag) := content], puts := s.puts[env.key(tag) := tag])
    case SetRow(surface, row) => t.(results := s.results[(j, surface) := row])
    case Accept(rec) => t.(verified := s.verified + {rec})
    case SetJob(job) =>
      t.(jobs := s.jobs[j := job], finishes := s.finishes[j := (if j in s.finishes then s.finishes[j] else 0) + 1])
  }

  // --- The whole system ---

  predicate Enabled(env: Env, s: State, step: Step) {
    match step
    case CreateManifest(id, m) => id !in s.manifests && '/' !in id && UniqueKeys(m.surfaces)
    case EnqueueJob(id, manifestId) =>
      && id !in s.jobs && '/' !in id && manifestId in s.manifests
      && BuildPayload(s.manifests[manifestId]).Built?
      && forall other :: other in s.jobs ==> s.jobs[other].enqueuedAt < s.now
    case Tick(_) => true
    case ClaimJob(id, _) => OldestClaimable(s.jobs, id)
    case ReapJobs => true
    case Work(j, a, m) => Present(s, j, a) && CanMove(env, s, j, a, m)
    case ForeignPut(key, _) => FirstSegment(key) != env.tenant
  }

  function Next(env: Env, s: State, step: Step): State
    requires Enabled(env, s, step)
  {
    match step
    case CreateManifest(id, m) => s.(manifests := s.manifests[id := m])
    case EnqueueJob(id, manifestId) =>
      s.(jobs := s.jobs[id := NewJob(manifestId, BuildPayload(s.manifests[manifestId]).payload, s.now)],
         finishes := s.finishes[id := 0])
    case Tick(seconds) => s.(now := s.now + seconds)
    case ClaimJob(id, who) =>
      s.(jobs := s.jobs[id := ClaimedJob(s.jobs[id], who, s.now)],
         workers := s.workers[(id, s.jobs[id].attempts + 1) := Worker(Start, 0, None, None)])
    case ReapJobs => s.(jobs := ReapAll(s.jobs, s.now))
    case Work(j, a, m) => Apply(env, s, j, a, WriteOf(env, s, j, a, m), NextWorker(env, s, j, a, m))
    case ForeignPut(key, content) => s.(store := s.store[key := content])
  }

  ghost predicate Execution(env: Env, ss: seq<State>, steps: seq<Step>) {
    && |ss| == |steps| + 1
    && ss[0] == EMPTY
    && forall i {:trigger Leads(env, ss[i], steps[i], ss[i + 1])} :: 0 <= i < |steps| ==>
         Leads(env, ss[i], steps[i], ss[i + 1])
  }

  ghost predicate Leads(env: Env, s: State, step: Step, s': State) {
    Enabled(env, s, step) && s' == Next(env, s, step)
  }

  /** One step of an execution. */
  lemma StepAt(env: Env, ss: seq<State>, steps: seq<Step>, i: nat)
    requires Execution(env, ss, steps) && i < |steps|
    ensures Enabled(env, ss[i], steps[i]) && ss[i + 1] == Next(env, ss[i], steps[i])
  {
    assert Leads(env, ss[i], steps[i], ss[i + 1]);
  }

  /** Some run of the whole system leads to this state. */
  ghost predicate Reached(env: Env, s: State) {
    exists ss, steps :: Execution(env, ss, steps) && ss[|steps|] == s
  }

  lemma ReachedEmpty(env: Env)
    ensures Reached(env, EMPTY)
  {
    assert Execution(env, [EMPTY], []);
  }

  lemma ReachedNext(env: Env, s: State, step: Step) returns (s': State)
    requires Reached(env, s) && Enabled(env, s, step)
    ensures s' == Next(env, s, step) && Reached(env, s')
  {
    var ss, steps :| Execution(env, ss, steps) && ss[|steps|] == s;
    s' := Next(env, s, step);
    assert Execution(env, ss + [s'], steps + [step]) && (ss + [s'])[|steps + [step]|] == s';
  }

  // --- No late writer ---

  /** The claim of attempt `a` is the one in progress. */
  ghost predicate Current(s: State, j: string, a: nat) {
    j in s.jobs && s.jobs[j].status == L.InProgress && s.jobs[j].attempts == a
  }

  /** The moves that record or report something. A late heartbeat only prolongs somebody's lease. */
  predicate WritesDb(m: Move) {
    m.WriteRow? || m.RecordCustody? || m.FinishJob?
  }

  ghost predicate Timely(s: State, step: Step) {
    step.Work? && WritesDb(step.move) ==> Current(s, step.job, step.attempt)
  }

  ghost predicate TimelyExecution(env: Env, ss: seq<State>, steps: seq<Step>) {
    && Execution(env, ss, steps)
    && forall i :: 0 <= i < |steps| ==> Timely(ss[i], steps[i])
  }

  // --- The key scheme ---

  /** What the proofs need of the key scheme. */
  ghost predicate GoodEnv(env: Env) {
    && (forall s, t :: WellTagged(s) && WellTagged(t) && env.key(s) == env.key(t) ==> s == t)
    && (forall t :: FirstSegment(env.key(t)) == env.tenant)
  }

  function Deployment(tenant: string, digests: Digests, json: Observation -> Bytes): Env {
    Env(tenant, tag => BuildKey(tenant, tag), digests, json)
  }

  lemma DeploymentIsGood(tenant: string, digests: Digests, json: Observation -> Bytes)
    requires '/' !in tenant
    ensures GoodEnv(Deployment(tenant, digests, json))
  {
    var env := Deployment(tenant, digests, json);
    forall s, t | WellTagged(s) && WellTagged(t) && env.key(s) == env.key(t)
      ensures s == t
    {
      BuildKeyInjective(tenant, s, t);
    }
    forall t
      ensures FirstSegment(env.key(t)) == tenant
    {
      BuildKeyStaysInTenant(tenant, t);
    }
  }
}
