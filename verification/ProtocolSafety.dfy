/** What every interleaving of the job protocol keeps, late writers included. */
module ProtocolSafety {
  import opened Text
  import opened Evidence
  import opened RunManifest
  import opened JobQueue
  import opened PortalSession
  import opened Protocol
  import L = LeaseLedger

  // --- The invariant ---

  ghost predicate ManifestsOk(s: State) {
    forall id :: id in s.manifests ==> '/' !in id && UniqueKeys(s.manifests[id].surfaces)
  }

  /** Job and manifest ids carry no slash, and a job's surface keys are unique. */
  ghost predicate TaggedJobs(s: State) {
    forall j :: j in s.jobs ==> '/' !in j && '/' !in s.jobs[j].manifest && UniqueKeys(Surfaces(s, j))
  }

  /** A job's row satisfies the CHECK and executes its manifest and nothing else. */
  ghost predicate JobOk(s: State, j: string)
    requires j in s.jobs
  {
    var job := s.jobs[j];
    && TimingOk(job)
    && j in s.finishes
    && job.manifest in s.manifests
    && BuildPayload(s.manifests[job.manifest]) == Built(job.payload)
  }

  ghost predicate JobsOk(s: State) {
    forall j :: j in s.jobs ==> JobOk(s, j)
  }

  /** One worker for every claim ever made. */
  ghost predicate Roster(s: State) {
    forall j: string, a: nat :: (j, a) in s.workers <==> j in s.jobs && 1 <= a <= s.jobs[j].attempts
  }

  /** The record of attempt `a` on a surface: its own keys, stored as recorded. */
  ghost predicate RecordFor(env: Env, s: State, j: string, a: nat, surface: string, rec: Record)
    requires j in s.jobs
  {
    && rec.shot.key == env.key(TagOf(s, j, a, surface, Screenshot)) && rec.shot.key in s.puts
    && rec.obs.key == env.key(TagOf(s, j, a, surface, ObservationJson)) && rec.obs.key in s.puts
    && Stored(env.digests, s.store, rec.shot) && Stored(env.digests, s.store, rec.obs)
  }

  /** The first surface whose screenshot (observation) this worker has not uploaded. */
  function UnputFrom(w: Worker, artifact: Artifact): nat {
    if w.pc.Writing? || w.pc.Checking? || w.pc.Recording? || (w.pc.PuttingObs? && artifact == Screenshot) then w.i + 1
    else w.i
  }

  /** Attempt `a` has not uploaded `artifact` for any surface from `from` on. */
  ghost predicate Unput(env: Env, s: State, j: string, a: nat, artifact: Artifact, from: nat)
    requires j in s.jobs
  {
    forall idx :: from <= idx < |Surfaces(s, j)| ==>
      env.key(TagOf(s, j, a, Surfaces(s, j)[idx].key, artifact)) !in s.puts
  }

  /** What a worker at surface `key` has in hand. */
  ghost predicate Holds(env: Env, s: State, j: string, a: nat, pc: Pc, surface: string)
    requires j in s.jobs
  {
    match pc
    case PuttingObs(png, _) =>
      var key := env.key(TagOf(s, j, a, surface, Screenshot));
      key in s.puts && key in s.store && s.store[key] == ObjectOf(env.digests, png, Screenshot)
    case Writing(_, upload, _) => upload.Some? ==> RecordFor(env, s, j, a, surface, upload.value)
    case Checking(rec) => RecordFor(env, s, j, a, surface, rec)
    case Recording(rec, _) => RecordFor(env, s, j, a, surface, rec)
    case _ => true
  }

  predicate Live(w: Worker) {
    !w.pc.Gone? && !w.pc.Finishing?
  }

  ghost predicate WorkerOk(env: Env, s: State, j: string, a: nat, w: Worker)
    requires j in s.jobs
  {
    && w.i <= |Surfaces(s, j)|
    && (AtSurface(w.pc) ==> w.i < |Surfaces(s, j)| && Holds(env, s, j, a, w.pc, Surfaces(s, j)[w.i].key))
    && (Live(w) ==>
          && Unput(env, s, j, a, Screenshot, UnputFrom(w, Screenshot))
          && Unput(env, s, j, a, ObservationJson, UnputFrom(w, ObservationJson)))
  }

  ghost predicate WorkersOk(env: Env, s: State) {
    forall j: string, a: nat :: (j, a) in s.workers && j in s.jobs ==> WorkerOk(env, s, j, a, s.workers[(j, a)])
  }

  ghost predicate RowOk(env: Env, s: State, j: string, surface: string)
    requires (j, surface) in s.results
  {
    var row := s.results[(j, surface)];
    && j in s.jobs && surface in Keys(Surfaces(s, j)) && 1 <= row.attempt <= s.jobs[j].attempts
    && (row.rec.Some? ==> RecordFor(env, s, j, row.attempt, surface, row.rec.value))
    && (row.state == Uploaded || row.state == Referenced ==> row.rec.Some?)
    && ReferencedOk(row)
  }

  ghost predicate RowsOk(env: Env, s: State) {
    forall j: string, surface: string :: (j, surface) in s.results ==> RowOk(env, s, j, surface)
  }

  /** Where an object of this tenant came from. */
  ghost predicate PutOk(env: Env, s: State, key: string)
    requires key in s.puts
  {
    var tag := s.puts[key];
    && key in s.store && key == env.key(tag)
    && tag.job in s.jobs && tag.manifest == s.jobs[tag.job].manifest
    && tag.surface in Keys(Surfaces(s, tag.job)) && 1 <= tag.attempt <= s.jobs[tag.job].attempts
  }

  ghost predicate PutsOk(env: Env, s: State) {
    && (forall key :: key in s.puts ==> PutOk(env, s, key))
    && (forall key :: key in s.store && FirstSegment(key) == env.tenant ==> key in s.puts)
  }

  ghost predicate Inv(env: Env, s: State) {
    && ManifestsOk(s) && TaggedJobs(s) && JobsOk(s) && Roster(s)
    && WorkersOk(env, s) && RowsOk(env, s) && PutsOk(env, s)
  }

  /** Uploads for different jobs, attempts, surfaces or artifacts have different keys. */
  lemma KeysDiffer(env: Env, s: State, j: string, a: nat, surface: string, artifact: Artifact,
                   k: string, b: nat, other: string, artifact': Artifact)
    requires GoodEnv(env) && TaggedJobs(s) && j in s.jobs && k in s.jobs
    requires (j, a, surface, artifact) != (k, b, other, artifact')
    ensures env.key(TagOf(s, j, a, surface, artifact)) != env.key(TagOf(s, k, b, other, artifact'))
  {
    assert WellTagged(TagOf(s, j, a, surface, artifact)) && WellTagged(TagOf(s, k, b, other, artifact'));
  }

  // --- How states grow ---

  /** Jobs keep their manifest and payload, and this tenant's objects are never replaced. */
  ghost predicate Extends(s: State, s': State) {
    && (forall j :: j in s.jobs ==>
          && j in s'.jobs && s'.jobs[j].manifest == s.jobs[j].manifest
          && s'.jobs[j].payload == s.jobs[j].payload && s.jobs[j].attempts <= s'.jobs[j].attempts)
    && (forall key :: key in s.puts ==>
          key in s'.puts && s'.puts[key] == s.puts[key] &&
              (key in s.store ==> key in s'.store && s'.store[key] == s.store[key]))
    && s.verified <= s'.verified
  }

  lemma RecordKept(env: Env, s: State, s': State, j: string, a: nat, surface: string, rec: Record)
    requires Extends(s, s') && j in s.jobs && RecordFor(env, s, j, a, surface, rec)
    ensures RecordFor(env, s', j, a, surface, rec)
  {
  }

  /** What the rest of the invariant needs to know of a worker's write. */
  ghost predicate WriteOk(env: Env, s: State, j: string, a: nat, write: Write)
    requires j in s.jobs
  {
    match write
    case Upload(tag, content) =>
      && tag.surface in Keys(Surfaces(s, j)) && tag == TagOf(s, j, a, tag.surface, tag.artifact)
      && env.key(tag) !in s.puts && 1 <= a <= s.jobs[j].attempts
    case SetRow(surface, row) =>
      && surface in Keys(Surfaces(s, j)) && 1 <= row.attempt <= s.jobs[j].attempts
      && (row.rec.Some? ==> RecordFor(env, s, j, row.attempt, surface, row.rec.value))
      && (row.state == Uploaded || row.state == Referenced ==> row.rec.Some?)
      && ReferencedOk(row)
    case SetJob(job) =>
      TimingOk(job) && job.manifest == s.jobs[j].manifest && job.payload == s.jobs[j].payload
      && job.attempts == s.jobs[j].attempts
    case _ => true
  }

  lemma RowWriteOk(env: Env, s: State, j: string, a: nat)
    requires Present(s, j, a) && s.workers[(j, a)].pc.Writing? && 1 <= a <= s.jobs[j].attempts &&
             WorkerOk(env, s, j, a, s.workers[(j, a)])
    ensures WriteOk(env, s, j, a, WriteOf(env, s, j, a, WriteRow))
  {
    assert Surfaces(s, j)[s.workers[(j, a)].i] in Surfaces(s, j);
  }

  lemma CustodyWriteOk(env: Env, s: State, j: string, a: nat)
    requires Present(s, j, a) && s.workers[(j, a)].pc.Recording? && RowsOk(env, s)
    ensures WriteOk(env, s, j, a, WriteOf(env, s, j, a, RecordCustody))
  {
    var id := (j, CurrentKey(s, j, a));
    if id in s.results {
      assert RowOk(env, s, id.0, id.1);
    }
  }

  /** The moves that store an object. */
  predicate Puts(m: Move) {
    m.PutShotOk? || m.PutObsOk? || (m.PutFails? && m.stored)
  }

  lemma UploadWriteOk(env: Env, s: State, j: string, a: nat, m: Move)
    requires Present(s, j, a) && CanMove(env, s, j, a, m) && Puts(m)
    requires 1 <= a <= s.jobs[j].attempts && WorkerOk(env, s, j, a, s.workers[(j, a)])
    ensures WriteOk(env, s, j, a, WriteOf(env, s, j, a, m))
  {
    assert Surfaces(s, j)[s.workers[(j, a)].i] in Surfaces(s, j);
  }

  lemma PlainWriteOk(env: Env, s: State, j: string, a: nat, m: Move)
    requires Present(s, j, a) && CanMove(env, s, j, a, m)
    requires !(m.WriteRow? || m.RecordCustody? || Puts(m))
    ensures WriteOk(env, s, j, a, WriteOf(env, s, j, a, m))
  {
  }

  // --- A worker's step keeps every part ---

  lemma ApplyExtends(env: Env, s: State, j: string, a: nat, write: Write, worker: Worker)
    requires j in s.jobs && WriteOk(env, s, j, a, write)
    ensures Extends(s, Apply(env, s, j, a, write, worker))
  {
  }

  lemma ApplyKeepsNames(env: Env, s: State, j: string, a: nat, write: Write, worker: Worker)
    requires ManifestsOk(s) && TaggedJobs(s) && Roster(s)
    requires (j, a) in s.workers && j in s.jobs && WriteOk(env, s, j, a, write)
    ensures var s' := Apply(env, s, j, a, write, worker); ManifestsOk(s') && TaggedJobs(s') && Roster(s')
  {
  }

  lemma ApplyKeepsJobs(env: Env, s: State, j: string, a: nat, write: Write, worker: Worker)
    requires JobsOk(s) && j in s.jobs && WriteOk(env, s, j, a, write)
    ensures JobsOk(Apply(env, s, j, a, write, worker))
  {
    var s' := Apply(env, s, j, a, write, worker);
    forall k | k in s'.jobs
      ensures JobOk(s', k)
    {
      assert JobOk(s, k);
    }
  }

  lemma ApplyKeepsPuts(env: Env, s: State, j: string, a: nat, write: Write, worker: Worker)
    requires PutsOk(env, s) && j in s.jobs && WriteOk(env, s, j, a, write)
    ensures PutsOk(env, Apply(env, s, j, a, write, worker))
  {
    var s' := Apply(env, s, j, a, write, worker);
    forall key | key in s'.puts
      ensures PutOk(env, s', key)
    {
      if key in s.puts {
        assert PutOk(env, s, key);
      }
    }
  }

  lemma ApplyKeepsRows(env: Env, s: State, j: string, a: nat, write: Write, worker: Worker)
    requires RowsOk(env, s) && j in s.jobs && WriteOk(env, s, j, a, write)
    ensures RowsOk(env, Apply(env, s, j, a, write, worker))
  {
    var s' := Apply(env, s, j, a, write, worker);
    ApplyExtends(env, s, j, a, write, worker);
    forall k: string, surface: string | (k, surface) in s'.results
      ensures RowOk(env, s', k, surface)
    {
      var row := s'.results[(k, surface)];
      assert (k, surface) in s.results ==> RowOk(env, s, k, surface);
      if row.rec.Some? {
        RecordKept(env, s, s', k, row.attempt, surface, row.rec.value);
      }
    }
  }

  // --- Workers ---

  /** An upload is under the worker's own tag, and a job write keeps what the job executes. */
  predicate OwnWrite(s: State, j: string, a: nat, write: Write)
    requires j in s.jobs
  {
    match write
    case Upload(tag, _) => tag == TagOf(s, j, a, tag.surface, tag.artifact)
    case SetJob(job) => job.manifest == s.jobs[j].manifest && job.payload == s.jobs[j].payload
    case _ => true
  }

  lemma UnputKept(env: Env, s: State, j: string, a: nat, write: Write, worker: Worker,
                  k: string, b: nat, artifact: Artifact, from: nat)
    requires GoodEnv(env) && TaggedJobs(s) && j in s.jobs && OwnWrite(s, j, a, write)
    requires k in s.jobs && Unput(env, s, k, b, artifact, from)
    requires write.Upload? ==> (k, b) != (j, a) || artifact != write.tag.artifact
    ensures Unput(env, Apply(env, s, j, a, write, worker), k, b, artifact, from)
  {
    var s' := Apply(env, s, j, a, write, worker);
    forall idx | from <= idx < |Surfaces(s', k)|
      ensures env.key(TagOf(s', k, b, Surfaces(s', k)[idx].key, artifact)) !in s'.puts
    {
      assert env.key(TagOf(s, k, b, Surfaces(s, k)[idx].key, artifact)) !in s.puts;
      if write.Upload? {
        KeysDiffer(env, s, j, a, write.tag.surface, write.tag.artifact, k, b, Surfaces(s, k)[idx].key, artifact);
      }
    }
  }

  /** A worker keeps its invariant while the state grows around it. */
  lemma WorkerKept(env: Env, s: State, s': State, j: string, a: nat, w: Worker)
    requires Extends(s, s') && j in s.jobs && WorkerOk(env, s, j, a, w)
    requires Live(w) ==> Unput(env, s', j, a, Screenshot, UnputFrom(w, Screenshot))
    requires Live(w) ==> Unput(env, s', j, a, ObservationJson, UnputFrom(w, ObservationJson))
    ensures WorkerOk(env, s', j, a, w)
  {
  }

  lemma ApplyKeepsWorker(env: Env, s: State, j: string, a: nat, write: Write, worker: Worker, k: string, b: nat,
                         w: Worker)
    requires GoodEnv(env) && TaggedJobs(s) && j in s.jobs && WriteOk(env, s, j, a, write)
    requires k in s.jobs && WorkerOk(env, s, k, b, w) && (write.Upload? ==> (k, b) != (j, a))
    ensures WorkerOk(env, Apply(env, s, j, a, write, worker), k, b, w)
  {
    ApplyExtends(env, s, j, a, write, worker);
    if Live(w) {
      UnputKept(env, s, j, a, write, worker, k, b, Screenshot, UnputFrom(w, Screenshot));
      UnputKept(env, s, j, a, write, worker, k, b, ObservationJson, UnputFrom(w, ObservationJson));
    }
    WorkerKept(env, s, Apply(env, s, j, a, write, worker), k, b, w);
  }

  /** Every move but an upload leaves the worker with no more to show than it had. */
  lemma NextWorkerOk(env: Env, s: State, j: string, a: nat, m: Move)
    requires Present(s, j, a) && CanMove(env, s, j, a, m) && WorkerOk(env, s, j, a, s.workers[(j, a)])
    requires !Puts(m)
    ensures WorkerOk(env, s, j, a, NextWorker(env, s, j, a, m))
  {
  }

  /** The artifact a worker is about to put. */
  function Pending(pc: Pc): Artifact
    requires pc.PuttingShot? || pc.PuttingObs?
  {
    if pc.PuttingShot? then Screenshot else ObservationJson
  }

  function Other(artifact: Artifact): Artifact {
    if artifact == Screenshot then ObservationJson else Screenshot
  }

  /** What a worker about to put has not put yet. */
  lemma PutterUnput(env: Env, s: State, j: string, a: nat, w: Worker)
    requires j in s.jobs && WorkerOk(env, s, j, a, w) && (w.pc.PuttingShot? || w.pc.PuttingObs?)
    ensures Unput(env, s, j, a, Pending(w.pc), w.i)
    ensures Unput(env, s, j, a, Other(Pending(w.pc)), if w.pc.PuttingShot? then w.i else w.i + 1)
  {
  }

  /** ... and what it has not put after the upload. */
  lemma UploadUnput(env: Env, s: State, j: string, a: nat, write: Write, worker: Worker, from: nat)
    requires GoodEnv(env) && TaggedJobs(s) && Present(s, j, a) && AtSurface(s.workers[(j, a)].pc)
    requires write.Upload? && write.tag == TagOf(s, j, a, CurrentKey(s, j, a), write.tag.artifact)
    requires Unput(env, s, j, a, write.tag.artifact, s.workers[(j, a)].i)
    requires Unput(env, s, j, a, Other(write.tag.artifact), from)
    ensures var s' := Apply(env, s, j, a, write, worker);
            && Unput(env, s', j, a, write.tag.artifact, s.workers[(j, a)].i + 1)
            && Unput(env, s', j, a, Other(write.tag.artifact), from)
  {
    UploadLeavesLaterSurfaces(env, s, j, a, write, worker);
    UnputKept(env, s, j, a, write, worker, j, a, Other(write.tag.artifact), from);
  }

  lemma ShotUploaderOk(env: Env, s: State, j: string, a: nat, write: Write, worker: Worker)
    requires GoodEnv(env) && TaggedJobs(s) && Present(s, j, a) && s.workers[(j, a)].pc.PuttingShot?
    requires var w := s.workers[(j, a)];
             && Unput(env, s, j, a, Screenshot, w.i) && Unput(env, s, j, a, ObservationJson, w.i)
             && write == Upload(TagOf(s, j, a, CurrentKey(s, j, a), Screenshot),
                                ObjectOf(env.digests, w.pc.png, Screenshot))
             && worker == w.(pc := PuttingObs(w.pc.png, w.pc.obs))
    ensures WorkerOk(env, Apply(env, s, j, a, write, worker), j, a, worker)
  {
    UploadUnput(env, s, j, a, write, worker, worker.i);
  }

  lemma ObsUploaderOk(env: Env, s: State, j: string, a: nat, write: Write, worker: Worker)
    requires GoodEnv(env) && TaggedJobs(s) && Present(s, j, a) && s.workers[(j, a)].pc.PuttingObs?
    requires var w := s.workers[(j, a)];
             && Unput(env, s, j, a, ObservationJson, w.i) && Unput(env, s, j, a, Screenshot, w.i + 1)
             && Holds(env, s, j, a, w.pc, CurrentKey(s, j, a))
             && write == Upload(TagOf(s, j, a, CurrentKey(s, j, a), ObservationJson),
                                ObjectOf(env.digests, env.json(w.pc.obs), ObservationJson))
             && worker == w.(pc := Writing(w.pc.obs, Some(UploadedRecord(env, s, j, a)), ""))
    ensures WorkerOk(env, Apply(env, s, j, a, write, worker), j, a, worker)
  {
    UploadUnput(env, s, j, a, write, worker, worker.i + 1);
    UploadIsRecorded(env, s, j, a, write, worker);
    WriterOk(env, Apply(env, s, j, a, write, worker), j, a, worker);
  }

  /** A worker about to write its row, with what it uploaded or with nothing. */
  lemma WriterOk(env: Env, s: State, j: string, a: nat, w: Worker)
    requires j in s.jobs && w.pc.Writing? && w.i < |Surfaces(s, j)|
    requires w.pc.upload.Some? ==> RecordFor(env, s, j, a, Surfaces(s, j)[w.i].key, w.pc.upload.value)
    requires Unput(env, s, j, a, Screenshot, w.i + 1) && Unput(env, s, j, a, ObservationJson, w.i + 1)
    ensures WorkerOk(env, s, j, a, w)
  {
  }

  /** After the second PUT both objects are stored as the record says. */
  lemma UploadIsRecorded(env: Env, s: State, j: string, a: nat, write: Write, worker: Worker)
    requires GoodEnv(env) && TaggedJobs(s) && Present(s, j, a) && s.workers[(j, a)].pc.PuttingObs?
    requires Holds(env, s, j, a, s.workers[(j, a)].pc, CurrentKey(s, j, a))
    requires write == Upload(TagOf(s, j, a, CurrentKey(s, j, a), ObservationJson),
                             ObjectOf(env.digests, env.json(s.workers[(j, a)].pc.obs), ObservationJson))
    ensures var s' := Apply(env, s, j, a, write, worker);
            j in s'.jobs && RecordFor(env, s', j, a, CurrentKey(s, j, a), UploadedRecord(env, s, j, a))
  {
    KeysDiffer(env, s, j, a, CurrentKey(s, j, a), Screenshot, j, a, CurrentKey(s, j, a), ObservationJson);
  }

  /** A PUT that stored its object and raised leaves the worker with no record of it. */
  lemma FailedUploaderOk(env: Env, s: State, j: string, a: nat, write: Write, worker: Worker)
    requires GoodEnv(env) && TaggedJobs(s) && Present(s, j, a) && AtSurface(s.workers[(j, a)].pc)
    requires write.Upload? && write.tag == TagOf(s, j, a, CurrentKey(s, j, a), write.tag.artifact)
    requires Unput(env, s, j, a, write.tag.artifact, worker.i)
    requires Unput(env, s, j, a, Other(write.tag.artifact), worker.i + 1)
    requires worker.pc.Writing? && worker.pc.upload.None? && worker.i == s.workers[(j, a)].i
    ensures WorkerOk(env, Apply(env, s, j, a, write, worker), j, a, worker)
  {
    UploadUnput(env, s, j, a, write, worker, worker.i + 1);
    WriterOk(env, Apply(env, s, j, a, write, worker), j, a, worker);
  }

  /** An upload for one surface leaves the same worker's later surfaces untouched. */
  lemma UploadLeavesLaterSurfaces(env: Env, s: State, j: string, a: nat, write: Write, worker: Worker)
    requires GoodEnv(env) && TaggedJobs(s) && Present(s, j, a) && AtSurface(s.workers[(j, a)].pc)
    requires write.Upload? && write.tag == TagOf(s, j, a, CurrentKey(s, j, a), write.tag.artifact)
    requires Unput(env, s, j, a, write.tag.artifact, s.workers[(j, a)].i)
    ensures Unput(env, Apply(env, s, j, a, write, worker), j, a, write.tag.artifact, s.workers[(j, a)].i + 1)
  {
    var s' := Apply(env, s, j, a, write, worker);
    forall idx | s.workers[(j, a)].i + 1 <= idx < |Surfaces(s', j)|
      ensures env.key(TagOf(s', j, a, Surfaces(s', j)[idx].key, write.tag.artifact)) !in s'.puts
    {
      assert env.key(TagOf(s, j, a, Surfaces(s, j)[idx].key, write.tag.artifact)) !in s.puts;
      KeysDiffer(env, s, j, a, CurrentKey(s, j, a), write.tag.artifact, j, a, Surfaces(s, j)[idx].key,
          write.tag.artifact);
    }
  }

  // --- The whole step ---

  lemma UploadedWorkerOk(env: Env, s: State, j: string, a: nat, m: Move, write: Write, worker: Worker)
    requires GoodEnv(env) && TaggedJobs(s) && Present(s, j, a) && CanMove(env, s, j, a, m) && Puts(m)
    requires WorkerOk(env, s, j, a, s.workers[(j, a)])
    requires write == WriteOf(env, s, j, a, m) && worker == NextWorker(env, s, j, a, m)
    ensures WorkerOk(env, Apply(env, s, j, a, write, worker), j, a, worker)
  {
    PutterUnput(env, s, j, a, s.workers[(j, a)]);
    if m.PutShotOk? {
      ShotUploaderOk(env, s, j, a, write, worker);
    } else if m.PutObsOk? {
      ObsUploaderOk(env, s, j, a, write, worker);
    } else {
      FailedUploaderOk(env, s, j, a, write, worker);
    }
  }

  lemma MovedWorkerOk(env: Env, s: State, j: string, a: nat, m: Move, write: Write, worker: Worker)
    requires GoodEnv(env) && TaggedJobs(s) && Present(s, j, a) && CanMove(env, s, j, a, m)
    requires WorkerOk(env, s, j, a, s.workers[(j, a)]) && WriteOk(env, s, j, a, write)
    requires write == WriteOf(env, s, j, a, m) && worker == NextWorker(env, s, j, a, m)
    ensures WorkerOk(env, Apply(env, s, j, a, write, worker), j, a, worker)
  {
    if Puts(m) {
      UploadedWorkerOk(env, s, j, a, m, write, worker);
    } else {
      NextWorkerOk(env, s, j, a, m);
      assert !write.Upload?;
      ApplyKeepsWorker(env, s, j, a, write, worker, j, a, worker);
    }
  }

  lemma ApplyKeepsInv(env: Env, s: State, j: string, a: nat, write: Write, worker: Worker)
    requires GoodEnv(env) && Inv(env, s) && (j, a) in s.workers && j in s.jobs && WriteOk(env, s, j, a, write)
    requires WorkerOk(env, Apply(env, s, j, a, write, worker), j, a, worker)
    ensures Inv(env, Apply(env, s, j, a, write, worker))
  {
    var s' := Apply(env, s, j, a, write, worker);
    ApplyKeepsNames(env, s, j, a, write, worker);
    ApplyKeepsJobs(env, s, j, a, write, worker);
    ApplyKeepsPuts(env, s, j, a, write, worker);
    ApplyKeepsRows(env, s, j, a, write, worker);
    forall k: string, b: nat | (k, b) in s'.workers && k in s'.jobs
      ensures WorkerOk(env, s', k, b, s'.workers[(k, b)])
    {
      if (k, b) != (j, a) {
        ApplyKeepsWorker(env, s, j, a, write, worker, k, b, s.workers[(k, b)]);
      }
    }
  }

  lemma WorkKeepsInv(env: Env, s: State, j: string, a: nat, m: Move)
    requires GoodEnv(env) && Inv(env, s) && Present(s, j, a) && CanMove(env, s, j, a, m)
    ensures Inv(env, Next(env, s, Work(j, a, m)))
  {
    MoveIsOk(env, s, j, a, m);
    ApplyKeepsInv(env, s, j, a, WriteOf(env, s, j, a, m), NextWorker(env, s, j, a, m));
  }

  lemma MoveIsOk(env: Env, s: State, j: string, a: nat, m: Move)
    requires GoodEnv(env) && TaggedJobs(s) && WorkersOk(env, s) && RowsOk(env, s) && Roster(s)
    requires Present(s, j, a) && CanMove(env, s, j, a, m)
    ensures var write, worker := WriteOf(env, s, j, a, m), NextWorker(env, s, j, a, m);
            WriteOk(env, s, j, a, write) && WorkerOk(env, Apply(env, s, j, a, write, worker), j, a, worker)
  {
    assert WorkerOk(env, s, j, a, s.workers[(j, a)]);
    WorkerWritesOk(env, s, j, a, m);
    MovedWorkerOk(env, s, j, a, m, WriteOf(env, s, j, a, m), NextWorker(env, s, j, a, m));
  }

  lemma WorkerWritesOk(env: Env, s: State, j: string, a: nat, m: Move)
    requires Present(s, j, a) && CanMove(env, s, j, a, m) && 1 <= a <= s.jobs[j].attempts
    requires WorkerOk(env, s, j, a, s.workers[(j, a)]) && RowsOk(env, s)
    ensures WriteOk(env, s, j, a, WriteOf(env, s, j, a, m))
  {
    if m.WriteRow? {
      RowWriteOk(env, s, j, a);
    } else if m.RecordCustody? {
      CustodyWriteOk(env, s, j, a);
    } else if Puts(m) {
      UploadWriteOk(env, s, j, a, m);
    } else {
      PlainWriteOk(env, s, j, a, m);
    }
  }

  // --- Steps outside the workers ---

  lemma GrowthKeepsRows(env: Env, s: State, s': State)
    requires RowsOk(env, s) && Extends(s, s') && s'.results == s.results
    ensures RowsOk(env, s')
  {
    forall k: string, surface: string | (k, surface) in s'.results
      ensures RowOk(env, s', k, surface)
    {
      assert RowOk(env, s, k, surface);
      var row := s.results[(k, surface)];
      if row.rec.Some? {
        RecordKept(env, s, s', k, row.attempt, surface, row.rec.value);
      }
    }
  }

  lemma GrowthKeepsPuts(env: Env, s: State, s': State)
    requires PutsOk(env, s) && Extends(s, s') && s'.puts == s.puts
    requires forall key :: key in s'.store && FirstSegment(key) == env.tenant ==> key in s.store
    ensures PutsOk(env, s')
  {
    forall key | key in s'.puts
      ensures PutOk(env, s', key)
    {
      assert PutOk(env, s, key);
    }
  }

  lemma EnvironmentExtends(env: Env, s: State, step: Step)
    requires Enabled(env, s, step) && !step.Work? && PutsOk(env, s) && GoodEnv(env)
    ensures Extends(s, Next(env, s, step))
  {
    var s' := Next(env, s, step);
    EnvironmentKeepsPayloads(env, s, step);
    EnvironmentKeepsObjects(env, s, step);
    assert s'.verified == s.verified;
  }

  lemma EnvironmentKeepsPayloads(env: Env, s: State, step: Step)
    requires Enabled(env, s, step) && !step.Work?
    ensures var s' := Next(env, s, step);
            forall j :: j in s.jobs ==>
              && j in s'.jobs && s'.jobs[j].manifest == s.jobs[j].manifest
              && s'.jobs[j].payload == s.jobs[j].payload && s.jobs[j].attempts <= s'.jobs[j].attempts
  {
  }

  /** Another tenant's upload cannot replace an object of this one. */
  lemma EnvironmentKeepsObjects(env: Env, s: State, step: Step)
    requires Enabled(env, s, step) && !step.Work? && PutsOk(env, s) && GoodEnv(env)
    ensures var s' := Next(env, s, step);
            && s'.puts == s.puts
            && forall key :: key in s.puts && key in s.store ==> key in s'.store && s'.store[key] == s.store[key]
  {
    forall key | key in s.puts
      ensures FirstSegment(key) == env.tenant
    {
      assert PutOk(env, s, key);
    }
  }

  /** Nobody but the reaper, a claim and an enqueue touches a job row. */
  lemma EnvironmentKeepsJobs(env: Env, s: State, step: Step)
    requires Enabled(env, s, step) && !step.Work? && JobsOk(s)
    ensures JobsOk(Next(env, s, step))
  {
    var s' := Next(env, s, step);
    forall j | j in s'.jobs
      ensures JobOk(s', j)
    {
      if j in s.jobs {
        assert JobOk(s, j);
      }
    }
  }

  lemma EnvironmentKeepsNames(env: Env, s: State, step: Step)
    requires Enabled(env, s, step) && !step.Work? && ManifestsOk(s) && TaggedJobs(s)
    ensures var s' := Next(env, s, step); ManifestsOk(s') && TaggedJobs(s')
  {
    if step.EnqueueJob? {
      assert BuildPayload(s.manifests[step.manifestId]).payload.surfaces == s.manifests[step.manifestId].surfaces;
    }
  }

  lemma EnvironmentKeepsRoster(env: Env, s: State, step: Step)
    requires Enabled(env, s, step) && !step.Work? && Roster(s)
    ensures Roster(Next(env, s, step))
  {
  }

  /** An attempt that was never claimed has uploaded nothing. */
  lemma NothingPutYet(env: Env, s: State, s': State, j: string, a: nat, artifact: Artifact)
    requires GoodEnv(env) && TaggedJobs(s) && PutsOk(env, s) && Extends(s, s') && s'.puts == s.puts
    requires j in s.jobs && a > s.jobs[j].attempts
    ensures Unput(env, s', j, a, artifact, 0)
  {
    forall idx | 0 <= idx < |Surfaces(s', j)|
      ensures env.key(TagOf(s', j, a, Surfaces(s', j)[idx].key, artifact)) !in s'.puts
    {
      var tag := TagOf(s, j, a, Surfaces(s, j)[idx].key, artifact);
      assert WellTagged(tag);
      assert env.key(tag) in s.puts ==> PutOk(env, s, env.key(tag)) && WellTagged(s.puts[env.key(tag)]);
    }
  }

  lemma ClaimedWorkerOk(env: Env, s: State, s': State, j: string, a: nat)
    requires GoodEnv(env) && TaggedJobs(s) && PutsOk(env, s) && Extends(s, s') && s'.puts == s.puts
    requires j in s.jobs && a > s.jobs[j].attempts
    ensures WorkerOk(env, s', j, a, Worker(Start, 0, None, None))
  {
    NothingPutYet(env, s, s', j, a, Screenshot);
    NothingPutYet(env, s, s', j, a, ObservationJson);
  }

  /** The worker was there before, or this step claimed it. */
  lemma EnvironmentWorker(env: Env, s: State, step: Step, j: string, a: nat)
    requires Enabled(env, s, step) && !step.Work? && Roster(s)
    requires var s' := Next(env, s, step); (j, a) in s'.workers && j in s'.jobs
    ensures j in s.jobs && KnownOrNew(s, Next(env, s, step), j, a)
  {
  }

  /** Every worker was there before or is new. */
  lemma GrowthKeepsWorkers(env: Env, s: State, s': State)
    requires GoodEnv(env) && TaggedJobs(s) && PutsOk(env, s) && WorkersOk(env, s)
    requires Extends(s, s') && s'.puts == s.puts
    requires forall j: string, a: nat :: (j, a) in s'.workers && j in s'.jobs ==> j in s.jobs && KnownOrNew(s, s', j, a)
    ensures WorkersOk(env, s')
  {
    forall j: string, a: nat | (j, a) in s'.workers && j in s'.jobs
      ensures WorkerOk(env, s', j, a, s'.workers[(j, a)])
    {
      assert KnownOrNew(s, s', j, a);
      if (j, a) in s.workers && s'.workers[(j, a)] == s.workers[(j, a)] {
        WorkerKept(env, s, s', j, a, s.workers[(j, a)]);
      } else {
        ClaimedWorkerOk(env, s, s', j, a);
      }
    }
  }

  ghost predicate KnownOrNew(s: State, s': State, j: string, a: nat)
    requires (j, a) in s'.workers && j in s.jobs
  {
    || ((j, a) in s.workers && s'.workers[(j, a)] == s.workers[(j, a)])
    || (s'.workers[(j, a)] == Worker(Start, 0, None, None) && a > s.jobs[j].attempts)
  }

  lemma EnvironmentKeepsWorkers(env: Env, s: State, step: Step)
    requires GoodEnv(env) && Enabled(env, s, step) && !step.Work? && Extends(s, Next(env, s, step))
    requires TaggedJobs(s) && PutsOk(env, s) && WorkersOk(env, s) && Roster(s)
    ensures WorkersOk(env, Next(env, s, step))
  {
    var s' := Next(env, s, step);
    assert s'.puts == s.puts;
    forall j: string, a: nat | (j, a) in s'.workers && j in s'.jobs
      ensures j in s.jobs && KnownOrNew(s, s', j, a)
    {
      EnvironmentWorker(env, s, step, j, a);
    }
    GrowthKeepsWorkers(env, s, s');
  }

  lemma EnvironmentKeepsInv(env: Env, s: State, step: Step)
    requires GoodEnv(env) && Inv(env, s) && Enabled(env, s, step) && !step.Work?
    ensures Inv(env, Next(env, s, step))
  {
    var s' := Next(env, s, step);
    EnvironmentExtends(env, s, step);
    EnvironmentKeepsJobs(env, s, step);
    EnvironmentKeepsNames(env, s, step);
    EnvironmentKeepsRoster(env, s, step);
    EnvironmentKeepsWorkers(env, s, step);
    GrowthKeepsRows(env, s, s');
    GrowthKeepsPuts(env, s, s');
  }

  lemma StepKeepsInv(env: Env, s: State, step: Step)
    requires GoodEnv(env) && Inv(env, s) && Enabled(env, s, step)
    ensures Inv(env, Next(env, s, step))
  {
    if step.Work? {
      WorkKeepsInv(env, s, step.job, step.attempt, step.move);
    } else {
      EnvironmentKeepsInv(env, s, step);
    }
  }

  lemma StepExtends(env: Env, s: State, step: Step)
    requires GoodEnv(env) && Inv(env, s) && Enabled(env, s, step)
    ensures Extends(s, Next(env, s, step))
  {
    if step.Work? {
      var j, a, m := step.job, step.attempt, step.move;
      assert WorkerOk(env, s, j, a, s.workers[(j, a)]);
      WorkerWritesOk(env, s, j, a, m);
      ApplyExtends(env, s, j, a, WriteOf(env, s, j, a, m), NextWorker(env, s, j, a, m));
    } else {
      EnvironmentExtends(env, s, step);
    }
  }

  lemma {:induction false} InvThroughout(env: Env, ss: seq<State>, steps: seq<Step>, i: nat)
    requires GoodEnv(env) && Execution(env, ss, steps) && i < |ss|
    ensures Inv(env, ss[i])
  {
    if i > 0 {
      InvThroughout(env, ss, steps, i - 1);
      StepAt(env, ss, steps, i - 1);
      StepKeepsInv(env, ss[i - 1], steps[i - 1]);
    }
  }
}
