/** The UI inspection queue: every SQL statement on the job and result tables, each of
    which commits on its own. Statements are functions of a row and the database clock;
    the class holds the tables and applies them. */
module JobQueue {
  import opened Text
  import opened LeaseLedger
  import opened Evidence
  import opened RunManifest

  /** Seconds after which a heartbeat means a dead lease. */
  const HEARTBEAT_STALL_S: nat := 120

  datatype Job = Job(
    manifest: string, payload: JobPayload, status: Status, attempts: nat, reaps: nat,
    enqueuedAt: nat, claimedBy: Option<string>, claimedAt: Option<nat>, heartbeatAt: Option<nat>,
    startedAt: Option<nat>, completedAt: Option<nat>)

  function NewJob(manifest: string, payload: JobPayload, now: nat): Job {
    Job(manifest, payload, Pending, 0, 0, now, None, None, None, None, None)
  }

  /** The table's CHECK status_implies_timing. */
  predicate TimingOk(job: Job) {
    match job.status
    case Pending =>
      job.startedAt.None? && job.completedAt.None? && job.claimedBy.None? && job.claimedAt.None? &&
          job.heartbeatAt.None?
    case InProgress =>
      job.startedAt.Some? && job.completedAt.None? && job.claimedBy.Some? && job.claimedAt.Some? &&
          job.heartbeatAt.Some?
    case _ =>
      job.startedAt.Some? && job.completedAt.Some?
  }

  /** The two CHECKs as what the columns tell of each other. */
  predicate TimesTell(job: Job) {
    && (job.startedAt == None <==> job.status == Pending)
    && (job.completedAt == None <==> job.status in {Pending, InProgress})
    && (job.status == Pending ==> job.claimedBy == None && job.claimedAt == None && job.heartbeatAt == None)
    && (job.status == InProgress ==> job.claimedBy != None && job.claimedAt != None && job.heartbeatAt != None)
  }

  lemma TimesExactly(job: Job)
    ensures TimesTell(job) <==> TimingOk(job)
  {
  }

  function ClaimedJob(job: Job, who: string, now: nat): Job {
    job.(status := InProgress, startedAt := Some(now), completedAt := None, claimedBy := Some(who),
         claimedAt := Some(now), heartbeatAt := Some(now), attempts := job.attempts + 1)
  }

  function BeatJob(job: Job, now: nat): Job {
    if job.status == InProgress then job.(heartbeatAt := Some(now)) else job
  }

  /** The lease is dead: no heartbeat for longer than the threshold. */
  predicate Stalled(job: Job, now: nat) {
    job.status == InProgress && job.heartbeatAt.Some? && job.heartbeatAt.value + HEARTBEAT_STALL_S < now
  }

  function ReapedJob(job: Job, now: nat): Job {
    var spent := job.attempts >= MAX_ATTEMPTS;
    job.(reaps := job.reaps + 1,
         status := if spent then FailedPermanent else Pending,
         completedAt := if spent then Some(now) else None,
         startedAt := if spent then job.startedAt else None,
         claimedBy := None, claimedAt := None, heartbeatAt := None)
  }

  /** mark_succeeded and mark_failed write the same columns. */
  function FinishedJob(job: Job, status: Status, now: nat): Job {
    job.(status := status, completedAt := Some(now), claimedBy := None, claimedAt := None, heartbeatAt := None)
  }

  /** No statement but a finishing write can break the timing CHECK, and that one does so
      exactly when the job is back to pending: a worker whose lease was reaped, and whose
      job nobody has claimed since, gets an error instead of a write. */
  lemma FinishRefusedExactlyWhenPending(job: Job, who: string, outcome: Outcome, attempt: nat, now: nat)
    requires TimingOk(job)
    ensures TimingOk(ClaimedJob(job, who, now)) && TimingOk(BeatJob(job, now))
    ensures job.status == InProgress ==> TimingOk(ReapedJob(job, now))
    ensures !TimingOk(FinishedJob(job, Classify(outcome, attempt), now)) <==> job.status == Pending
  {
    match outcome
    case Success =>
    case Failure(_) =>
  }

  // --- Result rows ---

  datatype EvidenceState = Captured | Uploaded | Verified | Referenced | Incomplete

  datatype Observation = Observation(ok: bool, payload: string)

  /** The custody fields finalize_surface is given. */
  datatype Custody = Custody(state: EvidenceState, rec: Option<Record>, reached: Option<string>)

  const NO_RECORD := Custody(Incomplete, None, Some("NONE"))

  datatype Row = Row(attempt: nat, observation: Observation, state: EvidenceState, rec: Option<Record>,
                     reached: Option<string>, verifiedAt: Option<nat>)

  /** The CHECK referenced_has_keys. */
  predicate ReferencedOk(row: Row) {
    row.state == Referenced ==> row.rec.Some? && row.verifiedAt.Some?
  }

  lemma ReferencedExactly(row: Row)
    ensures ReferencedOk(row) <==> row.state != Referenced || (row.rec != None && row.verifiedAt != None)
  {
  }

  function UpsertedRow(attempt: nat, observation: Observation, custody: Custody): Row {
    Row(attempt, observation, custody.state, custody.rec, custody.reached, None)
  }

  function ReferencedRow(row: Row, now: nat): Row {
    if row.state == Uploaded then row.(state := Referenced, verifiedAt := Some(now), reached := None) else row
  }

  function IncompleteRow(row: Row, reached: string): Row {
    row.(state := Incomplete, reached := Some(reached))
  }

  type Jobs = map<string, Job>
  type Results = map<(string, string), Row>

  /** The job `claim_one` takes: claimable, and enqueued before every other claimable one. */
  predicate OldestClaimable(jobs: Jobs, id: string) {
    && id in jobs && Claimable(jobs[id].status)
    && forall other :: other in jobs && Claimable(jobs[other].status) ==> jobs[id].enqueuedAt <= jobs[other].enqueuedAt
  }

  function ReapAll(jobs: Jobs, now: nat): Jobs {
    map id | id in jobs :: if Stalled(jobs[id], now) then ReapedJob(jobs[id], now) else jobs[id]
  }

  lemma {:induction false} OldestExists(jobs: Jobs, candidates: set<string>) returns (id: string)
    requires candidates != {} && candidates <= jobs.Keys
    ensures id in candidates && forall other :: other in candidates ==> jobs[id].enqueuedAt <= jobs[other].enqueuedAt
    decreases |candidates|
  {
    id :| id in candidates;
    if candidates != {id} {
      var rest := OldestExists(jobs, candidates - {id});
      if jobs[rest].enqueuedAt < jobs[id].enqueuedAt {
        id := rest;
      }
    }
  }

  /** In progress, and last beaten for more than 120 seconds ago. */
  predicate DeadFor(job: Job, now: nat) {
    job.status == InProgress && job.heartbeatAt.Some? && job.heartbeatAt.value + 120 < now
  }

  class InspectionTables {
    var jobs: Jobs
    var results: Results

    constructor ()
      ensures jobs == map[] && results == map[] && Valid()
    {
      jobs, results := map[], map[];
    }

    /** Both CHECK constraints hold of every committed row. */
    ghost predicate Valid()
      reads this
    {
      && (forall id :: id in jobs ==> TimingOk(jobs[id]))
      && (forall k :: k in results ==> ReferencedOk(results[k]))
    }

    method ClaimOne(who: string, now: nat) returns (claimed: Option<string>)
      requires Valid()
      modifies this`jobs
      ensures Valid()
      ensures claimed.None? ==> jobs == old(jobs) && forall id :: id in jobs ==> !Claimable(jobs[id].status)
      ensures claimed.Some? ==>
                && OldestClaimable(old(jobs), claimed.value)
                && jobs == old(jobs)[claimed.value := ClaimedJob(old(jobs)[claimed.value], who, now)]
      ensures claimed.None? ==> forall id :: id in jobs ==> jobs[id].status !in {Pending, FailedRetryable}
      ensures claimed.Some? ==>
                var job := old(jobs)[claimed.value];
                && job.status in {Pending, FailedRetryable}
                && (forall id :: id in old(jobs) && old(jobs)[id].status in {Pending, FailedRetryable} ==>
                      job.enqueuedAt <= old(jobs)[id].enqueuedAt)
                && jobs[claimed.value] == job.(status := InProgress, attempts := job.attempts + 1,
                                               startedAt := Some(now), completedAt := None, claimedBy := Some(who),
                                               claimedAt := Some(now), heartbeatAt := Some(now))
    {
      var candidates := set id | id in jobs && Claimable(jobs[id].status);
      assert forall id :: id in jobs && Claimable(jobs[id].status) ==> id in candidates;
      if candidates == {} {
        return None;
      }
      ghost var oldest := OldestExists(jobs, candidates);
      var id :| id in candidates && forall other :: other in candidates ==>
          jobs[id].enqueuedAt <= jobs[other].enqueuedAt;
      jobs := jobs[id := ClaimedJob(jobs[id], who, now)];
      return Some(id);
    }

    method Heartbeat(id: string, now: nat)
      requires Valid()
      modifies this`jobs
      ensures Valid()
      ensures jobs == if id in old(jobs) then old(jobs)[id := BeatJob(old(jobs)[id], now)] else old(jobs)
      ensures id in jobs ==>
                jobs[id] == if old(jobs)[id].status == InProgress then old(jobs)[id].(heartbeatAt := Some(now))
                            else old(jobs)[id]
    {
      if id in jobs {
        jobs := jobs[id := BeatJob(jobs[id], now)];
      }
    }

    /** The UPSERT on (job, surface); REFERENCED is refused as an input state. */
    method FinalizeSurface(id: string, surface: string, attempt: nat, observation: Observation,
                           evidence: Option<Custody>)
      returns (refused: bool)
      requires Valid()
      modifies this`results
      ensures Valid()
      ensures refused <==> evidence.Some? && evidence.value.state == Referenced
      ensures results == if refused then old(results)
                         else old(results)[(id, surface) :=
                                UpsertedRow(attempt, observation, if evidence.Some? then evidence.value else NO_RECORD)]
      ensures !refused ==>
                results[(id, surface)] ==
                if evidence.None? then Row(attempt, observation, Incomplete, None, Some("NONE"), None)
                else Row(attempt, observation, evidence.value.state, evidence.value.rec, evidence.value.reached, None)
    {
      var custody := if evidence.Some? then evidence.value else NO_RECORD;
      refused := custody.state == Referenced;
      if !refused {
        results := results[(id, surface) := UpsertedRow(attempt, observation, custody)];
      }
    }

    /** UPLOADED -> REFERENCED; the CHECK refuses an uploaded row that records no keys. */
    method MarkEvidenceReferenced(id: string, surface: string, now: nat) returns (refused: bool)
      requires Valid()
      modifies this`results
      ensures Valid()
      ensures refused <==> (id, surface) in old(results) &&
                           old(results)[(id, surface)].state == Uploaded && old(results)[(id, surface)].rec.None?
      ensures results == if (id, surface) in old(results) && !refused
                         then old(results)[(id, surface) := ReferencedRow(old(results)[(id, surface)], now)]
                             else old(results)
      ensures (id, surface) in results && !refused ==>
                var row := old(results)[(id, surface)];
                results[(id, surface)] == if row.state != Uploaded then row
                                          else row.(state := Referenced, verifiedAt := Some(now), reached := None)
    {
      refused := false;
      if (id, surface) in results {
        refused := !ReferencedOk(ReferencedRow(results[(id, surface)], now));
        if !refused {
          results := results[(id, surface) := ReferencedRow(results[(id, surface)], now)];
        }
      }
    }

    method SetEvidenceIncomplete(id: string, surface: string, reached: string)
      requires Valid()
      modifies this`results
      ensures Valid()
      ensures results == if (id, surface) in old(results)
                         then old(results)[(id, surface) := IncompleteRow(old(results)[(id, surface)], reached)]
                             else old(results)
      ensures (id, surface) in results ==>
                results[(id, surface)] == old(results)[(id, surface)].(state := Incomplete, reached := Some(reached))
    {
      if (id, surface) in results {
        results := results[(id, surface) := IncompleteRow(results[(id, surface)], reached)];
      }
    }

    /** Returns dead-lease jobs to pending, or parks them once their attempts are used up. */
    method ReapStalled(now: nat) returns (reaped: nat)
      requires Valid()
      modifies this`jobs
      ensures Valid()
      ensures jobs == ReapAll(old(jobs), now)
      ensures reaped == |set id | id in old(jobs) && Stalled(old(jobs)[id], now)|
      ensures jobs.Keys == old(jobs).Keys && reaped == |set id | id in old(jobs) && jobs[id] != old(jobs)[id]|
      ensures forall id :: id in jobs && !DeadFor(old(jobs)[id], now) ==> jobs[id] == old(jobs)[id]
      ensures forall id :: id in jobs && DeadFor(old(jobs)[id], now) ==>
                var job := old(jobs)[id];
                if job.attempts < 5
                then jobs[id] == job.(reaps := job.reaps + 1, status := Pending, startedAt := None, completedAt := None,
                                      claimedBy := None, claimedAt := None, heartbeatAt := None)
                else jobs[id] == job.(reaps := job.reaps + 1, status := FailedPermanent, completedAt := Some(now),
                                      claimedBy := None, claimedAt := None, heartbeatAt := None)
    {
      reaped := |set id | id in jobs && Stalled(jobs[id], now)|;
      ghost var before := jobs;
      ghost var stalled := set id | id in jobs && Stalled(jobs[id], now);
      jobs := ReapAll(jobs, now);
      assert stalled == set id | id in before && jobs[id] != before[id];
    }

    /** mark_succeeded and mark_failed; `refused` is the CHECK violation. */
    method MarkFinished(id: string, outcome: Outcome, attempt: nat, now: nat) returns (status: Status, refused: bool)
      requires Valid()
      modifies this`jobs
      ensures Valid()
      ensures status == Classify(outcome, attempt)
      ensures status == match outcome
                        case Success => Succeeded
                        case Failure(again) => if again && attempt < 5 then FailedRetryable else FailedPermanent
      ensures id in old(jobs) && !refused ==>
                id in jobs &&
                jobs[id] == old(jobs)[id].(status := status, completedAt := Some(now), claimedBy := None,
                                           claimedAt := None, heartbeatAt := None)
      ensures refused <==> id in old(jobs) && old(jobs)[id].status == Pending
      ensures jobs == if refused || id !in old(jobs) then old(jobs)
                      else old(jobs)[id := FinishedJob(old(jobs)[id], status, now)]
    {
      status, refused := Classify(outcome, attempt), false;
      if id in jobs {
        FinishRefusedExactlyWhenPending(jobs[id], "", outcome, attempt, now);
        refused := !TimingOk(FinishedJob(jobs[id], status, now));
        if !refused {
          jobs := jobs[id := FinishedJob(jobs[id], status, now)];
        }
      }
    }
  }
}
