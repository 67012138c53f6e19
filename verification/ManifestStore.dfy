/** Stored manifests, and enqueueing a job whose payload is built from one. */
module ManifestStore {
  import opened Text
  import opened RunManifest
  import opened JobQueue
  import L = LeaseLedger

  class Manifests {
    var manifests: map<string, Manifest>

    constructor ()
      ensures manifests == map[]
    {
      manifests := map[];
    }

    /** A stored manifest is never changed. */
    method CreateManifest(id: string, m: Manifest)
      requires id !in manifests
      modifies this
      ensures manifests == old(manifests)[id := m]
    {
      manifests := manifests[id := m];
    }

    /** The job executes the manifest and nothing else; a malformed one creates no job. */
    method EnqueueForManifest(tables: InspectionTables, manifestId: string, jobId: string, now: nat)
      returns (why: Option<Refusal>)
      requires tables.Valid() && jobId !in tables.jobs
      modifies tables`jobs
      ensures tables.Valid()
      ensures why == if manifestId !in manifests then Some(ManifestNotFound)
                     else match BuildPayload(manifests[manifestId]) case Refused(r) => Some(r) case Built(_) => None
      ensures why.Some? ==> tables.jobs == old(tables.jobs)
      ensures why.None? ==>
                tables.jobs ==
                old(tables.jobs)[jobId := NewJob(manifestId, BuildPayload(manifests[manifestId]).payload, now)]
      ensures why == if manifestId !in manifests then Some(ManifestNotFound)
                     else match manifests[manifestId].auth
                          case None => None
                          case Some(auth) =>
                            if auth.mode == "totp_env" then None
                            else if auth.mode != "vault" then Some(UnsupportedAuthMode)
                            else if auth.persona in {None, Some("")} then Some(VaultNeedsPersona) else None
      ensures why.None? ==>
                var m := manifests[manifestId];
                && tables.jobs.Keys == old(tables.jobs).Keys + {jobId}
                && tables.jobs[jobId] ==
                   Job(manifestId,
                       JobPayload(m.surfaces, m.stabilisation, m.pins.engineRunSet, m.pins.census,
                                  match m.auth
                                  case None => None
                                  case Some(auth) =>
                                    Some(Auth(auth.mode, if auth.persona == Some("") then None else auth.persona))),
                       L.Pending, 0, 0, now, None, None, None, None, None)
    {
      if manifestId !in manifests {
        return Some(ManifestNotFound);
      }
      var m := manifests[manifestId];
      var payload := JobPayload(m.surfaces, m.stabilisation, m.pins.engineRunSet, m.pins.census, None);
      if m.auth.Some? {
        var auth := m.auth.value;
        if auth.mode != TOTP_ENV && auth.mode != VAULT {
          return Some(UnsupportedAuthMode);
        }
        if auth.mode == VAULT && !HasPersona(auth) {
          return Some(VaultNeedsPersona);
        }
        payload := payload.(auth := Some(Auth(auth.mode, None)));
        if HasPersona(auth) {
          payload := payload.(auth := Some(Auth(auth.mode, auth.persona)));
        }
      }
      tables.jobs := tables.jobs[jobId := NewJob(manifestId, payload, now)];
      why := None;
    }
  }
}
