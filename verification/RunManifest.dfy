/** Run manifests: what a job may execute is fixed by the manifest it names. */
module RunManifest {
  import opened Text

  datatype Surface = Surface(key: string, url: string)

  /** The auth descriptor of a manifest: a mode and, for the vault, a persona. */
  datatype Auth = Auth(mode: string, persona: Option<string>)

  datatype Pins = Pins(engineRunSet: Option<seq<string>>, census: Option<string>)

  datatype Manifest = Manifest(surfaces: seq<Surface>, stabilisation: string, pins: Pins, auth: Option<Auth>)

  datatype JobPayload = JobPayload(surfaces: seq<Surface>, stabilisation: string,
                                   engineRunSet: Option<seq<string>>, census: Option<string>, auth: Option<Auth>)

  datatype Refusal = ManifestNotFound | UnsupportedAuthMode | VaultNeedsPersona
  datatype Payload = Built(payload: JobPayload) | Refused(why: Refusal)

  const TOTP_ENV := "totp_env"
  const VAULT := "vault"

  /** A persona key counts only when it is non-empty. */
  predicate HasPersona(auth: Auth) {
    auth.persona.Some? && auth.persona.value != ""
  }

  /** The payload the worker executes, derived from the manifest and nothing else. */
  function BuildPayload(m: Manifest): (r: Payload)
    ensures r.Built? ==> r.payload.surfaces == m.surfaces
    ensures r.Built? ==> (r.payload.auth.Some? <==> m.auth.Some?)
    ensures r.Built? && m.auth.Some? ==>
            m.auth.value.mode == TOTP_ENV || (m.auth.value.mode == VAULT && HasPersona(m.auth.value))
  {
    if m.auth.Some? && m.auth.value.mode != TOTP_ENV && m.auth.value.mode != VAULT then
      Refused(UnsupportedAuthMode)
    else if m.auth.Some? && m.auth.value.mode == VAULT && !HasPersona(m.auth.value) then
      Refused(VaultNeedsPersona)
    else
      var auth := match m.auth
        case None => None
        case Some(a) => Some(Auth(a.mode, if HasPersona(a) then a.persona else None));
      Built(JobPayload(m.surfaces, m.stabilisation, m.pins.engineRunSet, m.pins.census, auth))
  }

  function Keys(surfaces: seq<Surface>): set<string> {
    set s | s in surfaces :: s.key
  }

  /** Surface keys identify the surfaces of a manifest. */
  predicate UniqueKeys(surfaces: seq<Surface>) {
    forall i, j :: 0 <= i < j < |surfaces| ==> surfaces[i].key != surfaces[j].key
  }
}
