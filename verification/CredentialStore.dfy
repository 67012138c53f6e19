/** The rows that hold credentials: what is encrypted on write, opened on read, and rewritten
    by a key rotation. A falsy value is the empty string. */
module CredentialStore {
  import opened Text
  import opened Crypto

  type Config = map<string, string>

  datatype Connection = Connection(tenant: nat, kind: string, name: string, config: Config)

  datatype Updates = Updates(kind: Option<string>, name: Option<string>, config: Option<Config>)

  const SENSITIVE := map[
    "salesforce" := ["client_id", "client_secret", "password", "jwt_signing_key"],
    "jira" := ["credentials", "api_token"],
    "llm" := ["api_key", "voyage_api_key"]]

  function SensitiveFields(kind: string): seq<string> {
    if kind in SENSITIVE then SENSITIVE[kind] else []
  }

  const CREDENTIAL_FIELDS := ["client_id", "client_secret", "access_token", "refresh_token"]

  // --- Field by field ---

  function Sealed(c: Cipher, key: string, value: string, nonce: nat): string {
    if value != "" && !LooksEncrypted(value) then c.enc(key, value, nonce) else value
  }

  function Rewrapped(c: Cipher, from: string, to: string, value: string, nonce: nat): string {
    if value != "" && c.dec(from, value).Some? then c.enc(to, c.dec(from, value).value, nonce) else value
  }

  function SealedConfig(c: Cipher, key: string, fields: seq<string>, config: Config, salt: string -> nat): Config {
    map f | f in config :: if f in fields then Sealed(c, key, config[f], salt(f)) else config[f]
  }

  function RewrappedConfig(c: Cipher, from: string, to: string, fields: seq<string>, config: Config,
                           salt: string -> nat): Config {
    map f | f in config :: if f in fields then Rewrapped(c, from, to, config[f], salt(f)) else config[f]
  }

  predicate MustSeal(fields: seq<string>, config: Config) {
    exists i :: 0 <= i < |fields| && fields[i] in config && ToSeal(config[fields[i]])
  }

  predicate Touches(c: Cipher, from: string, fields: seq<string>, config: Config) {
    exists i :: 0 <= i < |fields| && fields[i] in config && config[fields[i]] != "" &&
        c.dec(from, config[fields[i]]).Some?
  }

  lemma SealedOneMore(c: Cipher, key: string, fields: seq<string>, f: string, config: Config, salt: string -> nat)
    requires Lawful(c)
    ensures var done := SealedConfig(c, key, fields, config, salt);
            SealedConfig(c, key, fields + [f], config, salt) ==
            if f in config then done[f := Sealed(c, key, done[f], salt(f))] else done
  {
  }

  /** One turn of the loop over the fields. */
  lemma SealTurn(c: Cipher, key: string, fields: seq<string>, i: nat, config: Config, salt: string -> nat)
    requires Lawful(c) && i < |fields|
    ensures var done, f := SealedConfig(c, key, fields[..i], config, salt), fields[i];
            && SealedConfig(c, key, fields[..i + 1], config, salt) ==
               (if f in config then done[f := Sealed(c, key, done[f], salt(f))] else done)
            && (f in config && ToSeal(done[f]) ==> MustSeal(fields, config))
            && (MustSeal(fields[..i + 1], config) ==> MustSeal(fields[..i], config) || (f in config && ToSeal(done[f])))
  {
    assert fields[..i + 1] == fields[..i] + [fields[i]];
    SealedOneMore(c, key, fields[..i], fields[i], config, salt);
    MustSealOneMore(fields[..i], fields[i], config);
    if fields[i] in fields[..i] {
      var k :| 0 <= k < i && fields[..i][k] == fields[i];
    }
  }

  lemma RewrappedOneMore(c: Cipher, from: string, to: string, fields: seq<string>, f: string, config: Config,
                         salt: string -> nat)
    requires Lawful(c) && from != to
    ensures var done := RewrappedConfig(c, from, to, fields, config, salt);
            RewrappedConfig(c, from, to, fields + [f], config, salt) ==
            if f in config then done[f := Rewrapped(c, from, to, done[f], salt(f))] else done
  {
  }

  predicate ToSeal(value: string) {
    value != "" && !LooksEncrypted(value)
  }

  lemma MustSealOneMore(fields: seq<string>, f: string, config: Config)
    ensures MustSeal(fields + [f], config) <==> MustSeal(fields, config) || (f in config && ToSeal(config[f]))
  {
    var more := fields + [f];
    assert more[|fields|] == f;
    assert forall i :: 0 <= i < |fields| ==> more[i] == fields[i];
  }

  lemma TouchesOneMore(c: Cipher, from: string, fields: seq<string>, f: string, config: Config)
    ensures Touches(c, from, fields + [f], config) <==>
            Touches(c, from, fields, config) || (f in config && config[f] != "" && c.dec(from, config[f]).Some?)
  {
    var more := fields + [f];
    assert more[|fields|] == f;
    assert forall i :: 0 <= i < |fields| ==> more[i] == fields[i];
  }

  predicate Opened(c: Cipher, key: string, value: string) {
    value != "" && c.dec(key, value).Some?
  }

  lemma NothingRewrapped(c: Cipher, from: string, to: string, config: Config, salt: string -> nat)
    ensures RewrappedConfig(c, from, to, [], config, salt) == config && !Touches(c, from, [], config)
  {
  }

  /** One turn of the sweep's loop over the fields. */
  lemma RewrapTurn(c: Cipher, from: string, to: string, fields: seq<string>, i: nat, config: Config,
                   salt: string -> nat, done: Config)
    requires Lawful(c) && from != to && i < |fields| && done == RewrappedConfig(c, from, to, fields[..i], config, salt)
    ensures var after, f := RewrappedConfig(c, from, to, fields[..i + 1], config, salt), fields[i];
            if f in done && Opened(c, from, done[f])
            then after == done[f := c.enc(to, c.dec(from, done[f]).value, salt(f))]
                 && Touches(c, from, fields[..i + 1], config)
            else after == done && (Touches(c, from, fields[..i + 1], config) <==> Touches(c, from, fields[..i], config))
  {
    assert fields[..i + 1] == fields[..i] + [fields[i]];
    RewrappedOneMore(c, from, to, fields[..i], fields[i], config, salt);
    TouchesOneMore(c, from, fields[..i], fields[i], config);
    if fields[i] in fields[..i] {
      var k :| 0 <= k < i && fields[..i][k] == fields[i];
    }
  }

  // --- Reading ---

  /** A value is read as p: empty values are passed through, others are opened. */
  predicate ReadAs(c: Cipher, keys: Keys, value: string, p: string) {
    if value == "" then p == "" else Decrypt(c, keys, Some(value)) == Ok(Some(p))
  }

  ghost predicate Readable(c: Cipher, keys: Keys, fields: seq<string>, config: Config, plain: Config) {
    && plain.Keys == config.Keys
    && forall f :: f in config ==> if f in fields then ReadAs(c, keys, config[f], plain[f]) else plain[f] == config[f]
  }

  ghost predicate Unreadable(c: Cipher, keys: Keys, value: string) {
    value != "" && !Decrypt(c, keys, Some(value)).Ok?
  }

  // --- The methods ---

  /** `_encrypt_config`. */
  method EncryptConfig(c: Cipher, keys: Keys, fields: seq<string>, config: Config, salt: string -> nat)
    returns (r: Outcome<Config>)
    requires Lawful(c)
    ensures r == if keys.primary == "" && MustSeal(fields, config) then KeyUnset
                 else Ok(SealedConfig(c, keys.primary, fields, config, salt))
  {
    var result := config;
    for i := 0 to |fields|
      invariant result == SealedConfig(c, keys.primary, fields[..i], config, salt)
      invariant keys.primary == "" ==> !MustSeal(fields[..i], config)
    {
      var f := fields[i];
      SealTurn(c, keys.primary, fields, i, config, salt);
      if f in result && ToSeal(result[f]) {
        if keys.primary == "" {
          return KeyUnset;
        }
        result := result[f := c.enc(keys.primary, result[f], salt(f))];
      }
    }
    assert fields[..|fields|] == fields;
    r := Ok(result);
  }

  /** Opens every sensitive field or fails as a whole: no token is ever handed out as a secret. */
  method DecryptConfig(c: Cipher, keys: Keys, fields: seq<string>, config: Config) returns (r: Option<Config>)
    requires Differ(fields)
    ensures r.Some? ==> Readable(c, keys, fields, config, r.value)
    ensures r.None? <==> exists f :: f in fields && f in config && Unreadable(c, keys, config[f])
  {
    var plain := config;
    for i := 0 to |fields|
      invariant Readable(c, keys, fields[..i], config, plain)
      invariant forall f :: f in fields[..i] && f in config ==> !Unreadable(c, keys, config[f])
    {
      var f := fields[i];
      assert fields[..i + 1] == fields[..i] + [f];
      if f in plain && plain[f] != "" {
        match Decrypt(c, keys, Some(plain[f])) {
          case Ok(Some(p)) => plain := plain[f := p];
          case _ => return None;
        }
      }
    }
    assert fields[..|fields|] == fields;
    r := Some(plain);
  }

  /** A field the old key opens moves to the new one. */
  method RewrapField(c: Cipher, from: string, to: string, f: string, config: Config, nonce: nat)
    returns (result: Config, moved: bool)
    ensures moved <==> f in config && Opened(c, from, config[f])
    ensures result == if moved then config[f := c.enc(to, c.dec(from, config[f]).value, nonce)] else config
  {
    result, moved := config, false;
    if f in config && config[f] != "" {
      var plain := c.dec(from, config[f]);
      if plain.Some? {
        result, moved := config[f := c.enc(to, plain.value, nonce)], true;
      }
    }
  }

  method RewrapConfig(c: Cipher, from: string, to: string, fields: seq<string>, config: Config, salt: string -> nat)
    returns (result: Config, touched: bool)
    requires Lawful(c) && from != to
    ensures result == RewrappedConfig(c, from, to, fields, config, salt)
    ensures touched <==> Touches(c, from, fields, config)
  {
    result, touched := config, false;
    NothingRewrapped(c, from, to, config, salt);
    assert fields[..0] == [];
    for i := 0 to |fields|
      invariant result == RewrappedConfig(c, from, to, fields[..i], config, salt)
      invariant touched <==> Touches(c, from, fields[..i], config)
    {
      RewrapTurn(c, from, to, fields, i, config, salt, result);
      var moved;
      result, moved := RewrapField(c, from, to, fields[i], result, salt(fields[i]));
      touched := touched || moved;
    }
    assert fields[..|fields|] == fields;
  }

  predicate Differ(fields: seq<string>) {
    forall i, j :: 0 <= i < j < |fields| ==> fields[i] != fields[j]
  }

  lemma FieldsDiffer(kind: string)
    ensures Differ(SensitiveFields(kind)) && Differ(CREDENTIAL_FIELDS)
  {
    var s, j, l := SensitiveFields("salesforce"), SensitiveFields("jira"), SensitiveFields("llm");
    assert |s[0]| == 9 && |s[1]| == 13 && |s[2]| == 8 && |s[3]| == 15;
    assert |j[0]| == 11 && |j[1]| == 9;
    assert |l[0]| == 7 && |l[1]| == 14;
    var e := CREDENTIAL_FIELDS;
    assert |e[0]| == 9 && |e[1]| == 13 && |e[2]| == 12 && |e[3]| == 13 && e[1][0] != e[3][0];
  }

  /** encrypt on every value given; access and refresh tokens only when there is one. */
  function StoredCredentials(c: Cipher, key: string, plain: Config, salt: string -> nat): Config {
    map f | f in KeptCredentials(plain) :: c.enc(key, plain[f], salt(f))
  }

  function KeptCredentials(plain: Config): set<string> {
    set f | f in plain && f in CREDENTIAL_FIELDS && (plain[f] != "" || f == "client_id" || f == "client_secret")
  }

  /** Every stored value opens to the text in `plain`. */
  ghost predicate ReadsBack(c: Cipher, keys: Keys, stored: Config, plain: Config) {
    forall f :: f in stored ==> f in plain && Decrypt(c, keys, Some(stored[f])) == Ok(Some(plain[f]))
  }

  lemma StoredReadsBack(c: Cipher, keys: Keys, plain: Config, salt: string -> nat)
    requires Lawful(c) && keys.primary != ""
    ensures var stored := StoredCredentials(c, keys.primary, plain, salt);
            && ReadsBack(c, keys, stored, plain)
            && forall next :: next != "" ==> ReadsBack(c, Keys(next, keys.primary), stored, plain)
  {
    forall f, next | f in KeptCredentials(plain) && next != ""
      ensures var token := c.enc(keys.primary, plain[f], salt(f));
              && Decrypt(c, keys, Some(token)) == Ok(Some(plain[f]))
              && Decrypt(c, Keys(next, keys.primary), Some(token)) == Ok(Some(plain[f]))
    {
      RoundTrip(c, keys, plain[f], salt(f), next);
    }
    forall f | f in KeptCredentials(plain)
      ensures Decrypt(c, keys, Some(c.enc(keys.primary, plain[f], salt(f)))) == Ok(Some(plain[f]))
    {
      RoundTrip(c, keys, plain[f], salt(f), "next");
    }
  }

  datatype Read = Missing | DecryptError | Opened(row: Connection)

  predicate InScope(conn: Connection, tenant: Option<nat>) {
    tenant == None || tenant == Some(0) || conn.tenant == tenant.value
  }

  function Updated(conn: Connection, updates: Updates, config: Config): Connection {
    Connection(conn.tenant, if updates.kind.Some? then updates.kind.value else conn.kind,
               if updates.name.Some? then updates.name.value else conn.name, config)
  }

  function RotatedConnection(c: Cipher, from: string, to: string, conn: Connection, salt: string -> nat): Connection {
    conn.(config := RewrappedConfig(c, from, to, SensitiveFields(conn.kind), conn.config, salt))
  }

  ghost function Touching(c: Cipher, from: string): Connection -> bool {
    (conn: Connection) => Touches(c, from, SensitiveFields(conn.kind), conn.config)
  }

  method RotateConnection(c: Cipher, from: string, to: string, conn: Connection, salt: string -> nat)
    returns (row: Connection, touched: bool)
    requires Lawful(c) && from != to
    ensures row == RotatedConnection(c, from, to, conn, salt)
    ensures touched <==> Touching(c, from)(conn)
    ensures !touched ==> row == conn
  {
    var config, rewritten := RewrapConfig(c, from, to, SensitiveFields(conn.kind), conn.config, salt);
    row, touched := conn.(config := config), rewritten;
    if !touched {
      UntouchedStays(c, from, to, SensitiveFields(conn.kind), conn.config, salt);
    }
  }

  /** `rows` is `before` with every connection outside `left` rotated. */
  ghost predicate RotatedExcept(c: Cipher, from: string, to: string, salts: nat -> string -> nat,
                                before: map<nat, Connection>, rows: map<nat, Connection>, left: set<nat>) {
    && rows.Keys == before.Keys
    && forall id :: id in rows ==>
       rows[id] == if id in left then before[id] else RotatedConnection(c, from, to, before[id], salts(id))
  }

  lemma RotatedOneMore(c: Cipher, from: string, to: string, salts: nat -> string -> nat,
                       before: map<nat, Connection>, rows: map<nat, Connection>, left: set<nat>, id: nat)
    requires id in before && id !in left && RotatedExcept(c, from, to, salts, before, rows, left + {id})
    ensures id in rows && rows[id] == before[id]
    ensures RotatedExcept(c, from, to, salts, before,
            rows[id := RotatedConnection(c, from, to, before[id], salts(id))], left)
  {
  }

  /** The rows not in `left` that p picks. */
  ghost function Picked<T>(rows: map<nat, T>, left: set<nat>, p: T -> bool): set<nat> {
    set id | id in rows && id !in left && p(rows[id])
  }

  lemma PickOne<T>(rows: map<nat, T>, left: set<nat>, id: nat, p: T -> bool)
    requires id in left && id in rows
    ensures |Picked(rows, left - {id}, p)| == |Picked(rows, left, p)| + if p(rows[id]) then 1 else 0
  {
    if p(rows[id]) {
      assert Picked(rows, left - {id}, p) == Picked(rows, left, p) + {id};
    } else {
      assert Picked(rows, left - {id}, p) == Picked(rows, left, p);
    }
  }

  /** The secrets of each kind of connection. */
  predicate Secret(kind: string, f: string) {
    || (kind == "salesforce" && f in {"client_id", "client_secret", "password", "jwt_signing_key"})
    || (kind == "jira" && f in {"credentials", "api_token"})
    || (kind == "llm" && f in {"api_key", "voyage_api_key"})
  }

  lemma SecretExactly(kind: string, f: string)
    ensures f in SensitiveFields(kind) <==> Secret(kind, f)
  {
  }

  /** What a config becomes in the table: secrets that are given and are no tokens are encrypted,
      everything else is kept. */
  ghost predicate KeptSafe(c: Cipher, key: string, kind: string, given: Config, stored: Config, salt: string -> nat) {
    && stored.Keys == given.Keys
    && forall f :: f in given ==>
         stored[f] == if Secret(kind, f) && given[f] != "" && !("gAAAAA" <= given[f]) then c.enc(key, given[f], salt(f))
                      else given[f]
  }

  lemma PrefixExactly(s: string)
    ensures LooksEncrypted(s) <==> "gAAAAA" <= s
  {
  }

  lemma SealedKeepsSafe(c: Cipher, key: string, kind: string, given: Config, salt: string -> nat)
    ensures KeptSafe(c, key, kind, given, SealedConfig(c, key, SensitiveFields(kind), given, salt), salt)
  {
    forall f | f in given
      ensures f in SensitiveFields(kind) <==> Secret(kind, f)
      ensures LooksEncrypted(given[f]) <==> "gAAAAA" <= given[f]
    {
      SecretExactly(kind, f);
      PrefixExactly(given[f]);
    }
  }

  /** Client id and secret always, the two tokens only when there is one. */
  predicate Kept(plain: Config, f: string) {
    f in plain && (f in {"client_id", "client_secret"} || (f in {"access_token", "refresh_token"} && plain[f] != ""))
  }

  lemma KeptExactly(plain: Config)
    ensures forall f :: f in KeptCredentials(plain) <==> Kept(plain, f)
  {
    assert forall f :: f in CREDENTIAL_FIELDS <==> f in {"client_id", "client_secret", "access_token", "refresh_token"};
  }

  class CredentialTables {
    var connections: map<nat, Connection>
    var environments: map<nat, Config>

    constructor ()
      ensures connections == map[] && environments == map[]
    {
      connections, environments := map[], map[];
    }

    /** The config is sealed for the kind the row has before the update. */
    method UpdateConnection(c: Cipher, keys: Keys, id: nat, tenant: Option<nat>, updates: Updates, salt: string -> nat)
      returns (r: Outcome<bool>)
      requires Lawful(c)
      modifies this`connections
      ensures id !in old(connections) || !InScope(old(connections)[id], tenant) ==>
              r == Ok(false) && connections == old(connections)
      ensures id in old(connections) && InScope(old(connections)[id], tenant) ==>
                var conn := old(connections)[id];
                if updates.config.None? then r == Ok(true) &&
                    connections == old(connections)[id := Updated(conn, updates, conn.config)]
                else if keys.primary == "" && MustSeal(SensitiveFields(conn.kind), updates.config.value)
                then r == KeyUnset && connections == old(connections)
                else r == Ok(true) && connections == old(connections)[id :=
                       Updated(conn, updates, SealedConfig(c, keys.primary, SensitiveFields(conn.kind),
                           updates.config.value, salt))]
      ensures connections.Keys == old(connections).Keys
      ensures forall k :: k in connections && k != id ==> connections[k] == old(connections)[k]
      ensures r == Ok(false) <==>
                || id !in old(connections)
                || (tenant.Some? && tenant.value != 0 && old(connections)[id].tenant != tenant.value)
      ensures r != Ok(true) ==> connections == old(connections)
      ensures r == Ok(true) ==>
                var before, after := old(connections)[id], connections[id];
                && after.tenant == before.tenant
                && after.kind == (if updates.kind.Some? then updates.kind.value else before.kind)
                && after.name == (if updates.name.Some? then updates.name.value else before.name)
                && if updates.config.None? then after.config == before.config
                   else KeptSafe(c, keys.primary, before.kind, updates.config.value, after.config, salt)
    {
      if id !in connections || !InScope(connections[id], tenant) {
        return Ok(false);
      }
      var conn := connections[id];
      var config := conn.config;
      if updates.config.Some? {
        var encrypted := EncryptConfig(c, keys, SensitiveFields(conn.kind), updates.config.value, salt);
        if !encrypted.Ok? {
          return KeyUnset;
        }
        config := encrypted.value;
        SealedKeepsSafe(c, keys.primary, conn.kind, updates.config.value, salt);
      }
      connections := connections[id := Updated(conn, updates, config)];
      r := Ok(true);
    }

    /** Fails closed: when any sensitive field cannot be opened the caller gets an error. */
    method GetConnectionDecrypted(c: Cipher, keys: Keys, id: nat, tenant: Option<nat>) returns (r: Read)
      ensures r.Missing? <==> id !in connections || !InScope(connections[id], tenant)
      ensures r.Missing? <==>
                id !in connections || (tenant.Some? && tenant.value != 0 && connections[id].tenant != tenant.value)
      ensures r.DecryptError? <==>
                && id in connections && InScope(connections[id], tenant)
                && exists f :: && f in SensitiveFields(connections[id].kind) && f in connections[id].config
                               && Unreadable(c, keys, connections[id].config[f])
      ensures r.Opened? ==>
                && r.row == connections[id].(config := r.row.config)
                && Readable(c, keys, SensitiveFields(connections[id].kind), connections[id].config, r.row.config)
    {
      if id !in connections || !InScope(connections[id], tenant) {
        return Missing;
      }
      var conn := connections[id];
      FieldsDiffer(conn.kind);
      var plain := DecryptConfig(c, keys, SensitiveFields(conn.kind), conn.config);
      r := if plain.Some? then Opened(conn.(config := plain.value)) else DecryptError;
    }

    /** Every credential given is encrypted, whatever it looks like, and reads back as given, now
        and while its key is the fallback; the other environments are untouched. */
    method StoreCredentials(c: Cipher, keys: Keys, env: nat, plain: Config, salt: string -> nat)
      returns (r: Outcome<()>)
      requires Lawful(c)
      modifies this`environments
      ensures r.Ok? <==> keys.primary != "" || KeptCredentials(plain) == {}
      ensures r.Ok? <==> keys.primary != "" || forall f :: !Kept(plain, f)
      ensures !r.Ok? ==> r == KeyUnset && environments == old(environments)
      ensures r.Ok? ==>
                && environments.Keys == old(environments).Keys + {env}
                && (forall id :: id in old(environments) && id != env ==> environments[id] == old(environments)[id])
                && environments[env] == StoredCredentials(c, keys.primary, plain, salt)
                && environments[env].Keys == KeptCredentials(plain)
                && (forall f :: f in environments[env] <==> Kept(plain, f))
                && (forall f :: f in environments[env] ==> LooksEncrypted(environments[env][f]))
                && ReadsBack(c, keys, environments[env], plain)
                && (forall next :: next != "" ==> ReadsBack(c, Keys(next, keys.primary), environments[env], plain))
    {
      KeptExactly(plain);
      if keys.primary == "" && KeptCredentials(plain) != {} {
        return KeyUnset;
      }
      environments := environments[env := StoredCredentials(c, keys.primary, plain, salt)];
      r := Ok(());
      if keys.primary != "" {
        StoredReadsBack(c, keys, plain, salt);
      }
    }

    /** Opens all of an environment's credentials, or none of them. */
    method GetCredentialsDecrypted(c: Cipher, keys: Keys, env: nat) returns (found: bool, r: Option<Config>)
      ensures found <==> env in environments
      ensures r.Some? ==>
                found && ReadsBack(c, keys, environments[env], r.value) && r.value.Keys == environments[env].Keys
      ensures found && r.None? ==>
                exists f :: f in environments[env] && !Decrypt(c, keys, Some(environments[env][f])).Ok?
    {
      if env !in environments {
        return false, None;
      }
      var config := environments[env];
      var plain: Config := map[];
      var left := config.Keys;
      while left != {}
        invariant left <= config.Keys && plain.Keys == config.Keys - left
        invariant forall f :: f in plain ==> Decrypt(c, keys, Some(config[f])) == Ok(Some(plain[f]))
        decreases left
      {
        var f :| f in left;
        left := left - {f};
        match Decrypt(c, keys, Some(config[f])) {
          case Ok(Some(p)) => plain := plain[f := p];
          case _ => return true, None;
        }
      }
      return true, Some(plain);
    }

    /** Only a row that held a value under the old key is written. */
    method RotateOne(c: Cipher, from: string, to: string, id: nat, salt: string -> nat) returns (touched: bool)
      requires Lawful(c) && from != to && id in connections
      modifies this`connections
      ensures touched <==> Touching(c, from)(old(connections)[id])
      ensures connections == old(connections)[id := RotatedConnection(c, from, to, old(connections)[id], salt)]
      ensures !touched ==> connections == old(connections)
    {
      var row, rewritten := RotateConnection(c, from, to, connections[id], salt);
      if rewritten {
        connections := connections[id := row];
      }
      touched := rewritten;
    }

    /** Re-encrypts every connection; returns how many held a value under the old key. */
    method RotateConnections(c: Cipher, from: string, to: string, salts: nat -> string -> nat) returns (rewritten: nat)
      requires Lawful(c) && from != to
      modifies this`connections
      ensures RotatedExcept(c, from, to, salts, old(connections), connections, {})
      ensures rewritten == |Picked(old(connections), {}, Touching(c, from))|
    {
      ghost var before := connections;
      var left := connections.Keys;
      rewritten := 0;
      while left != {}
        invariant left <= before.Keys && RotatedExcept(c, from, to, salts, before, connections, left)
        invariant rewritten == |Picked(before, left, Touching(c, from))|
        decreases left
      {
        var id :| id in left;
        PickOne(before, left, id, Touching(c, from));
        assert left == left - {id} + {id};
        left := left - {id};
        RotatedOneMore(c, from, to, salts, before, connections, left, id);
        var touched := RotateOne(c, from, to, id, salts(id));
        if touched {
          rewritten := rewritten + 1;
        }
      }
    }

    method RotateEnvironmentCredentials(c: Cipher, from: string, to: string, salts: nat -> string -> nat)
      returns (rewritten: nat)
      requires Lawful(c) && from != to
      modifies this`environments
      ensures environments.Keys == old(environments).Keys
      ensures forall id :: id in environments ==>
                environments[id] == RewrappedConfig(c, from, to, CREDENTIAL_FIELDS, old(environments)[id], salts(id))
      ensures rewritten == |Picked(old(environments), {}, config => Touches(c, from, CREDENTIAL_FIELDS, config))|
    {
      ghost var before, touches := environments, (config: Config) => Touches(c, from, CREDENTIAL_FIELDS, config);
      var left := environments.Keys;
      rewritten := 0;
      while left != {}
        invariant left <= before.Keys == environments.Keys
        invariant forall id :: id in environments ==>
                    environments[id] == if id in left then before[id]
                        else RewrappedConfig(c, from, to, CREDENTIAL_FIELDS, before[id], salts(id))
        invariant rewritten == |Picked(before, left, touches)|
        decreases left
      {
        var id :| id in left;
        PickOne(before, left, id, touches);
        left := left - {id};
        var config, touched := RewrapConfig(c, from, to, CREDENTIAL_FIELDS, environments[id], salts(id));
        environments := environments[id := config];
        if touched {
          rewritten := rewritten + 1;
        }
      }
    }
  }

  lemma UntouchedStays(c: Cipher, from: string, to: string, fields: seq<string>, config: Config, salt: string -> nat)
    requires !Touches(c, from, fields, config)
    ensures RewrappedConfig(c, from, to, fields, config, salt) == config
  {
    forall f | f in config && f in fields
      ensures Rewrapped(c, from, to, config[f], salt(f)) == config[f]
    {
      var i :| 0 <= i < |fields| && fields[i] == f;
    }
  }
}
