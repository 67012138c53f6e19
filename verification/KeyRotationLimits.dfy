/** Where rotation and sealing lose a secret: runs and inputs at which the conditions fail, and the
    exact conditions of a single write. */
module KeyRotationLimits {
  import opened Text
  import opened Crypto
  import opened CredentialStore
  import opened KeyRotation

  const ROW := "connection"
  const FIELD := "api_key"

  /** One connection with one secret, under the given key. */
  function OneSecret(w: Window, key: string, text: string): State {
    State(map[ROW := Row([FIELD], map[FIELD := w.c.enc(key, text, 0)], false)],
          map[ROW := map[FIELD := text]], map[ROW := map[FIELD := text]], map[])
  }

  function Salt(f: string): nat {
    1
  }

  lemma OneSecretReads(w: Window, key: string, text: string)
    requires Proper(w) && (key == w.from || key == w.to)
    ensures Shows(w, OneSecret(w, key, text)) && AllRead(w, Both(w), OneSecret(w, key, text))
    ensures OneSecret(w, key, text).rows[ROW].config[FIELD] != ""
    ensures Touched(w, OneSecret(w, key, text).rows[ROW]) == if key == w.from then {FIELD} else {}
  {
    TokenReads(w, Both(w), key, text, 0);
    var s := OneSecret(w, key, text);
    assert LooksEncrypted(s.rows[ROW].config[FIELD]);
    assert w.c.dec(key, s.rows[ROW].config[FIELD]) == Some(text);
    assert FIELD in s.rows[ROW].fields;
  }

  function WriteOf(value: Value): Step {
    Write(ROW, [FIELD], map[FIELD := value], Salt)
  }

  lemma WriteEnabled(w: Window, s: State, v: Value)
    requires ROW in s.rows && s.rows[ROW].fields == [FIELD] && !s.rows[ROW].columns && Allowed(w, [FIELD], FIELD, v)
    ensures Enabled(w, s, WriteOf(v))
    ensures var s' := Next(w, s, WriteOf(v));
            && ROW in s'.rows && ROW in s'.meant && s'.snaps == s.snaps
            && s'.rows[ROW].fields == [FIELD] && !s'.rows[ROW].columns && s'.meant[ROW] == map[FIELD := v.text]
  {
    assert FIELD in [FIELD];
  }

  /** A step of a run in which every field reads as last written. */
  lemma Onward(w: Window, s: State, step: Step) returns (s': State)
    requires Proper(w) && Shows(w, s) && AllRead(w, Both(w), s) && Enabled(w, s, step) && HarmlessAt(w, s, step)
    ensures s' == Next(w, s, step) && Shows(w, s') && AllRead(w, Both(w), s')
  {
    s' := Next(w, s, step);
    StepShows(w, s, step);
    StepReadsExactly(w, s, step);
  }

  lemma ReadEnabled(w: Window, key: string)
    ensures var s := OneSecret(w, key, "one");
            && Enabled(w, s, Read(ROW))
            && Next(w, s, Read(ROW)) == s.(snaps := map[ROW := Snapshot(s.rows[ROW], map[FIELD := "one"])])
  {
  }

  lemma RunOfThree(w: Window, s0: State, s1: State, s2: State, s3: State, a: Step, b: Step, c: Step)
    requires Enabled(w, s0, a) && s1 == Next(w, s0, a) && Enabled(w, s1, b) && s2 == Next(w, s1, b)
    requires Enabled(w, s2, c) && s3 == Next(w, s2, c)
    ensures Run(w, [s0, s1, s2, s3], [a, b, c])
  {
    var states, steps := [s0, s1, s2, s3], [a, b, c];
    forall i | 0 <= i < 3
      ensures Leads(w, states[i], steps[i], states[i + 1])
    {
    }
  }

  /** The sweep reads the row and the application writes `v`. */
  lemma ReadThenWritten(w: Window, key: string, v: Value) returns (s1: State, s2: State)
    requires Proper(w) && (key == w.from || key == w.to) && Allowed(w, [FIELD], FIELD, v)
    ensures Enabled(w, OneSecret(w, key, "one"), Read(ROW)) && s1 == Next(w, OneSecret(w, key, "one"), Read(ROW))
    ensures Enabled(w, s1, WriteOf(v)) && s2 == Next(w, s1, WriteOf(v)) && Enabled(w, s2, Commit(ROW, Salt))
    ensures Shows(w, s2) && AllRead(w, Both(w), s2) && ROW in s2.meant && s2.meant[ROW] == map[FIELD := v.text]
    ensures s2.snaps == map[ROW := Snapshot(OneSecret(w, key, "one").rows[ROW], map[FIELD := "one"])]
  {
    OneSecretReads(w, key, "one");
    ReadEnabled(w, key);
    s1 := Onward(w, OneSecret(w, key, "one"), Read(ROW));
    WriteEnabled(w, s1, v);
    s2 := Onward(w, s1, WriteOf(v));
  }

  lemma CommitLoses(w: Window, s: State)
    requires Proper(w) && Shows(w, s) && AllRead(w, Both(w), s) && Enabled(w, s, Commit(ROW, Salt))
    requires Touched(w, s.snaps[ROW].row) != {} && !s.snaps[ROW].row.columns && s.meant[ROW] != s.snaps[ROW].shows
    ensures !AllRead(w, Both(w), Next(w, s, Commit(ROW, Salt)))
  {
    CommitReadsExactly(w, s, ROW, Salt);
  }

  /** A secret written between the sweep's read and its commit is lost. */
  lemma LosingRun(w: Window) returns (states: seq<State>, steps: seq<Step>)
    requires Proper(w)
    ensures steps == [Read(ROW), WriteOf(Fresh("two")), Commit(ROW, Salt)]
    ensures Run(w, states, steps) && Shows(w, states[0]) && AllRead(w, Both(w), states[0])
    ensures !AllRead(w, Both(w), states[3])
  {
    assert !LooksEncrypted("two") && "one"[0] != "two"[0];
    assert map[FIELD := "two"][FIELD] != map[FIELD := "one"][FIELD];
    var s0 := OneSecret(w, w.from, "one");
    OneSecretReads(w, w.from, "one");
    var s1, s2 := ReadThenWritten(w, w.from, Fresh("two"));
    var s3 := Next(w, s2, Commit(ROW, Salt));
    states, steps := [s0, s1, s2, s3], [Read(ROW), WriteOf(Fresh("two")), Commit(ROW, Salt)];
    RunOfThree(w, s0, s1, s2, s3, steps[0], steps[1], steps[2]);
    CommitLoses(w, s2);
  }

  /** The same interleaving with a row that was already under the new key loses nothing. */
  lemma UntouchedRun(w: Window) returns (states: seq<State>, steps: seq<Step>)
    requires Proper(w)
    ensures steps == [Read(ROW), WriteOf(Fresh("two")), Commit(ROW, Salt)]
    ensures Run(w, states, steps) && Shows(w, states[0]) && AllRead(w, Both(w), states[0])
    ensures AllRead(w, Both(w), states[3])
  {
    assert !LooksEncrypted("two");
    var s0 := OneSecret(w, w.to, "one");
    OneSecretReads(w, w.to, "one");
    var s1, s2 := ReadThenWritten(w, w.to, Fresh("two"));
    var s3 := Onward(w, s2, Commit(ROW, Salt));
    states, steps := [s0, s1, s2, s3], [Read(ROW), WriteOf(Fresh("two")), Commit(ROW, Salt)];
    RunOfThree(w, s0, s1, s2, s3, steps[0], steps[1], steps[2]);
  }

  /** A request that read the row before the sweep committed hands the old token back: every field
      reads as last written until the old key is dropped. */
  lemma CarriedTokenRun(w: Window) returns (states: seq<State>, steps: seq<Step>)
    requires Proper(w)
    ensures steps == [Read(ROW), Commit(ROW, Salt), WriteOf(Carried(w.from, "one", 0))]
    ensures Run(w, states, steps) && Shows(w, states[0]) && AllRead(w, Both(w), states[3])
    ensures !AllRead(w, NewOnly(w), states[3])
  {
    var v := Carried(w.from, "one", 0);
    var s0, s1, s2 := ReadThenCommitted(w);
    WriteEnabled(w, s2, v);
    var s3 := Onward(w, s2, WriteOf(v));
    states, steps := [s0, s1, s2, s3], [Read(ROW), Commit(ROW, Salt), WriteOf(v)];
    RunOfThree(w, s0, s1, s2, s3, steps[0], steps[1], steps[2]);
    EndsCarried(w, states, steps, v);
  }

  lemma ReadThenCommitted(w: Window) returns (s0: State, s1: State, s2: State)
    requires Proper(w)
    ensures s0 == OneSecret(w, w.from, "one") && Shows(w, s0)
    ensures Enabled(w, s0, Read(ROW)) && s1 == Next(w, s0, Read(ROW))
    ensures Enabled(w, s1, Commit(ROW, Salt)) && s2 == Next(w, s1, Commit(ROW, Salt))
    ensures Shows(w, s2) && AllRead(w, Both(w), s2)
    ensures ROW in s2.rows && s2.rows[ROW].fields == [FIELD] && !s2.rows[ROW].columns
  {
    s0 := OneSecret(w, w.from, "one");
    OneSecretReads(w, w.from, "one");
    ReadEnabled(w, w.from);
    s1 := Onward(w, s0, Read(ROW));
    s2 := SweepsQuietly(w, s1);
  }

  lemma SweepsQuietly(w: Window, s: State) returns (s': State)
    requires Proper(w) && Shows(w, s) && AllRead(w, Both(w), s) && ROW in s.snaps && ROW in s.rows
    requires s.snaps[ROW].shows == s.meant[ROW] && s.rows[ROW].fields == [FIELD] && !s.rows[ROW].columns
    ensures s' == Next(w, s, Commit(ROW, Salt)) && Shows(w, s') && AllRead(w, Both(w), s')
    ensures ROW in s'.rows && s'.rows[ROW].fields == [FIELD] && !s'.rows[ROW].columns
  {
    s' := Onward(w, s, Commit(ROW, Salt));
  }

  lemma EndsCarried(w: Window, states: seq<State>, steps: seq<Step>, v: Value)
    requires Proper(w) && Run(w, states, steps) && Shows(w, states[0]) && |steps| == 3
    requires steps[2] == WriteOf(v) && v.Carried? && v.key == w.from
    ensures !AllRead(w, NewOnly(w), states[3])
  {
    DropIsSafeExactly(w, states, steps);
    StepAt(w, states, steps, 2);
    assert FIELD in steps[2].values && FIELD in steps[2].fields;
    assert CarriesOld(w, steps[2]);
    assert ROW in states[3].rows && !RenewedBy(w, states, steps, 3, ROW);
  }

  // --- The prefix test ---

  /** New text survives a write exactly when it does not look like a token. */
  lemma LookalikeIsLost(w: Window, text: string, nonce: nat)
    requires Proper(w)
    ensures ReadAs(w.c, Both(w), Sealed(w.c, w.to, text, nonce), text) <==> !LooksEncrypted(text)
  {
    if LooksEncrypted(text) {
      NothingOpensToItself(w, text);
    } else {
      WrittenFieldReads(w, Fresh(text), nonce);
    }
  }

  /** A token is longer than its text, so a stored string is never its own plaintext. */
  lemma NothingOpensToItself(w: Window, text: string)
    requires Proper(w)
    ensures ReadAs(w.c, Both(w), text, text) <==> text == ""
  {
    ReadExactly(w.c, Both(w), text, text);
    forall k | Opens(Both(w), k)
      ensures w.c.dec(k, text) != Some(text)
    {
      OnlyTokensOpen(w.c, k, text);
    }
  }

  // --- Changing a connection's kind ---

  /** A row sealed for one kind and read as another. */
  lemma OtherKindReadsExactly(w: Window, before: seq<string>, after: seq<string>, config: Config, text: Config)
    requires Proper(w) && Readable(w.c, Both(w), before, config, text)
    ensures Readable(w.c, Both(w), after, config, text) <==>
            forall f :: f in config && config[f] != "" ==> (f in before <==> f in after)
  {
    forall f | f in config
      ensures (if f in after then ReadAs(w.c, Both(w), config[f], text[f]) else text[f] == config[f]) <==>
              (config[f] != "" ==> (f in before <==> f in after))
    {
      NothingOpensToItself(w, config[f]);
    }
  }

  /** An update of the kind alone keeps a connection readable exactly when the two kinds agree on
      which of its fields are sensitive. */
  lemma KindAloneReadsExactly(w: Window, conn: Connection, kind: string, text: Config)
    requires Proper(w) && Readable(w.c, Both(w), SensitiveFields(conn.kind), conn.config, text)
    ensures var after := Updated(conn, Updates(Some(kind), None, None), conn.config);
            Readable(w.c, Both(w), SensitiveFields(after.kind), after.config, text) <==>
            forall f :: f in conn.config && conn.config[f] != "" ==>
              (f in SensitiveFields(conn.kind) <==> f in SensitiveFields(kind))
  {
    OtherKindReadsExactly(w, SensitiveFields(conn.kind), SensitiveFields(kind), conn.config, text);
  }

  /** An update of kind and config together seals the fields of the old kind, and so keeps the new
      config readable exactly when the two kinds agree on which of its fields are sensitive. */
  lemma KindChangeReadsExactly(w: Window, conn: Connection, kind: string, config: Config, salt: string -> nat)
    requires Proper(w) && forall f :: f in config ==> !LooksEncrypted(config[f])
    ensures var sealed := SealedConfig(w.c, w.to, SensitiveFields(conn.kind), config, salt);
            var after := Updated(conn, Updates(Some(kind), None, Some(config)), sealed);
            Readable(w.c, Both(w), SensitiveFields(after.kind), after.config, config) <==>
            forall f :: f in config && config[f] != "" ==>
              (f in SensitiveFields(conn.kind) <==> f in SensitiveFields(kind))
  {
    var before := SensitiveFields(conn.kind);
    var sealed := SealedConfig(w.c, w.to, before, config, salt);
    forall f | f in config
      ensures f in before ==> ReadAs(w.c, Both(w), sealed[f], config[f])
      ensures sealed[f] == "" <==> config[f] == ""
    {
      WrittenFieldReads(w, Fresh(config[f]), salt(f));
      assert f in before && config[f] != "" ==> LooksEncrypted(sealed[f]);
    }
    OtherKindReadsExactly(w, before, SensitiveFields(kind), sealed, config);
  }

  /** A Jira connection made an LLM one, with its key in the same update: the key is stored in
      the clear and cannot be read. */
  lemma KindChangeLosesAKey(w: Window, salt: string -> nat)
    requires Proper(w)
    ensures var conn := Connection(1, "jira", "tracker", map[]);
            var config := map["api_key" := "secret"];
            var sealed := SealedConfig(w.c, w.to, SensitiveFields(conn.kind), config, salt);
            && sealed == config
            && Unreadable(w.c, Both(w), sealed["api_key"])
            && !Readable(w.c, Both(w), SensitiveFields("llm"), sealed, config)
  {
    var conn := Connection(1, "jira", "tracker", map[]);
    var config := map["api_key" := "secret"];
    JiraAndLlmDiffer();
    assert "secret"[..|TOKEN_PREFIX|][0] == 's' && TOKEN_PREFIX[0] == 'g';
    KindChangeReadsExactly(w, conn, "llm", config, salt);
    forall k
      ensures w.c.dec(k, "secret").None?
    {
      OnlyTokensOpen(w.c, k, "secret");
    }
  }

  lemma JiraAndLlmDiffer()
    ensures "api_key" !in SensitiveFields("jira") && "api_key" in SensitiveFields("llm")
  {
    var jira, llm := SensitiveFields("jira"), SensitiveFields("llm");
    assert |jira| == 2;
    assert |jira[0]| == 11;
    assert |jira[1]| == 9;
    assert |"api_key"| == 7;
    assert llm[0] == "api_key";
  }
}
