/** Rotating the credential key while the application keeps writing: reads open tokens of both
    keys, writes use the new one, and the sweep reads its rows first and commits what it made of
    them later. */
module KeyRotation {
  import opened Text
  import opened Crypto
  import opened CredentialStore

  /** A submitted field: new text, or a token the caller read earlier and hands back. */
  datatype Value = Fresh(text: string) | Carried(key: string, text: string, nonce: nat)

  function Submitted(c: Cipher, v: Value): string {
    match v
    case Fresh(text) => text
    case Carried(key, text, nonce) => c.enc(key, text, nonce)
  }

  function SubmittedAll(c: Cipher, values: map<string, Value>): Config {
    map f | f in values :: Submitted(c, values[f])
  }

  /** A row of either table: a connection's config is one column, a credential's fields are
      columns of their own. */
  datatype Row = Row(fields: seq<string>, config: Config, columns: bool)

  /** What the sweep has read of a row; `shows` is the text it stood for. */
  datatype Snapshot = Snapshot(row: Row, shows: Config)

  /** The tables, what the sweep holds of them, and two histories: the text the stored values
      stand for, and the text the application wrote last. */
  datatype State = State(rows: map<string, Row>, shows: map<string, Config>, meant: map<string, Config>,
                         snaps: map<string, Snapshot>)

  datatype Step =
    | Write(id: string, fields: seq<string>, values: map<string, Value>, salt: string -> nat)
    | Store(id: string, plain: Config, salt: string -> nat)
    | Read(id: string)
    | Commit(id: string, salt: string -> nat)

  /** The window's two keys. */
  datatype Window = Window(c: Cipher, from: string, to: string)

  ghost predicate Proper(w: Window) {
    Lawful(w.c) && w.from != "" && w.to != "" && w.from != w.to
  }

  function Both(w: Window): Keys {
    Keys(w.to, w.from)
  }

  function NewOnly(w: Window): Keys {
    Keys(w.to, "")
  }

  /** The text a field of a write stands for; a field that is not sensitive is plain text. */
  function Meaning(w: Window, fields: seq<string>, f: string, v: Value): string {
    if f in fields then v.text else Submitted(w.c, v)
  }

  function Meanings(w: Window, fields: seq<string>, values: map<string, Value>): Config {
    map f | f in values :: Meaning(w, fields, f, values[f])
  }

  /** Sensitive text is not mistaken for a token, and tokens handed back are of the two keys. */
  predicate Allowed(w: Window, fields: seq<string>, f: string, v: Value) {
    f in fields ==>
      match v
      case Fresh(text) => !LooksEncrypted(text)
      case Carried(key, _, _) => key == w.from || key == w.to
  }

  ghost predicate Enabled(w: Window, s: State, step: Step) {
    match step
    case Write(id, fields, values, _) =>
      && (id in s.rows ==> s.rows[id].fields == fields && !s.rows[id].columns)
      && forall f :: f in values ==> Allowed(w, fields, f, values[f])
    case Store(id, _, _) => id in s.rows ==> s.rows[id].fields == CREDENTIAL_FIELDS && s.rows[id].columns
    case Read(id) => id in s.rows
    case Commit(id, _) => id in s.snaps && id in s.rows
  }

  function Written(w: Window, fields: seq<string>, values: map<string, Value>, salt: string -> nat): Row {
    Row(fields, SealedConfig(w.c, w.to, fields, SubmittedAll(w.c, values), salt), false)
  }

  function StoredRow(w: Window, plain: Config, salt: string -> nat): Row {
    Row(CREDENTIAL_FIELDS, StoredCredentials(w.c, w.to, plain, salt), true)
  }

  function Kept(plain: Config): Config {
    map f | f in KeptCredentials(plain) :: plain[f]
  }

  // --- What a commit of the sweep overwrites ---

  /** The sensitive fields that open under the old key. */
  function Touched(w: Window, row: Row): set<string> {
    set f | f in row.config && f in row.fields && row.config[f] != "" && w.c.dec(w.from, row.config[f]).Some?
  }

  /** Such a field is what makes the sweep write the row. */
  lemma TouchedRows(w: Window, row: Row)
    ensures Touched(w, row) != {} <==> Touches(w.c, w.from, row.fields, row.config)
  {
    if f :| f in Touched(w, row) {
      var i :| 0 <= i < |row.fields| && row.fields[i] == f;
    }
    if i :| 0 <= i < |row.fields| && row.fields[i] in row.config && row.config[row.fields[i]] != "" &&
            w.c.dec(w.from, row.config[row.fields[i]]).Some?
    {
      assert row.fields[i] in Touched(w, row);
    }
  }

  function Only(config: Config, keys: set<string>): Config {
    map f | f in config && f in keys :: config[f]
  }

  function Rotated(w: Window, read: Row, salt: string -> nat): Config {
    RewrappedConfig(w.c, w.from, w.to, read.fields, read.config, salt)
  }

  /** A row after the sweep commits what it made of its snapshot: nothing if it re-encrypted
      nothing, else a connection's whole config, or a credential's re-encrypted columns. */
  function Committed(w: Window, row: Row, read: Row, salt: string -> nat): Row {
    if Touched(w, read) == {} then row
    else if read.columns then row.(config := row.config + Only(Rotated(w, read, salt), Touched(w, read)))
    else row.(config := Rotated(w, read, salt))
  }

  /** ... and the text it stands for then. */
  function ShownAfter(w: Window, shows: Config, snap: Snapshot): Config {
    if Touched(w, snap.row) == {} then shows
    else if snap.row.columns then shows + Only(snap.shows, Touched(w, snap.row))
    else snap.shows
  }

  /** What the commit overwrites was not written since the snapshot, or was written with the
      same text. */
  predicate Harmless(w: Window, meant: Config, snap: Snapshot) {
    var touched := Touched(w, snap.row);
    if touched == {} then true
    else if snap.row.columns then
      forall f :: f in touched && f in snap.shows ==> f in meant && meant[f] == snap.shows[f]
    else meant == snap.shows
  }

  ghost function Next(w: Window, s: State, step: Step): State
    requires Enabled(w, s, step)
  {
    match step
    case Write(id, fields, values, salt) =>
      var text := Meanings(w, fields, values);
      s.(rows := s.rows[id := Written(w, fields, values, salt)], shows := s.shows[id := text],
          meant := s.meant[id := text])
    case Store(id, plain, salt) =>
      s.(rows := s.rows[id := StoredRow(w, plain, salt)], shows := s.shows[id := Kept(plain)],
         meant := s.meant[id := Kept(plain)])
    case Read(id) => s.(snaps := s.snaps[id := Snapshot(s.rows[id], ShownBy(s, id))])
    case Commit(id, salt) =>
      var snap := s.snaps[id];
      s.(rows := s.rows[id := Committed(w, s.rows[id], snap.row, salt)],
         shows := s.shows[id := ShownAfter(w, ShownBy(s, id), snap)], snaps := s.snaps - {id})
  }

  function ShownBy(s: State, id: string): Config {
    if id in s.shows then s.shows[id] else map[]
  }

  // --- The stored values always stand for some text ---

  ghost predicate RowReads(w: Window, keys: Keys, row: Row, text: Config) {
    Readable(w.c, keys, row.fields, row.config, text)
  }

  ghost predicate Shows(w: Window, s: State) {
    && s.rows.Keys == s.shows.Keys == s.meant.Keys
    && (forall id :: id in s.rows ==> RowReads(w, Both(w), s.rows[id], s.shows[id]))
    && (forall id :: id in s.snaps ==>
          && id in s.rows && RowReads(w, Both(w), s.snaps[id].row, s.snaps[id].shows)
          && s.snaps[id].row.fields == s.rows[id].fields && s.snaps[id].row.columns == s.rows[id].columns)
  }

  lemma TokenReads(w: Window, keys: Keys, key: string, text: string, nonce: nat)
    requires Lawful(w.c) && keys.primary != "" && Opens(keys, key)
    ensures ReadAs(w.c, keys, w.c.enc(key, text, nonce), text)
  {
    var t := w.c.enc(key, text, nonce);
    assert LooksEncrypted(t) && w.c.dec(key, t) == Some(text);
    ReadExactly(w.c, keys, t, text);
  }

  lemma WrittenFieldReads(w: Window, v: Value, nonce: nat)
    requires Proper(w)
    requires match v case Fresh(text) => !LooksEncrypted(text) case Carried(key, _, _) => key == w.from || key == w.to
    ensures ReadAs(w.c, Both(w), Sealed(w.c, w.to, Submitted(w.c, v), nonce), v.text)
  {
    match v
    case Fresh(text) =>
      if text != "" {
        TokenReads(w, Both(w), w.to, text, nonce);
      }
    case Carried(key, text, n) =>
      assert LooksEncrypted(w.c.enc(key, text, n));
      TokenReads(w, Both(w), key, text, n);
  }

  lemma WriteReads(w: Window, fields: seq<string>, values: map<string, Value>, salt: string -> nat)
    requires Proper(w) && forall f :: f in values ==> Allowed(w, fields, f, values[f])
    ensures RowReads(w, Both(w), Written(w, fields, values, salt), Meanings(w, fields, values))
  {
    forall f | f in values && f in fields
      ensures ReadAs(w.c, Both(w), Sealed(w.c, w.to, Submitted(w.c, values[f]), salt(f)), values[f].text)
    {
      WrittenFieldReads(w, values[f], salt(f));
    }
  }

  lemma StoreReads(w: Window, plain: Config, salt: string -> nat)
    requires Proper(w)
    ensures RowReads(w, Both(w), StoredRow(w, plain, salt), Kept(plain))
  {
    forall f | f in KeptCredentials(plain)
      ensures ReadAs(w.c, Both(w), w.c.enc(w.to, plain[f], salt(f)), plain[f])
    {
      TokenReads(w, Both(w), w.to, plain[f], salt(f));
    }
  }

  lemma RewrappedFieldReads(w: Window, value: string, text: string, nonce: nat)
    requires Proper(w) && ReadAs(w.c, Both(w), value, text)
    ensures ReadAs(w.c, Both(w), Rewrapped(w.c, w.from, w.to, value, nonce), text)
  {
    if value != "" && w.c.dec(w.from, value).Some? {
      ReadExactly(w.c, Both(w), value, text);
      var k :| Opens(Both(w), k) && w.c.dec(k, value) == Some(text);
      OneKey(w.c, k, w.from, value);
      TokenReads(w, Both(w), w.to, text, nonce);
    }
  }

  lemma RotatedReads(w: Window, read: Row, text: Config, salt: string -> nat)
    requires Proper(w) && RowReads(w, Both(w), read, text)
    ensures RowReads(w, Both(w), read.(config := Rotated(w, read, salt)), text)
  {
    forall f | f in read.config && f in read.fields
      ensures ReadAs(w.c, Both(w), Rewrapped(w.c, w.from, w.to, read.config[f], salt(f)), text[f])
    {
      RewrappedFieldReads(w, read.config[f], text[f], salt(f));
    }
  }

  lemma CommitReads(w: Window, row: Row, shows: Config, snap: Snapshot, salt: string -> nat)
    requires Proper(w) && RowReads(w, Both(w), row, shows) && RowReads(w, Both(w), snap.row, snap.shows)
    requires snap.row.fields == row.fields
    ensures RowReads(w, Both(w), Committed(w, row, snap.row, salt), ShownAfter(w, shows, snap))
  {
    RotatedReads(w, snap.row, snap.shows, salt);
  }

  /** One row replaced, by one that stands for some text. */
  lemma ReplacedShows(w: Window, s: State, s': State, id: string, row: Row, text: Config, meant: Config)
    requires Shows(w, s) && RowReads(w, Both(w), row, text)
    requires id in s.rows ==> row.fields == s.rows[id].fields && row.columns == s.rows[id].columns
    requires s'.rows == s.rows[id := row] && s'.shows == s.shows[id := text] && s'.meant == s.meant[id := meant]
    requires forall k :: k in s'.snaps ==> k in s.snaps && s'.snaps[k] == s.snaps[k]
    ensures Shows(w, s')
  {
  }

  lemma StepShows(w: Window, s: State, step: Step)
    requires Proper(w) && Shows(w, s) && Enabled(w, s, step)
    ensures Shows(w, Next(w, s, step))
  {
    match step
    case Write(id, fields, values, salt) =>
      var text := Meanings(w, fields, values);
      WriteReads(w, fields, values, salt);
      ReplacedShows(w, s, Next(w, s, step), id, Written(w, fields, values, salt), text, text);
    case Store(id, plain, salt) =>
      StoreReads(w, plain, salt);
      ReplacedShows(w, s, Next(w, s, step), id, StoredRow(w, plain, salt), Kept(plain), Kept(plain));
    case Read(id) => ReadShows(w, s, id);
    case Commit(id, salt) =>
      CommitShows(w, s, id, salt);
  }

  lemma ReadShows(w: Window, s: State, id: string)
    requires Shows(w, s) && id in s.rows
    ensures Shows(w, Next(w, s, Read(id)))
  {
  }

  lemma CommitShows(w: Window, s: State, id: string, salt: string -> nat)
    requires Proper(w) && Shows(w, s) && Enabled(w, s, Commit(id, salt))
    ensures Shows(w, Next(w, s, Commit(id, salt)))
  {
    var snap := s.snaps[id];
    CommitReads(w, s.rows[id], s.shows[id], snap, salt);
    ReplacedShows(w, s, Next(w, s, Commit(id, salt)), id, Committed(w, s.rows[id], snap.row, salt),
                  ShownAfter(w, s.shows[id], snap), s.meant[id]);
  }

  ghost predicate Run(w: Window, states: seq<State>, steps: seq<Step>) {
    && |states| == |steps| + 1
    && forall i {:trigger Leads(w, states[i], steps[i], states[i + 1])} :: 0 <= i < |steps| ==>
         Leads(w, states[i], steps[i], states[i + 1])
  }

  ghost predicate Leads(w: Window, s: State, step: Step, s': State) {
    Enabled(w, s, step) && s' == Next(w, s, step)
  }

  /** One step of a run. */
  lemma StepAt(w: Window, states: seq<State>, steps: seq<Step>, i: nat)
    requires Run(w, states, steps) && i < |steps|
    ensures Enabled(w, states[i], steps[i]) && states[i + 1] == Next(w, states[i], steps[i])
  {
    assert Leads(w, states[i], steps[i], states[i + 1]);
  }

  lemma {:induction false} ShowsThroughout(w: Window, states: seq<State>, steps: seq<Step>, i: nat)
    requires Proper(w) && Run(w, states, steps) && Shows(w, states[0]) && i < |states|
    ensures Shows(w, states[i])
  {
    if i > 0 {
      ShowsThroughout(w, states, steps, i - 1);
      StepAt(w, states, steps, i - 1);
      StepShows(w, states[i - 1], steps[i - 1]);
    }
  }

  // --- When it is the text written last ---

  ghost predicate AllRead(w: Window, keys: Keys, s: State) {
    s.rows.Keys == s.meant.Keys && forall id :: id in s.rows ==> RowReads(w, keys, s.rows[id], s.meant[id])
  }

  lemma ReadsOneWay(w: Window, keys: Keys, row: Row, m: Config, m': Config)
    requires RowReads(w, keys, row, m) && RowReads(w, keys, row, m')
    ensures m == m'
  {
    forall f | f in row.config
      ensures m[f] == m'[f]
    {
    }
  }

  /** A commit of the sweep leaves a row reading as last written exactly when it overwrites
      nothing, or nothing whose text was changed since the sweep read it. */
  lemma CommitReadsExactly(w: Window, s: State, id: string, salt: string -> nat)
    requires Proper(w) && Shows(w, s) && id in s.snaps && RowReads(w, Both(w), s.rows[id], s.meant[id])
    ensures var s' := Next(w, s, Commit(id, salt));
            && id in s'.rows && s'.meant == s.meant
            && (RowReads(w, Both(w), s'.rows[id], s.meant[id]) <==> Harmless(w, s.meant[id], s.snaps[id]))
  {
    var snap, meant := s.snaps[id], s.meant[id];
    var shown := ShownAfter(w, s.shows[id], snap);
    CommitReads(w, s.rows[id], s.shows[id], snap, salt);
    ReadsOneWay(w, Both(w), s.rows[id], s.shows[id], meant);
    assert RowReads(w, Both(w), Committed(w, s.rows[id], snap.row, salt), shown);
    if RowReads(w, Both(w), Committed(w, s.rows[id], snap.row, salt), meant) {
      ReadsOneWay(w, Both(w), Committed(w, s.rows[id], snap.row, salt), shown, meant);
    }
    ShownExactly(w, meant, snap);
  }

  lemma ShownExactly(w: Window, meant: Config, snap: Snapshot)
    ensures ShownAfter(w, meant, snap) == meant <==> Harmless(w, meant, snap)
  {
    var touched := Touched(w, snap.row);
    if touched != {} && snap.row.columns {
      var part := Only(snap.shows, touched);
      if Harmless(w, meant, snap) {
        assert meant + part == meant;
      } else {
        var f :| f in touched && f in snap.shows && !(f in meant && meant[f] == snap.shows[f]);
        assert f in part;
      }
    }
  }

  /** The sweep's commits of a run, each tested on the state it meets. */
  ghost predicate HarmlessAt(w: Window, s: State, step: Step) {
    step.Commit? && step.id in s.snaps && step.id in s.meant ==> Harmless(w, s.meant[step.id], s.snaps[step.id])
  }

  lemma ReplacedReads(w: Window, s: State, s': State, id: string, row: Row, meant: Config)
    requires AllRead(w, Both(w), s) && s'.rows == s.rows[id := row] && s'.meant == s.meant[id := meant]
    ensures AllRead(w, Both(w), s') <==> RowReads(w, Both(w), row, meant)
  {
    assert s'.rows[id] == row && s'.meant[id] == meant;
  }

  lemma StepReadsExactly(w: Window, s: State, step: Step)
    requires Proper(w) && Shows(w, s) && Enabled(w, s, step) && AllRead(w, Both(w), s)
    ensures AllRead(w, Both(w), Next(w, s, step)) <==> HarmlessAt(w, s, step)
  {
    var s' := Next(w, s, step);
    match step
    case Write(id, fields, values, salt) =>
      WriteReads(w, fields, values, salt);
      ReplacedReads(w, s, s', id, Written(w, fields, values, salt), Meanings(w, fields, values));
    case Store(id, plain, salt) =>
      StoreReads(w, plain, salt);
      ReplacedReads(w, s, s', id, StoredRow(w, plain, salt), Kept(plain));
    case Read(_) =>
    case Commit(id, salt) => CommitStepReadsExactly(w, s, id, salt);
  }

  lemma CommitStepReadsExactly(w: Window, s: State, id: string, salt: string -> nat)
    requires Proper(w) && Shows(w, s) && Enabled(w, s, Commit(id, salt)) && AllRead(w, Both(w), s)
    ensures AllRead(w, Both(w), Next(w, s, Commit(id, salt))) <==> Harmless(w, s.meant[id], s.snaps[id])
  {
    var s' := Next(w, s, Commit(id, salt));
    CommitReadsExactly(w, s, id, salt);
    ReplacedReads(w, s, s', id, Committed(w, s.rows[id], s.snaps[id].row, salt), s.meant[id]);
  }

  /** In any interleaving of writes with a sweep that reads before it commits, every field reads
      as last written all along exactly when every commit is harmless. */
  lemma ReadsThroughoutExactly(w: Window, states: seq<State>, steps: seq<Step>)
    requires Proper(w) && Run(w, states, steps) && Shows(w, states[0]) && AllRead(w, Both(w), states[0])
    ensures (forall i :: 0 <= i < |states| ==> AllRead(w, Both(w), states[i])) <==>
            (forall i :: 0 <= i < |steps| ==> HarmlessAt(w, states[i], steps[i]))
  {
    if forall i :: 0 <= i < |states| ==> AllRead(w, Both(w), states[i]) {
      forall i | 0 <= i < |steps|
        ensures HarmlessAt(w, states[i], steps[i])
      {
        ShowsThroughout(w, states, steps, i);
        StepAt(w, states, steps, i);
        assert AllRead(w, Both(w), states[i + 1]);
        StepReadsExactly(w, states[i], steps[i]);
      }
    }
    if forall i :: 0 <= i < |steps| ==> HarmlessAt(w, states[i], steps[i]) {
      forall i | 0 <= i < |states|
        ensures AllRead(w, Both(w), states[i])
      {
        HarmlessRunReads(w, states, steps, i);
      }
    }
  }

  lemma {:induction false} HarmlessRunReads(w: Window, states: seq<State>, steps: seq<Step>, i: nat)
    requires Proper(w) && Run(w, states, steps) && Shows(w, states[0]) && AllRead(w, Both(w), states[0]) && i < |states|
    requires forall k :: 0 <= k < |steps| ==> HarmlessAt(w, states[k], steps[k])
    ensures AllRead(w, Both(w), states[i])
  {
    if i > 0 {
      HarmlessRunReads(w, states, steps, i - 1);
      ShowsThroughout(w, states, steps, i - 1);
      StepAt(w, states, steps, i - 1);
      StepReadsExactly(w, states[i - 1], steps[i - 1]);
    }
  }

  /** At any moment of any run, harmless or not, a row reads as last written exactly when the
      text its last effective step left is the text written last. */
  lemma RowReadsExactly(w: Window, states: seq<State>, steps: seq<Step>, i: nat, id: string)
    requires Proper(w) && Run(w, states, steps) && Shows(w, states[0]) && i < |states| && id in states[i].rows
    ensures id in states[i].shows && id in states[i].meant
    ensures RowReads(w, Both(w), states[i].rows[id], states[i].meant[id]) <==>
            states[i].shows[id] == states[i].meant[id]
  {
    ShowsThroughout(w, states, steps, i);
    if RowReads(w, Both(w), states[i].rows[id], states[i].meant[id]) {
      ReadsOneWay(w, Both(w), states[i].rows[id], states[i].shows[id], states[i].meant[id]);
    }
  }

  // --- Dropping the old key ---

  /** The fields that need the old key. */
  ghost function OldFields(w: Window, row: Row): set<string> {
    set f | f in row.config && f in row.fields && row.config[f] != "" && w.c.dec(w.to, row.config[f]).None?
  }

  /** Without the old key a row reads as p exactly when it does with both, and needs only the new. */
  lemma DropReadsExactly(w: Window, row: Row, text: Config)
    requires Proper(w)
    ensures RowReads(w, NewOnly(w), row, text) <==> RowReads(w, Both(w), row, text) && OldFields(w, row) == {}
  {
    forall f | f in row.config && f in row.fields && row.config[f] != "" && f in text
      ensures ReadAs(w.c, NewOnly(w), row.config[f], text[f]) <==>
              ReadAs(w.c, Both(w), row.config[f], text[f]) && f !in OldFields(w, row)
    {
    }
  }

  /** The step hands a token of the old key back. */
  ghost predicate CarriesOld(w: Window, step: Step) {
    step.Write? && exists f ::
      f in step.values && f in step.fields && step.values[f].Carried? && step.values[f].key == w.from
  }

  lemma FieldRenewed(w: Window, v: Value, nonce: nat)
    requires Proper(w)
    requires match v case Fresh(text) => !LooksEncrypted(text) case Carried(key, _, _) => key == w.from || key == w.to
    ensures var stored := Sealed(w.c, w.to, Submitted(w.c, v), nonce);
            stored != "" && w.c.dec(w.to, stored).None? <==> v.Carried? && v.key == w.from
  {
    match v
    case Fresh(text) => assert w.c.dec(w.to, w.c.enc(w.to, text, nonce)) == Some(text);
    case Carried(key, text, n) => assert LooksEncrypted(w.c.enc(key, text, n));
  }

  lemma WriteRenews(w: Window, step: Step)
    requires Proper(w) && step.Write? && forall f :: f in step.values ==> Allowed(w, step.fields, f, step.values[f])
    ensures OldFields(w, Written(w, step.fields, step.values, step.salt)) == {} <==> !CarriesOld(w, step)
  {
    var row := Written(w, step.fields, step.values, step.salt);
    forall f | f in step.values && f in step.fields
      ensures f in OldFields(w, row) <==> step.values[f].Carried? && step.values[f].key == w.from
    {
      FieldRenewed(w, step.values[f], step.salt(f));
    }
  }

  lemma StoreRenews(w: Window, plain: Config, salt: string -> nat)
    requires Proper(w)
    ensures OldFields(w, StoredRow(w, plain, salt)) == {}
  {
    forall f | f in KeptCredentials(plain)
      ensures w.c.dec(w.to, w.c.enc(w.to, plain[f], salt(f))).Some?
    {
    }
  }

  lemma RotatedRenews(w: Window, read: Row, text: Config, salt: string -> nat)
    requires Proper(w) && RowReads(w, Both(w), read, text)
    ensures OldFields(w, read.(config := Rotated(w, read, salt))) == {}
  {
    forall f | f in read.config && f in read.fields && read.config[f] != ""
      ensures w.c.dec(w.to, Rewrapped(w.c, w.from, w.to, read.config[f], salt(f))).Some?
    {
      ReadExactly(w.c, Both(w), read.config[f], text[f]);
      var k :| Opens(Both(w), k) && w.c.dec(k, read.config[f]) == Some(text[f]);
      assert k == w.from || k == w.to;
    }
  }

  /** What a commit leaves under the old key: of a connection nothing, of a credential the
      columns it did not set. */
  lemma CommitRenews(w: Window, row: Row, snap: Snapshot, salt: string -> nat)
    requires Proper(w) && RowReads(w, Both(w), snap.row, snap.shows) && snap.row.fields == row.fields
    ensures OldFields(w, Committed(w, row, snap.row, salt)) ==
            if Touched(w, snap.row) == {} then OldFields(w, row)
            else if snap.row.columns then OldFields(w, row) - Touched(w, snap.row) else {}
  {
    RotatedRenews(w, snap.row, snap.shows, salt);
    var rotated := snap.row.(config := Rotated(w, snap.row, salt));
    assert forall f :: f in rotated.config ==> f !in OldFields(w, rotated);
  }

  /** Whether a step on a row leaves it needing only the new key: a write that hands no old token
      back and a commit that re-encrypts do, a credential's commit as far as the sweep had read
      the fields that still need the old key; the other steps leave it as it was. */
  ghost predicate Renews(w: Window, s: State, step: Step, before: bool) {
    match step
    case Write(_, _, _, _) => !CarriesOld(w, step)
    case Store(_, _, _) => true
    case Read(_) => before
    case Commit(id, _) =>
      if id !in s.snaps || id !in s.rows || Touched(w, s.snaps[id].row) == {} then before
      else !s.snaps[id].row.columns || OldFields(w, s.rows[id]) <= Touched(w, s.snaps[id].row)
  }

  /** The last effective step on the row decides whether it still needs the old key. */
  ghost predicate RenewedBy(w: Window, states: seq<State>, steps: seq<Step>, i: nat, id: string)
    requires i <= |steps| && i < |states|
  {
    if i == 0 then NeedsOnlyNew(w, states[0], id)
    else
      var before := RenewedBy(w, states, steps, i - 1, id);
      if steps[i - 1].id == id then Renews(w, states[i - 1], steps[i - 1], before) else before
  }

  ghost predicate NeedsOnlyNew(w: Window, s: State, id: string) {
    id in s.rows && OldFields(w, s.rows[id]) == {}
  }

  lemma StepRenews(w: Window, s: State, step: Step)
    requires Proper(w) && Shows(w, s) && Enabled(w, s, step)
    ensures NeedsOnlyNew(w, Next(w, s, step), step.id) <==> Renews(w, s, step, NeedsOnlyNew(w, s, step.id))
  {
    match step
    case Write(_, _, _, _) => WriteRenews(w, step);
    case Store(_, plain, salt) => StoreRenews(w, plain, salt);
    case Read(_) =>
    case Commit(id, salt) => CommitStepRenews(w, s, id, salt);
  }

  lemma CommitStepRenews(w: Window, s: State, id: string, salt: string -> nat)
    requires Proper(w) && Shows(w, s) && Enabled(w, s, Commit(id, salt))
    ensures NeedsOnlyNew(w, Next(w, s, Commit(id, salt)), id) <==>
            Renews(w, s, Commit(id, salt), NeedsOnlyNew(w, s, id))
  {
    var row, snap := s.rows[id], s.snaps[id];
    CommitRenews(w, row, snap, salt);
    var s' := Next(w, s, Commit(id, salt));
    assert id in s'.rows && s'.rows[id] == Committed(w, row, snap.row, salt);
    if Touched(w, snap.row) != {} && snap.row.columns {
      NothingLeft(OldFields(w, row), Touched(w, snap.row));
    } else if Touched(w, snap.row) == {} {
      assert OldFields(w, s'.rows[id]) == OldFields(w, row);
    }
    assert NeedsOnlyNew(w, s', id) <==> OldFields(w, s'.rows[id]) == {};
  }

  lemma NothingLeft(a: set<string>, b: set<string>)
    ensures a - b == {} <==> a <= b
  {
    if !(a <= b) {
      var x :| x in a && x !in b;
      assert x in a - b;
    }
  }

  lemma OtherRowsKept(w: Window, s: State, step: Step, id: string)
    requires Enabled(w, s, step) && step.id != id && id in Next(w, s, step).rows
    ensures id in s.rows && Next(w, s, step).rows[id] == s.rows[id]
  {
  }

  lemma {:induction false} LastStepDecides(w: Window, states: seq<State>, steps: seq<Step>, i: nat, id: string)
    requires Proper(w) && Run(w, states, steps) && Shows(w, states[0]) && i < |states|
    ensures id in states[i].rows ==> (NeedsOnlyNew(w, states[i], id) <==> RenewedBy(w, states, steps, i, id))
  {
    if i > 0 {
      LastStepDecides(w, states, steps, i - 1, id);
      NextDecides(w, states, steps, i - 1, id, RenewedBy(w, states, steps, i - 1, id));
    }
  }

  lemma NextDecides(w: Window, states: seq<State>, steps: seq<Step>, i: nat, id: string, before: bool)
    requires Proper(w) && Run(w, states, steps) && Shows(w, states[0]) && i < |steps|
    requires id in states[i].rows ==> (NeedsOnlyNew(w, states[i], id) <==> before)
    ensures id in states[i + 1].rows ==>
              (NeedsOnlyNew(w, states[i + 1], id) <==>
                 if steps[i].id == id then Renews(w, states[i], steps[i], before) else before)
  {
    ShowsThroughout(w, states, steps, i);
    StepAt(w, states, steps, i);
    StepDecides(w, states[i], steps[i], id, before);
  }

  lemma StepDecides(w: Window, s: State, step: Step, id: string, before: bool)
    requires Proper(w) && Shows(w, s) && Enabled(w, s, step)
    requires id in s.rows ==> (NeedsOnlyNew(w, s, id) <==> before)
    ensures var s' := Next(w, s, step);
            id in s'.rows ==>
              (NeedsOnlyNew(w, s', id) <==> if step.id == id then Renews(w, s, step, before) else before)
  {
    if step.id == id {
      if id !in s.rows {
        NewRowsAreWritten(w, s, step);
      }
      StepRenews(w, s, step);
    } else if id in Next(w, s, step).rows {
      OtherRowsKept(w, s, step, id);
    }
  }

  /** A row that did not exist is not read or committed. */
  lemma NewRowsAreWritten(w: Window, s: State, step: Step)
    requires Enabled(w, s, step) && step.id !in s.rows
    ensures step.Write? || step.Store?
  {
  }

  /** After any run the old key can be dropped without losing a field exactly when every field
      reads as last written and every row was renewed by its last effective step. */
  lemma DropIsSafeExactly(w: Window, states: seq<State>, steps: seq<Step>)
    requires Proper(w) && Run(w, states, steps) && Shows(w, states[0])
    ensures var last := states[|steps|];
            AllRead(w, NewOnly(w), last) <==>
            AllRead(w, Both(w), last) && forall id :: id in last.rows ==> RenewedBy(w, states, steps, |steps|, id)
  {
    var last := states[|steps|];
    ShowsThroughout(w, states, steps, |steps|);
    forall id | id in last.rows
      ensures RowReads(w, NewOnly(w), last.rows[id], last.meant[id]) <==>
              RowReads(w, Both(w), last.rows[id], last.meant[id]) && RenewedBy(w, states, steps, |steps|, id)
    {
      DropReadsExactly(w, last.rows[id], last.meant[id]);
      LastStepDecides(w, states, steps, |steps|, id);
    }
  }

  /** A sweep that commits each row as it reads it loses nothing and renews the row. */
  lemma AtomicRotation(w: Window, s: State, id: string, salt: string -> nat)
    requires Proper(w) && Shows(w, s) && id in s.rows && RowReads(w, Both(w), s.rows[id], s.meant[id])
    ensures var s' := Next(w, Next(w, s, Read(id)), Commit(id, salt));
            id in s'.rows && RowReads(w, Both(w), s'.rows[id], s.meant[id]) && OldFields(w, s'.rows[id]) == {}
  {
    var s1 := Next(w, s, Read(id));
    ReadShows(w, s, id);
    ReadsOneWay(w, Both(w), s.rows[id], s.shows[id], s.meant[id]);
    assert s1.rows == s.rows && s1.meant == s.meant && s1.snaps[id] == Snapshot(s.rows[id], s.meant[id]);
    CurrentCommit(w, s1, id, salt);
  }

  lemma CurrentCommit(w: Window, s: State, id: string, salt: string -> nat)
    requires Proper(w) && Shows(w, s) && id in s.rows && RowReads(w, Both(w), s.rows[id], s.meant[id])
    requires id in s.snaps && s.snaps[id] == Snapshot(s.rows[id], s.meant[id])
    ensures var s' := Next(w, s, Commit(id, salt));
            id in s'.rows && RowReads(w, Both(w), s'.rows[id], s.meant[id]) && OldFields(w, s'.rows[id]) == {}
  {
    CommitReadsExactly(w, s, id, salt);
    CommitRenews(w, s.rows[id], s.snaps[id], salt);
    OldIsTouched(w, s.rows[id], s.meant[id]);
  }

  lemma OldIsTouched(w: Window, row: Row, text: Config)
    requires Proper(w) && RowReads(w, Both(w), row, text)
    ensures OldFields(w, row) == Touched(w, row)
  {
    forall f | f in row.config && f in row.fields && row.config[f] != ""
      ensures f in OldFields(w, row) <==> f in Touched(w, row)
    {
      ReadExactly(w.c, Both(w), row.config[f], text[f]);
      var k :| Opens(Both(w), k) && w.c.dec(k, row.config[f]) == Some(text[f]);
      if w.c.dec(w.from, row.config[f]).Some? && w.c.dec(w.to, row.config[f]).Some? {
        OneKey(w.c, w.from, w.to, row.config[f]);
      }
    }
  }
}
