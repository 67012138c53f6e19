/** The evidence store: object keys, upload, verification and the orphan sweep. */
module Evidence {
  import opened Text

  newtype byte = x: int | 0 <= x < 256
  type Bytes = seq<byte>

  /** SHA-256 and MD5 hex digests, left abstract. */
  datatype Digests = Digests(sha256: Bytes -> string, md5: Bytes -> string)

  datatype Artifact = Screenshot | ObservationJson

  function FileName(artifact: Artifact): string {
    match artifact
    case Screenshot => "screenshot.png"
    case ObservationJson => "observation.json"
  }

  function ContentType(artifact: Artifact): string {
    match artifact
    case Screenshot => "image/png"
    case ObservationJson => "application/json"
  }

  /** What identifies one uploaded artifact inside a tenant. */
  datatype KeyTag = KeyTag(manifest: string, job: string, surface: string, attempt: nat, artifact: Artifact)

  /** Manifest and job ids are UUIDs: they carry no slash. A surface key may. */
  predicate WellTagged(tag: KeyTag) {
    '/' !in tag.manifest && '/' !in tag.job
  }

  function BuildKey(tenant: string, tag: KeyTag): string {
    tenant + ['/'] + (tag.manifest + ['/'] + (tag.job + ['/'] +
      ((tag.surface + ['/'] + Decimal(tag.attempt)) + ['/'] + FileName(tag.artifact))))
  }

  /** Two artifacts of one tenant never share an object key, even when surface keys
      contain slashes: manifest and job are read off the front, file name and attempt
      off the back, and the surface key is what is left. */
  lemma BuildKeyInjective(tenant: string, s: KeyTag, t: KeyTag)
    requires '/' !in tenant && WellTagged(s) && WellTagged(t)
    requires BuildKey(tenant, s) == BuildKey(tenant, t)
    ensures s == t
  {
    var backS := (s.surface + ['/'] + Decimal(s.attempt)) + ['/'] + FileName(s.artifact);
    var backT := (t.surface + ['/'] + Decimal(t.attempt)) + ['/'] + FileName(t.artifact);
    FirstSplit('/', tenant, s.manifest + ['/'] + (s.job + ['/'] + backS),
               tenant, t.manifest + ['/'] + (t.job + ['/'] + backT));
    FirstSplit('/', s.manifest, s.job + ['/'] + backS, t.manifest, t.job + ['/'] + backT);
    FirstSplit('/', s.job, backS, t.job, backT);
    LastSplit('/', s.surface + ['/'] + Decimal(s.attempt), FileName(s.artifact),
              t.surface + ['/'] + Decimal(t.attempt), FileName(t.artifact));
    assert FileName(Screenshot)[0] == 's' && FileName(ObservationJson)[0] == 'o';
    DecimalHasNoSlash(s.attempt);
    DecimalHasNoSlash(t.attempt);
    LastSplit('/', s.surface, Decimal(s.attempt), t.surface, Decimal(t.attempt));
    DecimalInjective(s.attempt, t.attempt);
  }

  /** tenant/manifest/job/surface/attempt/file. */
  lemma BuildKeyText(tenant: string, tag: KeyTag)
    ensures BuildKey(tenant, tag) ==
            tenant + "/" + tag.manifest + "/" + tag.job + "/" + tag.surface + "/" + Decimal(tag.attempt) + "/" +
            if tag.artifact == Screenshot then "screenshot.png" else "observation.json"
  {
  }

  /** The text before the first slash. */
  function FirstSegment(key: string): string {
    if key == [] || key[0] == '/' then [] else [key[0]] + FirstSegment(key[1..])
  }

  lemma {:induction false} FirstSegmentOf(head: string, rest: string)
    requires '/' !in head
    ensures FirstSegment(head + ['/'] + rest) == head
  {
    if head != [] {
      var s := head + ['/'] + rest;
      assert s[1..] == head[1..] + ['/'] + rest;
      FirstSegmentOf(head[1..], rest);
    }
  }

  lemma BuildKeyStaysInTenant(tenant: string, tag: KeyTag)
    requires '/' !in tenant
    ensures FirstSegment(BuildKey(tenant, tag)) == tenant
  {
    FirstSegmentOf(tenant, tag.manifest + ['/'] + (tag.job + ['/'] +
      ((tag.surface + ['/'] + Decimal(tag.attempt)) + ['/'] + FileName(tag.artifact))));
  }

  /** A key in a tenant's first segment is found by a listing under the tenant prefix. */
  lemma {:induction false} FirstSegmentIsPrefix(key: string)
    ensures FirstSegment(key) <= key
  {
    if key != [] && key[0] != '/' {
      FirstSegmentIsPrefix(key[1..]);
      assert key == [key[0]] + key[1..];
    }
  }

  function TrimSlashes(key: string): string {
    if key != [] && key[0] == '/' then TrimSlashes(key[1..]) else key
  }

  predicate HasDotDot(key: string) {
    exists i :: 0 <= i < |key| - 1 && key[i] == '.' && key[i + 1] == '.'
  }

  /** The tenant guard every key-accepting operation runs first. */
  predicate TenantScoped(tenant: string, key: string) {
    var head := FirstSegment(TrimSlashes(key));
    head != [] && head == tenant && !HasDotDot(key)
  }

  /** The key has the tenant as its first segment, leading slashes apart, and no two dots in a
      row. */
  ghost predicate InTenant(tenant: string, key: string) {
    && tenant != "" && (forall i: nat :: !TwoDots(key, i))
    && exists n: nat :: HeadAt(tenant, key, n)
  }

  predicate TwoDots(key: string, i: nat) {
    i + 2 <= |key| && key[i..i + 2] == ".."
  }

  ghost predicate HeadAt(tenant: string, key: string, n: nat) {
    && n + |tenant| <= |key| && (forall i :: 0 <= i < n ==> key[i] == '/')
    && key[n..n + |tenant|] == tenant && (forall i :: 0 <= i < |tenant| ==> tenant[i] != '/')
    && (n + |tenant| == |key| || key[n + |tenant|] == '/')
  }

  lemma {:induction false} TrimmedAt(key: string) returns (n: nat)
    ensures n <= |key| && TrimSlashes(key) == key[n..] && forall i :: 0 <= i < n ==> key[i] == '/'
    ensures n < |key| ==> key[n] != '/'
  {
    n := 0;
    if key != [] && key[0] == '/' {
      var k := TrimmedAt(key[1..]);
      n := k + 1;
      assert key[1..][k..] == key[n..];
    }
  }

  lemma {:induction false} FirstSegmentEnds(key: string)
    ensures var head := FirstSegment(key);
            && head <= key && (forall i :: 0 <= i < |head| ==> head[i] != '/')
            && (|head| == |key| || key[|head|] == '/')
  {
    if key != [] && key[0] != '/' {
      FirstSegmentEnds(key[1..]);
      assert key == [key[0]] + key[1..];
    }
  }

  lemma DotsExactly(key: string)
    ensures HasDotDot(key) <==> exists i: nat :: TwoDots(key, i)
  {
    forall i: nat | i + 2 <= |key|
      ensures TwoDots(key, i) <==> key[i] == '.' && key[i + 1] == '.'
    {
      assert key[i..i + 2] == [key[i], key[i + 1]];
    }
    if HasDotDot(key) {
      var i :| 0 <= i < |key| - 1 && key[i] == '.' && key[i + 1] == '.';
      assert TwoDots(key, i);
    }
    if i: nat :| TwoDots(key, i) {
      assert key[i] == '.' && key[i + 1] == '.';
    }
  }

  lemma TenantScopedExactly(tenant: string, key: string)
    ensures TenantScoped(tenant, key) <==> InTenant(tenant, key)
  {
    var n := TrimmedAt(key);
    FirstSegmentEnds(key[n..]);
    DotsExactly(key);
    var head := FirstSegment(key[n..]);
    if TenantScoped(tenant, key) {
      assert key[n..][..|head|] == key[n..n + |head|];
      assert HeadAt(tenant, key, n);
    }
    if tenant != "" && exists k: nat :: HeadAt(tenant, key, k) {
      var k: nat :| HeadAt(tenant, key, k);
      HeadsMeet(tenant, key, k, n);
    }
  }

  lemma {:induction false} FirstSegmentWhole(key: string)
    requires '/' !in key
    ensures FirstSegment(key) == key
  {
    if key != [] {
      FirstSegmentWhole(key[1..]);
    }
  }

  lemma HeadsMeet(tenant: string, key: string, k: nat, n: nat)
    requires tenant != "" && HeadAt(tenant, key, k) && n <= |key|
    requires (forall i :: 0 <= i < n ==> key[i] == '/') && (n < |key| ==> key[n] != '/')
    ensures FirstSegment(key[n..]) == tenant
  {
    var rest := key[n..];
    assert key[k] == tenant[0] && k == n;
    if n + |tenant| == |key| {
      assert rest == tenant;
      FirstSegmentWhole(tenant);
    } else {
      assert rest == tenant + ['/'] + rest[|tenant| + 1..];
      FirstSegmentOf(tenant, rest[|tenant| + 1..]);
    }
  }

  // --- Upload ---

  datatype Object = Object(body: Bytes, sha256: string, contentType: string)

  datatype Meta = Meta(key: string, sha256: string, md5: string, size: nat, contentType: string)

  /** The record of one upload, as the result row stores it. */
  datatype Record = Record(shot: Meta, obs: Meta)

  function ObjectOf(d: Digests, body: Bytes, artifact: Artifact): Object {
    Object(body, d.sha256(body), ContentType(artifact))
  }

  function MetaOf(d: Digests, key: string, body: Bytes, artifact: Artifact): Meta {
    Meta(key, d.sha256(body), d.md5(body), |body|, ContentType(artifact))
  }

  /** The object a record entry points at is stored, with exactly the recorded size,
      digests and content type. */
  ghost predicate Stored(d: Digests, objects: map<string, Object>, meta: Meta) {
    && meta.key in objects
    && var found := objects[meta.key];
       && |found.body| == meta.size
       && d.sha256(found.body) == found.sha256 == meta.sha256
       && d.md5(found.body) == meta.md5
       && found.contentType == meta.contentType
  }

  // --- Verification ---

  /** A HEAD answer; the ETag comes without its quotes. */
  datatype Head = Head(contentLength: nat, sha256: Option<string>, etag: string)

  function LowerChar(c: char): char {
    if 'A' <= c <= 'Z' then (c as int + 32) as char else c
  }

  function Lower(s: string): string {
    seq(|s|, i requires 0 <= i < |s| => LowerChar(s[i]))
  }

  predicate HexChar(c: char) {
    '0' <= c <= '9' || 'a' <= c <= 'f'
  }

  /** A plain (single-part) ETag is 32 hex digits. */
  predicate PlainMd5(etag: string) {
    |etag| == 32 && forall i :: 0 <= i < |etag| ==> HexChar(Lower(etag)[i])
  }

  predicate Accepts(meta: Meta, head: Option<Head>) {
    && head.Some?
    && head.value.contentLength == meta.size
    && head.value.sha256 == Some(meta.sha256)
    && (PlainMd5(head.value.etag) ==> Lower(head.value.etag) == meta.md5)
  }

  // --- What an answer has to say, spelled out ---

  function LowerHex(c: char): char {
    match c
    case 'A' => 'a'
    case 'B' => 'b'
    case 'C' => 'c'
    case 'D' => 'd'
    case 'E' => 'e'
    case 'F' => 'f'
    case _ => c
  }

  /** 32 hexadecimal digits, in either case. */
  predicate HexTag(etag: string) {
    |etag| == 32 && forall i :: 0 <= i < 32 ==> etag[i] in "0123456789abcdefABCDEF"
  }

  /** The same digits but for their case; the digest has small ones. */
  predicate SameHex(etag: string, md5: string) {
    |etag| == |md5| && forall i :: 0 <= i < |etag| ==> LowerHex(etag[i]) == md5[i]
  }

  predicate WrongMd5(meta: Meta, head: Head) {
    HexTag(head.etag) && !SameHex(head.etag, meta.md5)
  }

  /** What verification says of one artifact. */
  predicate Shows(meta: Meta, head: Option<Head>, check: Check) {
    if head == None then check == HeadFailed
    else
      var size, sha := head.value.contentLength != meta.size, head.value.sha256 != Some(meta.sha256);
      if size || sha || WrongMd5(meta, head.value) then check == Problems(size, sha, WrongMd5(meta, head.value))
      else check == CheckOk
  }

  lemma HexExactly(etag: string, md5: string)
    ensures HexTag(etag) <==> PlainMd5(etag)
    ensures HexTag(etag) ==> (SameHex(etag, md5) <==> Lower(etag) == md5)
  {
    forall i | 0 <= i < |etag|
      ensures etag[i] in "0123456789abcdefABCDEF" <==> HexChar(Lower(etag)[i])
      ensures etag[i] in "0123456789abcdefABCDEF" ==> Lower(etag)[i] == LowerHex(etag[i])
    {
      HexCharExactly(etag[i]);
    }
  }

  lemma HexCharExactly(c: char)
    ensures c in "0123456789abcdefABCDEF" <==> HexChar(LowerChar(c))
    ensures c in "0123456789abcdefABCDEF" ==> LowerChar(c) == LowerHex(c)
  {
  }

  lemma ShowsExactly(meta: Meta, head: Option<Head>)
    ensures Shows(meta, head, CheckOf(meta, head))
  {
    if head.Some? {
      HexExactly(head.value.etag, meta.md5);
    }
  }

  /** What a store answers about its own objects. */
  ghost predicate Honest(d: Digests, objects: map<string, Object>, key: string, head: Option<Head>) {
    && (head.Some? ==> key in objects)
    && (head.Some? ==>
          && head.value.contentLength == |objects[key].body|
          && head.value.sha256 == Some(objects[key].sha256)
          && (PlainMd5(head.value.etag) ==> Lower(head.value.etag) == d.md5(objects[key].body)))
  }

  /** For an honest answer, verification of a stored record can only fail by the HEAD
      itself failing; and an accepted record has the stored size and checksum. */
  lemma HonestVerification(d: Digests, objects: map<string, Object>, meta: Meta, head: Option<Head>)
    requires Honest(d, objects, meta.key, head)
    ensures Stored(d, objects, meta) ==> (Accepts(meta, head) <==> head.Some?)
    ensures Accepts(meta, head) ==>
              meta.key in objects && |objects[meta.key].body| == meta.size && objects[meta.key].sha256 == meta.sha256
  {
  }

  datatype Check = HeadFailed | Problems(size: bool, sha256: bool, md5: bool) | CheckOk

  function CheckOf(meta: Meta, head: Option<Head>): (c: Check)
    ensures c == CheckOk <==> Accepts(meta, head)
    ensures c == HeadFailed <==> head == None
  {
    match head
    case None => HeadFailed
    case Some(h) =>
      var size := h.contentLength != meta.size;
      var sha := h.sha256 != Some(meta.sha256);
      var md5 := PlainMd5(h.etag) && Lower(h.etag) != meta.md5;
      if size || sha || md5 then Problems(size, sha, md5) else CheckOk
  }

  /** VERIFIED iff every artifact's HEAD confirms existence, size and checksums; all
      artifacts are checked and reported even after one has failed. */
  method VerifyEvidence(rec: Record, head: string -> Option<Head>) returns (ok: bool, detail: map<Artifact, Check>)
    ensures ok <==> Accepts(rec.shot, head(rec.shot.key)) && Accepts(rec.obs, head(rec.obs.key))
    ensures detail.Keys == {Screenshot, ObservationJson}
    ensures detail[Screenshot] == CheckOf(rec.shot, head(rec.shot.key))
    ensures detail[ObservationJson] == CheckOf(rec.obs, head(rec.obs.key))
    ensures Shows(rec.shot, head(rec.shot.key), detail[Screenshot])
    ensures Shows(rec.obs, head(rec.obs.key), detail[ObservationJson])
    ensures ok <==> detail[Screenshot] == detail[ObservationJson] == CheckOk
  {
    ShowsExactly(rec.shot, head(rec.shot.key));
    ShowsExactly(rec.obs, head(rec.obs.key));
    var metas := [(Screenshot, rec.shot), (ObservationJson, rec.obs)];
    ok, detail := true, map[];
    for i := 0 to |metas|
      invariant detail.Keys == set j | 0 <= j < i :: metas[j].0
      invariant forall j :: 0 <= j < i ==> detail[metas[j].0] == CheckOf(metas[j].1, head(metas[j].1.key))
      invariant ok <==> forall j :: 0 <= j < i ==> Accepts(metas[j].1, head(metas[j].1.key))
    {
      var (artifact, meta) := metas[i];
      var check := CheckOf(meta, head(meta.key));
      if check != CheckOk {
        ok := false;
      }
      detail := detail[artifact := check];
    }
    assert ok ==> Accepts(metas[0].1, head(metas[0].1.key)) && Accepts(metas[1].1, head(metas[1].1.key));
    assert detail[metas[0].0] == CheckOf(rec.shot, head(rec.shot.key));
    assert detail[metas[1].0] == CheckOf(rec.obs, head(rec.obs.key));
  }

  // --- The bucket ---

  /** The network's answer to a PUT: a raised error may come after the object was stored. */
  datatype PutAnswer = Acknowledged | Raised(stored: bool)

  predicate Stores(answer: PutAnswer) {
    answer.Acknowledged? || answer.stored
  }

  class Bucket {
    var objects: map<string, Object>

    constructor ()
      ensures objects == map[]
    {
      objects := map[];
    }

    /** One PUT. */
    method PutObject(key: string, content: Object, answer: PutAnswer) returns (ok: bool)
      modifies this
      ensures ok == answer.Acknowledged?
      ensures objects == if Stores(answer) then old(objects)[key := content] else old(objects)
    {
      ok := answer.Acknowledged?;
      if Stores(answer) {
        objects := objects[key := content];
      }
    }

    /** The tenant guard and the first PUT: whether the upload goes on. */
    method PutScreenshot(d: Digests, tenant: string, shotKey: string, obsKey: string, png: Bytes, answer: PutAnswer)
      returns (ok: bool)
      modifies this
      ensures ok <==> TenantScoped(tenant, shotKey) && TenantScoped(tenant, obsKey) && answer.Acknowledged?
      ensures objects ==
                if TenantScoped(tenant, shotKey) && TenantScoped(tenant, obsKey) && Stores(answer)
                then old(objects)[shotKey := ObjectOf(d, png, Screenshot)] else old(objects)
    {
      if !TenantScoped(tenant, shotKey) || !TenantScoped(tenant, obsKey) {
        return false;
      }
      ok := PutObject(shotKey, ObjectOf(d, png, Screenshot), answer);
    }

    /** The second PUT, and the record of both. */
    method PutObservation(d: Digests, shotKey: string, obsKey: string, png: Bytes, obs: Bytes, answer: PutAnswer)
      returns (rec: Option<Record>)
      modifies this
      ensures rec.Some? <==> answer.Acknowledged?
      ensures rec.Some? ==>
                rec.value == Record(MetaOf(d, shotKey, png, Screenshot), MetaOf(d, obsKey, obs, ObservationJson))
      ensures objects ==
                if Stores(answer) then old(objects)[obsKey := ObjectOf(d, obs, ObservationJson)] else old(objects)
    {
      var ok := PutObject(obsKey, ObjectOf(d, obs, ObservationJson), answer);
      return if ok then Some(Record(MetaOf(d, shotKey, png, Screenshot), MetaOf(d, obsKey, obs, ObservationJson)))
             else None;
    }

    /** Uploads the screenshot and then the observation. A PUT that raises ends the upload
        without a record, and whatever was stored stays behind. */
    method PutEvidence(d: Digests, tenant: string, shotKey: string, obsKey: string,
                       png: Bytes, obs: Bytes, put: Artifact -> PutAnswer) returns (rec: Option<Record>)
      requires shotKey != obsKey
      modifies this
      ensures rec.Some? <==>
                && TenantScoped(tenant, shotKey) && TenantScoped(tenant, obsKey)
                && put(Screenshot).Acknowledged? && put(ObservationJson).Acknowledged?
      ensures rec.Some? ==> InTenant(tenant, shotKey) && InTenant(tenant, obsKey)
      ensures InTenant(tenant, shotKey) && InTenant(tenant, obsKey) &&
              put(Screenshot).Acknowledged? && put(ObservationJson).Acknowledged? ==>
                rec == Some(Record(Meta(shotKey, d.sha256(png), d.md5(png), |png|, "image/png"),
                                   Meta(obsKey, d.sha256(obs), d.md5(obs), |obs|, "application/json")))
      ensures rec.Some? ==>
                && rec.value == Record(MetaOf(d, shotKey, png, Screenshot), MetaOf(d, obsKey, obs, ObservationJson))
                && Stored(d, objects, rec.value.shot) && Stored(d, objects, rec.value.obs)
      ensures objects ==
                if !TenantScoped(tenant, shotKey) || !TenantScoped(tenant, obsKey) || !Stores(put(Screenshot))
                    then old(objects)
                else
                  var withShot := old(objects)[shotKey := ObjectOf(d, png, Screenshot)];
                  if put(Screenshot).Acknowledged? && Stores(put(ObservationJson))
                  then withShot[obsKey := ObjectOf(d, obs, ObservationJson)] else withShot
    {
      TenantScopedExactly(tenant, shotKey);
      TenantScopedExactly(tenant, obsKey);
      var ok := PutScreenshot(d, tenant, shotKey, obsKey, png, put(Screenshot));
      if !ok {
        return None;
      }
      rec := PutObservation(d, shotKey, obsKey, png, obs, put(ObservationJson));
    }

    /** Report-only sweep: the listed keys no result row records. The listing is by
        string prefix; a prefix outside the session's tenant is refused. */
    method SweepOrphans(tenant: string, prefix: Option<string>, rows: seq<Option<Record>>)
      returns (refused: bool, orphans: set<string>)
      ensures refused <==> !TenantScoped(tenant, PrefixOr(prefix, tenant))
      ensures refused <==> !InTenant(tenant, if prefix == None then tenant else prefix.value)
      ensures !refused ==>
                forall key :: key in orphans <==>
                  key in objects && PrefixOr(prefix, tenant) <= key && key !in ReferencedKeys(rows)
      ensures !refused ==>
                forall key :: key in orphans <==>
                  && key in objects && (if prefix == None then tenant else prefix.value) <= key
                  && Unrecorded(rows, key)
      ensures refused ==> orphans == {}
    {
      var p := PrefixOr(prefix, tenant);
      refused, orphans := !TenantScoped(tenant, p), {};
      TenantScopedExactly(tenant, p);
      if !refused {
        var listed := set key | key in objects && p <= key;
        var referenced := CollectReferenced(rows);
        orphans := listed - referenced;
        forall key
          ensures Unrecorded(rows, key) <==> key !in ReferencedKeys(rows)
        {
          UnrecordedExactly(rows, key);
        }
      }
    }
  }

  function PrefixOr(prefix: Option<string>, tenant: string): string {
    if prefix.Some? then prefix.value else tenant
  }

  function RecordKeys(rec: Option<Record>): set<string> {
    match rec
    case None => {}
    case Some(r) => {r.shot.key, r.obs.key}
  }

  /** Every object key some result row records. */
  ghost function ReferencedKeys(rows: seq<Option<Record>>): set<string> {
    set i, key | 0 <= i < |rows| && key in RecordKeys(rows[i]) :: key
  }

  /** No row records the key for either of its objects. */
  ghost predicate Unrecorded(rows: seq<Option<Record>>, key: string) {
    forall i :: 0 <= i < |rows| && rows[i] != None ==> key != rows[i].value.shot.key && key != rows[i].value.obs.key
  }

  lemma UnrecordedExactly(rows: seq<Option<Record>>, key: string)
    ensures Unrecorded(rows, key) <==> key !in ReferencedKeys(rows)
  {
    forall i | 0 <= i < |rows|
      ensures key in RecordKeys(rows[i]) <==>
              rows[i] != None && (key == rows[i].value.shot.key || key == rows[i].value.obs.key)
    {
    }
  }

  method CollectReferenced(rows: seq<Option<Record>>) returns (keys: set<string>)
    ensures keys == ReferencedKeys(rows)
  {
    keys := {};
    for i := 0 to |rows|
      invariant keys == ReferencedKeys(rows[..i])
    {
      assert rows[..i + 1][..i] == rows[..i];
      forall key
        ensures key in ReferencedKeys(rows[..i + 1]) <==> key in ReferencedKeys(rows[..i]) + RecordKeys(rows[i])
      {
        if key in RecordKeys(rows[i]) {
          assert rows[..i + 1][i] == rows[i];
        }
        if key in ReferencedKeys(rows[..i]) {
          var j :| 0 <= j < i && key in RecordKeys(rows[..i][j]);
          assert rows[..i + 1][j] == rows[..i][j];
        }
      }
      keys := keys + RecordKeys(rows[i]);
    }
    assert rows[..|rows|] == rows;
  }
}
