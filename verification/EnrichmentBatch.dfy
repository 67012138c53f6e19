/** What one embedding batch decides for each of its rows: the rows are grouped by the key of
    their org's environment and each group is embedded by one call. */
module EnrichmentBatch {
  import opened Text
  import opened Bags
  import opened Folding
  import opened EnrichmentBooks
  import L = LeaseLedger

  datatype Reply = Vectors(vectors: seq<Vector>) | VoyageError(retryable: bool)

  datatype Resolved = Returned(key: Option<string>) | Raised

  /** All a tick reads, and the two services it calls. */
  datatype World = World(
    texts: map<string, Option<string>>, orgs: map<string, Option<string>>, envs: map<string, Option<string>>,
    resolver: string -> Resolved, voyage: (seq<string>, string) -> Reply)

  function TextOf(w: World, entity: string): string {
    if entity in w.texts && w.texts[entity].Some? then w.texts[entity].value else ""
  }

  function OrgOf(w: World, entity: string): Option<string> {
    if entity in w.orgs then w.orgs[entity] else None
  }

  /** A row without usable text. */
  predicate Blank(w: World, r: Claimed) {
    Strip(TextOf(w, r.entity)) == ""
  }

  function ResolvedKey(answer: Resolved): Option<string> {
    match answer
    case Raised => None
    case Returned(None) => None
    case Returned(Some(key)) => if Strip(key) == "" then None else Some(Strip(key))
  }

  /** The ids `_resolve_org_keys` looks up. */
  predicate Named(org: string) {
    org != "" && org != "None"
  }

  function KeyOfEnv(w: World, env: Option<string>): Option<string> {
    if env.None? then None else ResolvedKey(w.resolver(env.value))
  }

  function EnvOf(w: World, org: string): Option<string> {
    if org in w.envs then w.envs[org] else None
  }

  function KeyOfOrg(w: World, org: Option<string>): Option<string> {
    if org.Some? && Named(org.value) then KeyOfEnv(w, EnvOf(w, org.value)) else None
  }

  function KeyOf(w: World, r: Claimed): Option<string> {
    KeyOfOrg(w, OrgOf(w, r.entity))
  }

  function BlankRows(w: World, rows: seq<Claimed>): seq<Claimed> {
    if rows == [] then []
    else BlankRows(w, rows[..|rows| - 1]) + if Blank(w, rows[|rows| - 1]) then [rows[|rows| - 1]] else []
  }

  predicate InGroup(w: World, r: Claimed, key: Option<string>) {
    !Blank(w, r) && KeyOf(w, r) == key
  }

  function Group(w: World, rows: seq<Claimed>, key: Option<string>): seq<Claimed> {
    if rows == [] then []
    else Group(w, rows[..|rows| - 1], key) + if InGroup(w, rows[|rows| - 1], key) then [rows[|rows| - 1]] else []
  }

  function Texts(w: World, group: seq<Claimed>): seq<string> {
    seq(|group|, i requires 0 <= i < |group| => TextOf(w, group[i].entity))
  }

  function ReplyFor(w: World, group: seq<Claimed>, key: string): Reply {
    w.voyage(Texts(w, group), key)
  }

  /** The fate of the i-th row of a group. */
  function GroupOutcome(w: World, group: seq<Claimed>, key: Option<string>, i: nat): RowOutcome
    requires i < |group|
  {
    match key
    case None => Failed(false)
    case Some(k) =>
      match ReplyFor(w, group, k)
      case VoyageError(retryable) => Failed(retryable)
      case Vectors(vectors) => if |vectors| != |group| then Failed(true) else Done(Some(vectors[i]))
  }

  function IndexOf(group: seq<Claimed>, r: Claimed): (i: nat)
    requires r in group
    ensures i < |group| && group[i] == r
  {
    if group[0] == r then 0 else 1 + IndexOf(group[1..], r)
  }

  function BatchOutcome(w: World, rows: seq<Claimed>, r: Claimed): RowOutcome {
    if Blank(w, r) then Done(None)
    else
      var group := Group(w, rows, KeyOf(w, r));
      if r in group then GroupOutcome(w, group, KeyOf(w, r), IndexOf(group, r)) else Failed(false)
  }

  ghost function Outcomes(w: World, rows: seq<Claimed>): Claimed -> RowOutcome {
    r => BatchOutcome(w, rows, r)
  }

  ghost function Orgs(w: World): string -> Option<string> {
    e => OrgOf(w, e)
  }

  // --- Groups partition the batch ---

  lemma {:induction false} GroupMembers(w: World, rows: seq<Claimed>, key: Option<string>, r: Claimed)
    ensures r in Group(w, rows, key) <==> r in rows && InGroup(w, r, key)
  {
    if rows != [] {
      GroupMembers(w, rows[..|rows| - 1], key, r);
      assert rows == rows[..|rows| - 1] + [rows[|rows| - 1]];
    }
  }

  lemma {:induction false} GroupHasDistinctIds(w: World, rows: seq<Claimed>, key: Option<string>)
    requires DistinctIds(rows)
    ensures DistinctIds(Group(w, rows, key))
  {
    if rows != [] {
      var n := |rows| - 1;
      GroupHasDistinctIds(w, rows[..n], key);
      var init := Group(w, rows[..n], key);
      forall i | 0 <= i < |init|
        ensures init[i].id != rows[n].id
      {
        GroupMembers(w, rows[..n], key, init[i]);
        var k :| 0 <= k < n && rows[..n][k] == init[i];
      }
    }
  }

  /** The keys of the rows with text, in order of first appearance. */
  function FirstSeen(w: World, rows: seq<Claimed>): seq<Option<string>> {
    if rows == [] then []
    else
      var before, r := FirstSeen(w, rows[..|rows| - 1]), rows[|rows| - 1];
      if Blank(w, r) || KeyOf(w, r) in before then before else before + [KeyOf(w, r)]
  }

  /** The dict of groups after `rows`, its keys in order of insertion. */
  ghost predicate Grouped(w: World, rows: seq<Claimed>, keys: seq<Option<string>>,
                          groups: map<Option<string>, seq<Claimed>>) {
    && keys == FirstSeen(w, rows) && DistinctKeys(keys)
    && (forall k :: k in keys <==> k in groups)
    && HoldsGroups(w, rows, groups)
    && KeysCover(w, rows, keys)
  }

  ghost predicate HoldsGroups(w: World, rows: seq<Claimed>, groups: map<Option<string>, seq<Claimed>>) {
    forall k :: k in groups ==> groups[k] == Group(w, rows, k)
  }

  ghost predicate KeysCover(w: World, rows: seq<Claimed>, keys: seq<Option<string>>) {
    forall r :: r in rows && !Blank(w, r) ==> KeyOf(w, r) in keys
  }

  lemma NothingGrouped(w: World)
    ensures Grouped(w, [], [], map[])
  {
  }

  lemma GroupedRow(w: World, rows: seq<Claimed>, r: Claimed, keys: seq<Option<string>>,
                   groups: map<Option<string>, seq<Claimed>>)
    requires Grouped(w, rows, keys, groups) && !Blank(w, r)
    ensures Grouped(w, rows + [r], KeysWith(keys, KeyOf(w, r)), GroupsWith(groups, KeyOf(w, r), r))
  {
    NoKeyNoGroup(w, rows, keys, groups, KeyOf(w, r));
    KeysAfter(w, rows, r, keys);
    GroupsAfter(w, rows, r, groups);
  }

  function KeysWith(keys: seq<Option<string>>, key: Option<string>): seq<Option<string>> {
    if key in keys then keys else keys + [key]
  }

  function GroupsWith(groups: map<Option<string>, seq<Claimed>>, key: Option<string>, r: Claimed)
    : map<Option<string>, seq<Claimed>>
  {
    groups[key := (if key in groups then groups[key] else []) + [r]]
  }

  lemma GroupsAfter(w: World, rows: seq<Claimed>, r: Claimed, groups: map<Option<string>, seq<Claimed>>)
    requires HoldsGroups(w, rows, groups) && !Blank(w, r)
    requires KeyOf(w, r) !in groups ==> Group(w, rows, KeyOf(w, r)) == []
    ensures HoldsGroups(w, rows + [r], GroupsWith(groups, KeyOf(w, r), r))
  {
    var more := GroupsWith(groups, KeyOf(w, r), r);
    forall k | k in more
      ensures more[k] == Group(w, rows + [r], k)
    {
      GroupAppend(w, rows, r, k);
    }
  }

  lemma NoKeyNoGroup(w: World, rows: seq<Claimed>, keys: seq<Option<string>>,
                     groups: map<Option<string>, seq<Claimed>>, key: Option<string>)
    requires Grouped(w, rows, keys, groups)
    ensures key !in groups ==> Group(w, rows, key) == []
  {
    if key !in groups && Group(w, rows, key) != [] {
      GroupMembers(w, rows, key, Group(w, rows, key)[0]);
    }
  }

  lemma KeysAfter(w: World, rows: seq<Claimed>, r: Claimed, keys: seq<Option<string>>)
    requires keys == FirstSeen(w, rows) && DistinctKeys(keys) && KeysCover(w, rows, keys) && !Blank(w, r)
    ensures var keys' := KeysWith(keys, KeyOf(w, r));
            && keys' == FirstSeen(w, rows + [r]) && DistinctKeys(keys') && KeysCover(w, rows + [r], keys')
            && forall k :: k in keys' <==> k in keys || k == KeyOf(w, r)
  {
    assert (rows + [r])[..|rows|] == rows;
  }

  lemma GroupAppend(w: World, rows: seq<Claimed>, r: Claimed, key: Option<string>)
    ensures Group(w, rows + [r], key) == Group(w, rows, key) + if InGroup(w, r, key) then [r] else []
  {
    assert (rows + [r])[..|rows|] == rows;
  }

  /** The rows with usable text. */
  function Embeddable(w: World, rows: seq<Claimed>): seq<Claimed> {
    if rows == [] then []
    else Embeddable(w, rows[..|rows| - 1]) + if Blank(w, rows[|rows| - 1]) then [] else [rows[|rows| - 1]]
  }

  lemma {:induction false} EmbeddableMembers(w: World, rows: seq<Claimed>)
    ensures forall r :: r in Embeddable(w, rows) <==> r in rows && !Blank(w, r)
  {
    if rows != [] {
      EmbeddableMembers(w, rows[..|rows| - 1]);
      assert rows == rows[..|rows| - 1] + [rows[|rows| - 1]];
    }
  }

  lemma {:induction false} GroupOfEmbeddable(w: World, rows: seq<Claimed>, key: Option<string>)
    ensures Group(w, Embeddable(w, rows), key) == Group(w, rows, key)
  {
    if rows != [] {
      var n := |rows| - 1;
      GroupOfEmbeddable(w, rows[..n], key);
      EmbeddableAppend(w, rows);
      assert rows == rows[..n] + [rows[n]];
      GroupAppend(w, rows[..n], rows[n], key);
      GroupAppend(w, Embeddable(w, rows[..n]), rows[n], key);
    }
  }

  lemma {:induction false} FirstSeenOfEmbeddable(w: World, rows: seq<Claimed>)
    ensures FirstSeen(w, Embeddable(w, rows)) == FirstSeen(w, rows)
  {
    if rows != [] {
      var n := |rows| - 1;
      FirstSeenOfEmbeddable(w, rows[..n]);
      EmbeddableAppend(w, rows);
      assert rows == rows[..n] + [rows[n]];
      FirstSeenAppend(w, rows[..n], rows[n]);
      FirstSeenAppend(w, Embeddable(w, rows[..n]), rows[n]);
    }
  }

  lemma EmbeddableAppend(w: World, rows: seq<Claimed>)
    requires rows != []
    ensures var init, r := Embeddable(w, rows[..|rows| - 1]), rows[|rows| - 1];
            Embeddable(w, rows) == if Blank(w, r) then init else init + [r]
  {
  }

  lemma FirstSeenAppend(w: World, rows: seq<Claimed>, r: Claimed)
    ensures var before := FirstSeen(w, rows);
            FirstSeen(w, rows + [r]) ==
            if Blank(w, r) || KeyOf(w, r) in before then before else before + [KeyOf(w, r)]
  {
    assert (rows + [r])[..|rows|] == rows;
  }

  lemma GroupedEmbeddable(w: World, rows: seq<Claimed>, keys: seq<Option<string>>,
                          groups: map<Option<string>, seq<Claimed>>)
    requires Grouped(w, Embeddable(w, rows), keys, groups)
    ensures Grouped(w, rows, keys, groups)
  {
    EmbeddableMembers(w, rows);
    FirstSeenOfEmbeddable(w, rows);
    forall k | k in groups
      ensures groups[k] == Group(w, rows, k)
    {
      GroupOfEmbeddable(w, rows, k);
    }
  }

  /** The groups of the given keys, one after another. */
  function Gathered(w: World, rows: seq<Claimed>, keys: seq<Option<string>>): seq<Claimed> {
    if keys == [] then [] else Gathered(w, rows, keys[..|keys| - 1]) + Group(w, rows, keys[|keys| - 1])
  }

  ghost predicate DistinctKeys(keys: seq<Option<string>>) {
    forall i, j :: 0 <= i < j < |keys| ==> keys[i] != keys[j]
  }

  lemma GroupGrows(w: World, rows: seq<Claimed>, key: Option<string>)
    requires rows != []
    ensures var r := rows[|rows| - 1];
            multiset(Group(w, rows, key)) == multiset(Group(w, rows[..|rows| - 1], key))
                + if InGroup(w, r, key) then multiset{r} else multiset{}
  {
  }

  /** What one row adds to the groups of the given keys. */
  ghost function Share(w: World, r: Claimed, keys: seq<Option<string>>): multiset<Claimed> {
    if !Blank(w, r) && KeyOf(w, r) in keys then multiset{r} else multiset{}
  }

  lemma ShareSplits(w: World, r: Claimed, keys: seq<Option<string>>)
    requires keys != [] && DistinctKeys(keys)
    ensures Share(w, r, keys) ==
            Share(w, r, keys[..|keys| - 1]) + if InGroup(w, r, keys[|keys| - 1]) then multiset{r} else multiset{}
  {
    assert keys == keys[..|keys| - 1] + [keys[|keys| - 1]];
  }

  lemma BothGrow(a: seq<Claimed>, a': seq<Claimed>, b: seq<Claimed>, b': seq<Claimed>, x: multiset<Claimed>,
                 y: multiset<Claimed>)
    requires multiset(a) == multiset(a') + x && multiset(b) == multiset(b') + y
    ensures multiset(a + b) == multiset(a' + b') + (x + y)
  {
  }

  lemma {:induction false} GatheredGrows(w: World, rows: seq<Claimed>, keys: seq<Option<string>>)
    requires rows != [] && DistinctKeys(keys)
    ensures multiset(Gathered(w, rows, keys)) ==
            multiset(Gathered(w, rows[..|rows| - 1], keys)) + Share(w, rows[|rows| - 1], keys)
    decreases |keys|
  {
    if keys != [] {
      var k := |keys| - 1;
      var r, init := rows[|rows| - 1], rows[..|rows| - 1];
      GatheredGrows(w, rows, keys[..k]);
      GroupGrows(w, rows, keys[k]);
      ShareSplits(w, r, keys);
      BothGrow(Gathered(w, rows, keys[..k]), Gathered(w, init, keys[..k]), Group(w, rows, keys[k]),
          Group(w, init, keys[k]),
               Share(w, r, keys[..k]), if InGroup(w, r, keys[k]) then multiset{r} else multiset{});
    }
  }

  lemma {:induction false} NothingGathered(w: World, keys: seq<Option<string>>)
    ensures Gathered(w, [], keys) == []
  {
    if keys != [] {
      NothingGathered(w, keys[..|keys| - 1]);
    }
  }

  lemma BlankRowsGrow(w: World, rows: seq<Claimed>)
    requires rows != []
    ensures var r := rows[|rows| - 1];
            multiset(BlankRows(w, rows)) == multiset(BlankRows(w, rows[..|rows| - 1])) + if Blank(w, r)
                then multiset{r} else multiset{}
  {
  }

  /** Blank rows and groups together hold every row of the batch once. */
  lemma {:induction false} GroupsPartition(w: World, rows: seq<Claimed>, keys: seq<Option<string>>)
    requires DistinctKeys(keys)
    requires KeysCover(w, rows, keys)
    ensures multiset(BlankRows(w, rows)) + multiset(Gathered(w, rows, keys)) == multiset(rows)
  {
    if rows == [] {
      NothingGathered(w, keys);
    } else {
      var init, r := rows[..|rows| - 1], rows[|rows| - 1];
      assert rows == init + [r];
      GroupsPartition(w, init, keys);
      GatheredGrows(w, rows, keys);
      BlankRowsGrow(w, rows);
      assert r in rows;
      OneRowMore(BlankRows(w, rows), BlankRows(w, init), Gathered(w, rows, keys), Gathered(w, init, keys),
                 if Blank(w, r) then multiset{r} else multiset{}, Share(w, r, keys), init, r);
    }
  }

  lemma OneRowMore(a: seq<Claimed>, a': seq<Claimed>, b: seq<Claimed>, b': seq<Claimed>, x: multiset<Claimed>,
                   y: multiset<Claimed>, rows: seq<Claimed>, r: Claimed)
    requires multiset(a) == multiset(a') + x && multiset(b) == multiset(b') + y && x + y == multiset{r}
    requires multiset(a') + multiset(b') == multiset(rows)
    ensures multiset(a) + multiset(b) == multiset(rows + [r])
  {
    assert multiset(rows + [r]) == multiset(rows) + multiset{r};
  }

  // --- A provider that embeds text by text ---

  datatype Service = Refusing(retryable: bool) | Serving(embed: string -> Vector)

  function Answer(service: Service, texts: seq<string>): Reply {
    match service
    case Refusing(retryable) => VoyageError(retryable)
    case Serving(embed) => Vectors(seq(|texts|, i requires 0 <= i < |texts| => embed(texts[i])))
  }

  /** Under each key the provider either refuses, or maps each text on its own. */
  ghost predicate Pointwise(w: World, services: string -> Service) {
    forall texts, key :: w.voyage(texts, key) == Answer(services(key), texts)
  }

  /** The fate of a row handled in a batch of its own. */
  ghost function Alone(w: World): Claimed -> RowOutcome {
    r => BatchOutcome(w, [r], r)
  }

  /** The text of an entity; one that has none counts as empty. */
  ghost predicate HasText(w: World, entity: string, text: string) {
    if entity in w.texts && w.texts[entity] != None then w.texts[entity] == Some(text) else text == ""
  }

  /** The entity's org has a proper name and an environment whose connection yields this key,
      trimmed. */
  ghost predicate HasKey(w: World, entity: string, key: string) {
    key != "" && exists org, env, raw :: YieldsKey(w, entity, org, env, raw, key)
  }

  ghost predicate YieldsKey(w: World, entity: string, org: string, env: string, raw: string, key: string) {
    && entity in w.orgs && w.orgs[entity] == Some(org) && org != "" && org != "None"
    && org in w.envs && w.envs[org] == Some(env) && w.resolver(env) == Returned(Some(raw)) && Trims(raw, key)
  }

  lemma KeyOfExactly(w: World, r: Claimed, key: string)
    ensures HasKey(w, r.entity, key) <==> KeyOf(w, r) == Some(key)
  {
    if HasKey(w, r.entity, key) {
      var org, env, raw :| YieldsKey(w, r.entity, org, env, raw, key);
      StripExactly(raw, key);
    }
    if KeyOf(w, r) == Some(key) {
      var org := OrgOf(w, r.entity).value;
      var env := EnvOf(w, org).value;
      var raw := w.resolver(env).key.value;
      StripExactly(raw, key);
      assert YieldsKey(w, r.entity, org, env, raw, key);
    }
  }

  /** What becomes of a row: without text it is done, without a key it has failed for good, and
      else the service under its key decides. */
  ghost predicate Fated(w: World, services: string -> Service, r: Claimed, o: RowOutcome) {
    exists text :: HasText(w, r.entity, text) &&
      if White(text) then o == Done(None)
      else if forall key :: !HasKey(w, r.entity, key) then o == Failed(false)
      else exists key :: HasKey(w, r.entity, key) && AnsweredBy(services(key), text, o)
  }

  /** A service that refuses fails the row as it says, one that serves embeds the row's own text. */
  ghost predicate AnsweredBy(service: Service, text: string, o: RowOutcome) {
    match service
    case Refusing(retryable) => o == Failed(retryable)
    case Serving(embed) => o == Done(Some(embed(text)))
  }

  ghost function OwnOutcome(w: World, services: string -> Service, r: Claimed): RowOutcome {
    if Blank(w, r) then Done(None)
    else
      match KeyOf(w, r)
      case None => Failed(false)
      case Some(k) =>
        match services(k)
        case Refusing(retryable) => Failed(retryable)
        case Serving(embed) => Done(Some(embed(TextOf(w, r.entity))))
  }

  lemma OwnFate(w: World, services: string -> Service, r: Claimed)
    ensures Fated(w, services, r, OwnOutcome(w, services, r))
  {
    var text, o := TextOf(w, r.entity), OwnOutcome(w, services, r);
    assert HasText(w, r.entity, text);
    BlankExactly(text);
    forall key
      ensures HasKey(w, r.entity, key) <==> KeyOf(w, r) == Some(key)
    {
      KeyOfExactly(w, r, key);
    }
    if !Blank(w, r) && KeyOf(w, r).Some? {
      assert HasKey(w, r.entity, KeyOf(w, r).value);
    }
  }

  lemma BatchedLikeAlone(w: World, services: string -> Service, rows: seq<Claimed>, r: Claimed)
    requires Pointwise(w, services) && r in rows
    ensures BatchOutcome(w, rows, r) == OwnOutcome(w, services, r)
    ensures Fated(w, services, r, BatchOutcome(w, rows, r))
  {
    OwnFate(w, services, r);
    if !Blank(w, r) {
      GroupMembers(w, rows, KeyOf(w, r), r);
      var group := Group(w, rows, KeyOf(w, r));
      var i := IndexOf(group, r);
      if KeyOf(w, r).Some? {
        var k := KeyOf(w, r).value;
        assert ReplyFor(w, group, k) == Answer(services(k), Texts(w, group));
      }
    }
  }

  /** For such a provider the grouped batch, in whatever order it handles its rows, leaves the
      same books as handling the claimed rows one at a time, each in a batch of its own. */
  lemma BatchingChangesNothing(w: World, services: string -> Service, b: Books, claimed: seq<Claimed>,
                               order: seq<Claimed>, now: nat)
    requires Pointwise(w, services) && DistinctIds(claimed) && multiset(order) == multiset(claimed)
    ensures HandleAll(b, order, Orgs(w), Outcomes(w, claimed), now) == HandleAll(b, claimed, Orgs(w), Alone(w), now)
  {
    var own := (r: Claimed) => OwnOutcome(w, services, r);
    forall r | r in order
      ensures r in claimed
    {
      assert r in multiset(order);
    }
    forall r | r in claimed
      ensures BatchOutcome(w, claimed, r) == own(r) == Alone(w)(r)
    {
      BatchedLikeAlone(w, services, claimed, r);
      BatchedLikeAlone(w, services, [r], r);
    }
    SameSteps(Handling(Orgs(w), Outcomes(w, claimed), now), Handling(Orgs(w), own, now), b, order);
    BatchOrderIsIrrelevant(b, claimed, order, Orgs(w), own, now);
    SameSteps(Handling(Orgs(w), own, now), Handling(Orgs(w), Alone(w), now), b, claimed);
  }

  /** Over a whole batch with such a provider, every claimed row ends as it is fated. */
  lemma RowsEndAsFated(w: World, services: string -> Service, b: Books, claimed: seq<Claimed>, order: seq<Claimed>,
                       now: nat, r: Claimed) returns (o: RowOutcome)
    requires Pointwise(w, services) && DistinctIds(claimed) && multiset(order) == multiset(claimed)
    requires r in claimed && r.id in b.queue
    ensures Fated(w, services, r, o)
    ensures var queue := HandleAll(b, order, Orgs(w), Outcomes(w, claimed), now).queue;
            && r.id in queue
            && queue[r.id] == b.queue[r.id].(status := match o
                                                       case Done(_) => L.Succeeded
                                                       case Failed(again) =>
                                                         if again && r.attempts < 5 then L.FailedRetryable
                                                         else L.FailedPermanent,
                                             completedAt := Some(now))
  {
    o := BatchOutcome(w, claimed, r);
    BatchedLikeAlone(w, services, claimed, r);
    BatchingChangesNothing(w, services, b, claimed, order, now);
    BatchedLikeAlone(w, services, [r], r);
    StatusesAfter(b, claimed, Orgs(w), Alone(w), now, r.id);
    FateOfARow(o, r.attempts);
  }
}
