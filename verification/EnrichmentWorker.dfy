/** The embedding subtick of the enrichment worker: its queue statements and its batch loop. */
module EnrichmentWorker {
  import opened Text
  import opened Bags
  import opened Folding
  import opened EnrichmentBooks
  import opened EnrichmentBatch
  import L = LeaseLedger

  const EMBEDDING_BATCH_LIMIT: nat := 128
  const STALL_THRESHOLD_S: nat := 600

  type Queue = map<string, QueueRow>

  predicate Stalled(row: QueueRow, now: nat) {
    row.status == L.InProgress && row.startedAt.Some? && row.startedAt.value + STALL_THRESHOLD_S < now
  }

  function ReapAll(queue: Queue, now: nat): Queue {
    map id | id in queue :: if Stalled(queue[id], now) then ReapedRow(queue[id]) else queue[id]
  }

  ghost predicate TimingsOk(queue: Queue) {
    forall id :: id in queue ==> TimingOk(queue[id])
  }

  ghost predicate Has(claimed: seq<Claimed>, id: string) {
    exists i :: 0 <= i < |claimed| && claimed[i].id == id
  }

  /** What one claim statement takes from `queue`: distinct claimable rows, none passed over
      for a younger one, and fewer than the limit only when no claimable row is left. */
  ghost predicate ClaimedFrom(queue: Queue, claimed: seq<Claimed>, limit: nat) {
    && DistinctIds(claimed)
    && |claimed| <= limit
    && (forall r :: r in claimed ==>
          && r.id in queue && L.Claimable(queue[r.id].status)
          && r.entity == queue[r.id].entity && r.attempts == queue[r.id].attempts + 1)
    && (forall r, id :: r in claimed && id in queue && L.Claimable(queue[id].status) && !Has(claimed, id) ==>
          queue[r.id].enqueuedAt <= queue[id].enqueuedAt)
    && (|claimed| < limit ==> forall id :: id in queue && L.Claimable(queue[id].status) ==> Has(claimed, id))
  }

  /** The queue once `claimed` has been taken from `queue`. */
  ghost predicate Took(queue: Queue, claimed: seq<Claimed>, now: nat, queue': Queue) {
    && queue'.Keys == queue.Keys
    && forall id :: id in queue ==> queue'[id] == if Has(claimed, id) then ClaimedRow(queue[id], now) else queue[id]
  }

  lemma {:induction false} OldestRow(queue: Queue, candidates: set<string>) returns (id: string)
    requires candidates != {} && candidates <= queue.Keys
    ensures id in candidates && forall other :: other in candidates ==> queue[id].enqueuedAt <= queue[other].enqueuedAt
    decreases |candidates|
  {
    id :| id in candidates;
    if candidates != {id} {
      var rest := OldestRow(queue, candidates - {id});
      if queue[rest].enqueuedAt < queue[id].enqueuedAt {
        id := rest;
      }
    }
  }

  /** The key of a row's org, as the resolved keys have it. */
  function Looked(w: World, keyByOrg: map<string, Option<string>>, r: Claimed): Option<string> {
    var org := OrgOf(w, r.entity);
    if org.Some? && org.value in keyByOrg then keyByOrg[org.value] else None
  }

  /** The tally of one subtick. */
  class TickResult {
    var claimed: nat
    var perOrg: map<string, OrgDelta>

    constructor ()
      ensures claimed == 0 && perOrg == map[]
    {
      claimed, perOrg := 0, map[];
    }

    method Credit(org: Option<string>, status: L.Status)
      modifies this`perOrg
      ensures perOrg == Credited(old(perOrg), org, status)
      ensures forall o :: o in perOrg <==> o in old(perOrg) || org == Some(o)
      ensures forall o :: o in perOrg && org != Some(o) ==> perOrg[o] == old(perOrg)[o]
      ensures org.Some? ==>
                var d := if org.value in old(perOrg) then old(perOrg)[org.value] else OrgDelta(0, 0, 0);
                perOrg[org.value] ==
                if status == L.Succeeded then d.(succeeded := d.succeeded + 1)
                else if status == L.FailedRetryable then d.(failedRetryable := d.failedRetryable + 1)
                else d.(failedPermanent := d.failedPermanent + 1)
    {
      if org.Some? {
        if org.value !in perOrg {
          perOrg := perOrg[org.value := NO_DELTA];
        }
        perOrg := perOrg[org.value := Bumped(perOrg[org.value], status)];
      }
    }
  }

  /** The service that opens an environment's connection for its key, with a log of its calls. */
  class KeyResolver {
    const answers: string -> Resolved
    ghost var asked: seq<string>

    constructor (answers: string -> Resolved)
      ensures this.answers == answers && asked == []
    {
      this.answers, this.asked := answers, [];
    }

    method Resolve(env: string) returns (answer: Resolved)
      modifies this
      ensures answer == answers(env) && asked == old(asked) + [env]
    {
      asked := asked + [env];
      answer := answers(env);
    }
  }

  /** The environments of the named orgs. */
  ghost predicate EnvOfSome(w: World, orgs: set<string>, env: string) {
    exists o :: o in orgs && Named(o) && EnvOf(w, o) == Some(env)
  }

  ghost predicate AskedOnce(asked: seq<string>) {
    forall i, j :: 0 <= i < j < |asked| ==> asked[i] != asked[j]
  }

  lemma AskedOneMore(asked: seq<string>, env: string)
    requires AskedOnce(asked) && env !in asked
    ensures AskedOnce(asked + [env]) && forall e :: e in asked + [env] <==> e in asked || e == env
  {
  }

  /** Resolves each environment of the orgs exactly once; a failed resolve degrades to no key. */
  method ResolveOrgKeys(w: World, orgs: set<string>, resolver: KeyResolver) returns (keys: map<string, Option<string>>)
    requires resolver.answers == w.resolver
    modifies resolver
    ensures keys.Keys == set o | o in orgs && Named(o)
    ensures forall o :: o in keys ==> keys[o] == KeyOfOrg(w, Some(o))
    ensures old(resolver.asked) <= resolver.asked
    ensures AskedOnce(resolver.asked[|old(resolver.asked)|..])
    ensures forall e :: e in resolver.asked[|old(resolver.asked)|..] <==> EnvOfSome(w, orgs, e)
  {
    ghost var before := resolver.asked;
    ghost var asked: seq<string> := [];
    keys := map[];
    var byEnv: map<string, Option<string>> := map[];
    var left := set o | o in orgs && Named(o);
    while left != {}
      invariant keys.Keys + left == set o | o in orgs && Named(o)
      invariant forall o :: o in keys ==> keys[o] == KeyOfOrg(w, Some(o))
      invariant forall e :: e in byEnv ==> byEnv[e] == KeyOfEnv(w, Some(e)) && EnvOfSome(w, orgs, e)
      invariant forall o :: o in keys && EnvOf(w, o).Some? ==> EnvOf(w, o).value in byEnv
      invariant resolver.asked == before + asked && AskedOnce(asked) && forall e :: e in asked <==> e in byEnv
      decreases left
    {
      var org :| org in left;
      left := left - {org};
      var env := EnvOf(w, org);
      if env.None? {
        keys := keys[org := None];
      } else {
        if env.value !in byEnv {
          var answer := resolver.Resolve(env.value);
          byEnv := byEnv[env.value := ResolvedKey(answer)];
          AskedOneMore(asked, env.value);
          asked := asked + [env.value];
        }
        keys := keys[org := byEnv[env.value]];
      }
    }
    assert resolver.asked[|before|..] == asked;
  }

  class EnrichmentTables {
    var queue: Queue
    var embeddings: map<string, Vector>
    ghost var marks: multiset<string>

    constructor ()
      ensures queue == map[] && embeddings == map[] && marks == multiset{}
    {
      queue, embeddings, marks := map[], map[], multiset{};
    }

    ghost function Snapshot(result: TickResult): Books
      reads this, result
    {
      Books(queue, embeddings, result.perOrg, marks)
    }

    method ReapStalled(now: nat)
      requires TimingsOk(queue)
      modifies this`queue
      ensures queue == ReapAll(old(queue), now) && TimingsOk(queue)
      ensures queue.Keys == old(queue).Keys
      ensures forall id :: id in queue ==>
                var row := old(queue)[id];
                queue[id] == if row.status == L.InProgress && row.startedAt.value + 600 < now
                             then row.(status := L.Pending, startedAt := None) else row
    {
      queue := ReapAll(queue, now);
    }

    /** Claims the oldest of the rows left over from `start`. */
    method TakeOldest(ghost start: Queue, ghost claimed: seq<Claimed>, left: set<string>, now: nat)
      returns (r: Claimed)
      requires left != {} && Taking(start, claimed, left, now, queue)
      modifies this`queue
      ensures r.id in left && Taking(start, claimed + [r], left - {r.id}, now, queue)
    {
      LeftAsTheyWere(start, claimed, left, now, queue);
      ghost var oldest := OldestRow(queue, left);
      var id :| id in left && forall other :: other in left ==> queue[id].enqueuedAt <= queue[other].enqueuedAt;
      OldestTaken(start, claimed, left, now, queue, id);
      r := Claimed(id, queue[id].entity, queue[id].attempts + 1);
      queue := queue[id := ClaimedRow(queue[id], now)];
    }

    method ClaimBatch(limit: nat, now: nat) returns (claimed: seq<Claimed>)
      requires TimingsOk(queue)
      modifies this`queue
      ensures TimingsOk(queue)
      ensures ClaimedFrom(old(queue), claimed, limit)
      ensures Took(old(queue), claimed, now, queue)
      ensures forall id :: id in queue && queue[id] != old(queue)[id] ==>
                && old(queue)[id].status in {L.Pending, L.FailedRetryable}
                && queue[id] == old(queue)[id].(status := L.InProgress, startedAt := Some(now), completedAt := None,
                                                attempts := old(queue)[id].attempts + 1)
    {
      ghost var start := queue;
      claimed := [];
      var left := set id | id in queue && L.Claimable(queue[id].status);
      NothingTaken(queue, left, now);
      while |claimed| < limit && left != {}
        invariant Taking(start, claimed, left, now, queue) && |claimed| <= limit
        decreases left
      {
        var r := TakeOldest(start, claimed, left, now);
        claimed, left := claimed + [r], left - {r.id};
      }
      NothingPassedOver(start, claimed, left, now, queue, limit);
      OnlyClaimedChange(start, claimed, now, queue, limit);
    }

    method MarkSucceeded(id: string, now: nat)
      modifies this`queue, this`marks
      ensures queue == Marked(old(queue), id, L.Succeeded, now)
      ensures marks == old(marks) + multiset{id}
    {
      if id in queue {
        queue := queue[id := MarkedRow(queue[id], L.Succeeded, now)];
      }
      marks := marks + multiset{id};
    }

    method MarkFailed(id: string, retryable: bool, attempts: nat, now: nat) returns (status: L.Status)
      modifies this`queue, this`marks
      ensures status == L.Classify(L.Failure(retryable), attempts)
      ensures status == if retryable && attempts < 5 then L.FailedRetryable else L.FailedPermanent
      ensures queue == Marked(old(queue), id, status, now)
      ensures marks == old(marks) + multiset{id}
    {
      status := if retryable && attempts < L.MAX_ATTEMPTS then L.FailedRetryable else L.FailedPermanent;
      if id in queue {
        queue := queue[id := MarkedRow(queue[id], status, now)];
      }
      marks := marks + multiset{id};
    }

    method WriteEmbedding(entity: string, vector: Vector)
      modifies this`embeddings
      ensures embeddings == old(embeddings)[entity := vector]
    {
      embeddings := embeddings[entity := vector];
    }

    method PassRow(w: World, r: Claimed, vector: Option<Vector>, result: TickResult, now: nat)
      modifies this`queue, this`embeddings, this`marks, result`perOrg
      ensures Snapshot(result) == Handle(old(Snapshot(result)), r, OrgOf(w, r.entity), Done(vector), now)
    {
      if vector.Some? {
        WriteEmbedding(r.entity, vector.value);
      }
      MarkSucceeded(r.id, now);
      result.Credit(OrgOf(w, r.entity), L.Succeeded);
    }

    method FailRow(w: World, r: Claimed, retryable: bool, result: TickResult, now: nat)
      modifies this`queue, this`marks, result`perOrg
      ensures Snapshot(result) == Handle(old(Snapshot(result)), r, OrgOf(w, r.entity), Failed(retryable), now)
    {
      var status := MarkFailed(r.id, retryable, r.attempts, now);
      result.Credit(OrgOf(w, r.entity), status);
    }

    /** Fails every row of a group. */
    method CreditFail(w: World, group: seq<Claimed>, retryable: bool, result: TickResult, now: nat)
      modifies this`queue, this`marks, result`perOrg
      ensures Snapshot(result) == HandleAll(old(Snapshot(result)), group, Orgs(w), AllFailed(retryable), now)
    {
      ghost var before := Snapshot(result);
      for i := 0 to |group|
        invariant Snapshot(result) == HandleAll(before, group[..i], Orgs(w), AllFailed(retryable), now)
      {
        OneMoreHandled(before, group, i, Orgs(w), AllFailed(retryable), now);
        FailRow(w, group[i], retryable, result, now);
      }
      assert group[..|group|] == group;
    }

    /** Embeds one group by one call, or fails it as a whole. */
    method EmbedGroup(w: World, group: seq<Claimed>, key: Option<string>, result: TickResult, now: nat,
                      ghost out: Claimed -> RowOutcome)
      requires Decides(w, group, key, out)
      modifies this`queue, this`embeddings, this`marks, result`perOrg
      ensures Snapshot(result) == HandleAll(old(Snapshot(result)), group, Orgs(w), out, now)
    {
      ghost var before := Snapshot(result);
      if key.None? {
        CreditFail(w, group, false, result, now);
        FailedGroup(w, before, group, false, out, now);
        return;
      }
      var reply := ReplyFor(w, group, key.value);
      if reply.VoyageError? {
        CreditFail(w, group, reply.retryable, result, now);
        FailedGroup(w, before, group, reply.retryable, out, now);
        return;
      }
      var vectors := reply.vectors;
      if |vectors| != |group| {
        CreditFail(w, group, true, result, now);
        FailedGroup(w, before, group, true, out, now);
        return;
      }
      for i := 0 to |group|
        invariant Snapshot(result) == HandleAll(before, group[..i], Orgs(w), out, now)
      {
        OneMoreHandled(before, group, i, Orgs(w), out, now);
        PassRow(w, group[i], Some(vectors[i]), result, now);
      }
      assert group[..|group|] == group;
    }

    /** A row without text is a success with nothing to write; the others go on to be embedded. */
    method MarkBlanks(w: World, claimed: seq<Claimed>, result: TickResult, now: nat) returns (embeddable: seq<Claimed>)
      modifies this`queue, this`embeddings, this`marks, result`perOrg
      ensures embeddable == Embeddable(w, claimed)
      ensures Snapshot(result) == HandleAll(old(Snapshot(result)), BlankRows(w, claimed), Orgs(w),
              Outcomes(w, claimed), now)
    {
      ghost var before, out := Snapshot(result), Outcomes(w, claimed);
      embeddable := [];
      for i := 0 to |claimed|
        invariant embeddable == Embeddable(w, claimed[..i])
        invariant Snapshot(result) == HandleAll(before, BlankRows(w, claimed[..i]), Orgs(w), out, now)
      {
        var r := claimed[i];
        OneMoreEmbeddable(w, claimed, i);
        OneMoreBlank(before, w, claimed, i, out, now);
        if Blank(w, r) {
          PassRow(w, r, None, result, now);
        } else {
          embeddable := embeddable + [r];
        }
      }
      assert claimed[..|claimed|] == claimed;
    }

    /** setdefault and append; the dict's keys keep their order of insertion. */
    method AddToGroup(keys: seq<Option<string>>, groups: map<Option<string>, seq<Claimed>>, key: Option<string>,
                      r: Claimed)
      returns (keys': seq<Option<string>>, groups': map<Option<string>, seq<Claimed>>)
      requires key in keys <==> key in groups
      ensures keys' == KeysWith(keys, key) && groups' == GroupsWith(groups, key, r)
    {
      keys', groups' := keys, groups;
      if key !in groups' {
        keys', groups' := keys' + [key], groups'[key := []];
      }
      groups' := groups'[key := groups'[key] + [r]];
    }

    /** Groups rows by key, the groups in order of appearance. */
    method GroupRows(w: World, rows: seq<Claimed>, keyByOrg: map<string, Option<string>>)
      returns (keys: seq<Option<string>>, groups: map<Option<string>, seq<Claimed>>)
      requires forall r :: r in rows ==> Looked(w, keyByOrg, r) == KeyOf(w, r) && !Blank(w, r)
      ensures Grouped(w, rows, keys, groups)
    {
      keys, groups := [], map[];
      NothingGrouped(w);
      assert rows[..0] == [];
      for i := 0 to |rows|
        invariant Grouped(w, rows[..i], keys, groups)
      {
        var r := rows[i];
        assert r in rows;
        assert rows[..i + 1] == rows[..i] + [r];
        var key := Looked(w, keyByOrg, r);
        GroupedRow(w, rows[..i], r, keys, groups);
        keys, groups := AddToGroup(keys, groups, key, r);
      }
      assert rows[..|rows|] == rows;
    }

    method EmbedGroups(w: World, claimed: seq<Claimed>, keys: seq<Option<string>>,
                       groups: map<Option<string>, seq<Claimed>>,
                       result: TickResult, now: nat)
      requires DistinctIds(claimed)
      requires Grouped(w, claimed, keys, groups)
      modifies this`queue, this`embeddings, this`marks, result`perOrg
      ensures Snapshot(result) ==
              HandleAll(old(Snapshot(result)), Gathered(w, claimed, keys), Orgs(w), Outcomes(w, claimed), now)
    {
      ghost var before, out := Snapshot(result), Outcomes(w, claimed);
      for k := 0 to |keys|
        invariant Snapshot(result) == HandleAll(before, Gathered(w, claimed, keys[..k]), Orgs(w), out, now)
      {
        var key := keys[k];
        assert key in keys;
        GroupFates(w, claimed, key);
        OneMoreGroup(before, w, claimed, keys, k, out, now);
        EmbedGroup(w, groups[key], key, result, now, out);
      }
      assert keys[..|keys|] == keys;
    }

    /** The subtick without its claim: rows without text first, then group by group. */
    method HandleClaimed(w: World, claimed: seq<Claimed>, result: TickResult, resolver: KeyResolver, now: nat)
      returns (ghost order: seq<Claimed>)
      requires DistinctIds(claimed) && resolver.answers == w.resolver
      modifies this`queue, this`embeddings, this`marks, result`perOrg, resolver
      ensures multiset(order) == multiset(claimed)
      ensures Snapshot(result) == HandleAll(old(Snapshot(result)), order, Orgs(w), Outcomes(w, claimed), now)
    {
      ghost var before := Snapshot(result);
      var orgs := set r | r in claimed && OrgOf(w, r.entity).Some? :: OrgOf(w, r.entity).value;
      var keyByOrg := ResolveOrgKeys(w, orgs, resolver);
      var embeddable := MarkBlanks(w, claimed, result, now);
      EmbeddableMembers(w, claimed);
      assert forall r :: r in embeddable ==> Looked(w, keyByOrg, r) == KeyOf(w, r);
      var keys, groups := GroupRows(w, embeddable, keyByOrg);
      GroupedEmbeddable(w, claimed, keys, groups);
      EmbedGroups(w, claimed, keys, groups, result, now);
      order := BlankRows(w, claimed) + Gathered(w, claimed, keys);
      FoldAppend(Handling(Orgs(w), Outcomes(w, claimed), now), before, BlankRows(w, claimed),
          Gathered(w, claimed, keys));
      GroupsPartition(w, claimed, keys);
    }

    method ReapAndClaim(now: nat) returns (claimed: seq<Claimed>)
      requires TimingsOk(queue)
      modifies this`queue
      ensures ClaimedFrom(ReapAll(old(queue), now), claimed, EMBEDDING_BATCH_LIMIT)
      ensures Took(ReapAll(old(queue), now), claimed, now, queue)
      ensures DistinctIds(claimed)
    {
      ReapStalled(now);
      claimed := ClaimBatch(EMBEDDING_BATCH_LIMIT, now);
    }

    /** Reap, claim, handle. Every claimed row is marked once, and the per-org tallies plus
        the rows without an org add up to `claimed`. */
    method EmbeddingSubtick(w: World, resolver: KeyResolver, now: nat)
      returns (result: TickResult, ghost claimed: seq<Claimed>, ghost order: seq<Claimed>, ghost start: Books)
      requires TimingsOk(queue) && resolver.answers == w.resolver
      modifies this, resolver
      ensures fresh(result)
      ensures ClaimedFrom(ReapAll(old(queue), now), claimed, EMBEDDING_BATCH_LIMIT)
      ensures Took(ReapAll(old(queue), now), claimed, now, start.queue)
      ensures start == Books(start.queue, old(embeddings), map[], old(marks))
      ensures multiset(order) == multiset(claimed)
      ensures Snapshot(result) == HandleAll(start, order, Orgs(w), Outcomes(w, claimed), now)
      ensures result.claimed == |claimed|
      ensures marks == old(marks) + Ids(claimed)
      ensures Tallied(result.perOrg) + WithoutOrg(claimed, Orgs(w)) == result.claimed
      ensures |claimed| <= 128
      ensures forall r :: r in claimed ==> r.id in old(queue) && DueBy(old(queue)[r.id], now)
      ensures |claimed| < 128 ==>
                forall id :: id in old(queue) && DueBy(old(queue)[id], now) ==> exists r :: r in claimed && r.id == id
      ensures forall o :: TalliesShow(map[], result.perOrg, claimed, Orgs(w), queue, o)
    {
      result := new TickResult();
      var rows := ReapAndClaim(now);
      claimed := rows;
      ClaimedAreDue(old(queue), claimed, now);
      result.claimed := |rows|;
      start := Snapshot(result);
      assert forall r :: r in claimed ==> r.id in start.queue;
      order := HandleClaimed(w, rows, result, resolver, now);
      SubtickCounts(start, w, claimed, order, now);
    }
  }

  /** The row waits for a claim, or its claim has been in progress for more than ten minutes. */
  predicate DueBy(row: QueueRow, now: nat) {
    || row.status == L.Pending || row.status == L.FailedRetryable
    || (row.status == L.InProgress && row.startedAt.Some? && row.startedAt.value + 600 < now)
  }

  lemma ClaimedAreDue(queue: Queue, claimed: seq<Claimed>, now: nat)
    requires ClaimedFrom(ReapAll(queue, now), claimed, EMBEDDING_BATCH_LIMIT)
    ensures |claimed| <= 128
    ensures forall r :: r in claimed ==> r.id in queue && DueBy(queue[r.id], now)
    ensures |claimed| < 128 ==>
              forall id :: id in queue && DueBy(queue[id], now) ==> exists r :: r in claimed && r.id == id
  {
    var reaped := ReapAll(queue, now);
    forall id | id in queue
      ensures id in reaped && (L.Claimable(reaped[id].status) <==> DueBy(queue[id], now))
    {
    }
    forall id | Has(claimed, id)
      ensures exists r :: r in claimed && r.id == id
    {
      var i :| 0 <= i < |claimed| && claimed[i].id == id;
      assert claimed[i] in claimed;
    }
  }

  lemma TalliesIgnoreOrder(start: Books, w: World, claimed: seq<Claimed>, order: seq<Claimed>, now: nat, o: string)
    requires multiset(order) == multiset(claimed) && DistinctIds(claimed)
    requires forall r :: r in claimed ==> r.id in start.queue
    ensures var after := HandleAll(start, order, Orgs(w), Outcomes(w, claimed), now);
            TalliesShow(start.tallies, after.tallies, claimed, Orgs(w), after.queue, o)
  {
    SameMembers(order, claimed);
    DistinctAnyOrder(claimed, order);
    TalliesCountEndings(start, order, Orgs(w), Outcomes(w, claimed), now, o);
    var queue := HandleAll(start, order, Orgs(w), Outcomes(w, claimed), now).queue;
    assert forall status :: Ended(order, Orgs(w), queue, o, status) == Ended(claimed, Orgs(w), queue, o, status);
  }

  lemma SameMembers(a: seq<Claimed>, b: seq<Claimed>)
    requires multiset(a) == multiset(b)
    ensures forall r :: r in a <==> r in b
  {
    forall r
      ensures r in a <==> r in b
    {
      assert r in a <==> r in multiset(a);
    }
  }

  lemma DistinctAnyOrder(rows: seq<Claimed>, order: seq<Claimed>)
    requires multiset(order) == multiset(rows) && DistinctIds(rows)
    ensures DistinctIds(order)
  {
    forall i, j | 0 <= i < j < |order|
      ensures order[i].id != order[j].id
    {
      if order[i].id == order[j].id {
        SameMembers(order, rows);
        assert order[i] in order && order[j] in order;
        var k :| 0 <= k < |rows| && rows[k] == order[i];
        var l :| 0 <= l < |rows| && rows[l] == order[j];
        assert rows[k].id == rows[l].id;
        assert k == l;
        TwiceInOrder(order, i, j);
        OnceInRows(rows, k);
      }
    }
  }

  lemma TwiceInOrder(order: seq<Claimed>, i: nat, j: nat)
    requires i < j < |order| && order[i] == order[j]
    ensures multiset(order)[order[i]] >= 2
  {
    WithoutBag(order, j);
    assert Without(order, j)[i] == order[i];
    assert order[i] in multiset(Without(order, j));
  }

  lemma OnceInRows(rows: seq<Claimed>, k: nat)
    requires DistinctIds(rows) && k < |rows|
    ensures multiset(rows)[rows[k]] == 1
  {
    WithoutBag(rows, k);
    var others := Without(rows, k);
    forall i | 0 <= i < |others|
      ensures others[i] != rows[k]
    {
      assert others[i] == rows[if i < k then i else i + 1];
    }
  }

  lemma SubtickCounts(start: Books, w: World, claimed: seq<Claimed>, order: seq<Claimed>, now: nat)
    requires multiset(order) == multiset(claimed) && DistinctIds(claimed)
    requires forall r :: r in claimed ==> r.id in start.queue
    ensures var after := HandleAll(start, order, Orgs(w), Outcomes(w, claimed), now);
            && after.marks == start.marks + Ids(claimed)
            && (start.tallies == map[] ==> Tallied(after.tallies) + WithoutOrg(claimed, Orgs(w)) == |claimed|)
            && forall o :: TalliesShow(start.tallies, after.tallies, claimed, Orgs(w), after.queue, o)
  {
    SameSize(order, claimed);
    forall o
      ensures var after := HandleAll(start, order, Orgs(w), Outcomes(w, claimed), now);
              TalliesShow(start.tallies, after.tallies, claimed, Orgs(w), after.queue, o)
    {
      TalliesIgnoreOrder(start, w, claimed, order, now, o);
    }
    RowsAreConserved(start, order, Orgs(w), Outcomes(w, claimed), now);
    CountsIgnoreOrder(claimed, order, Orgs(w));
  }

  ghost function AllFailed(retryable: bool): Claimed -> RowOutcome {
    _ => Failed(retryable)
  }

  lemma OneMoreHandled(b: Books, rows: seq<Claimed>, i: nat, org: string -> Option<string>, out: Claimed -> RowOutcome,
                       now: nat)
    requires i < |rows|
    ensures HandleAll(b, rows[..i + 1], org, out, now) ==
            Handle(HandleAll(b, rows[..i], org, out, now), rows[i], org(rows[i].entity), out(rows[i]), now)
  {
    assert rows[..i + 1][..i] == rows[..i];
  }

  /** The oldest claimable rows of `queue` are claimed, and the others are left. */
  ghost predicate Taking(queue: Queue, claimed: seq<Claimed>, left: set<string>, now: nat, queue': Queue) {
    && DistinctIds(claimed) && Took(queue, claimed, now, queue')
    && (forall id :: id in left <==> id in queue && L.Claimable(queue[id].status) && !Has(claimed, id))
    && (forall r :: r in claimed ==>
          && r.id in queue && L.Claimable(queue[r.id].status)
          && r.entity == queue[r.id].entity && r.attempts == queue[r.id].attempts + 1)
    && (forall r, id :: r in claimed && id in left ==> queue[r.id].enqueuedAt <= queue[id].enqueuedAt)
  }

  lemma NothingTaken(queue: Queue, left: set<string>, now: nat)
    requires left == set id | id in queue && L.Claimable(queue[id].status)
    ensures Taking(queue, [], left, now, queue)
  {
  }

  lemma LeftAsTheyWere(queue: Queue, claimed: seq<Claimed>, left: set<string>, now: nat, queue': Queue)
    requires Taking(queue, claimed, left, now, queue')
    ensures left <= queue.Keys && left <= queue'.Keys && forall id :: id in left ==> queue'[id] == queue[id]
  {
  }

  lemma OldestTaken(queue: Queue, claimed: seq<Claimed>, left: set<string>, now: nat, queue': Queue, id: string)
    requires Taking(queue, claimed, left, now, queue') && id in left && left <= queue'.Keys
    requires forall other :: other in left ==> queue'[id].enqueuedAt <= queue'[other].enqueuedAt
    ensures var row := queue'[id];
            Taking(queue, claimed + [Claimed(id, row.entity, row.attempts + 1)], left - {id}, now,
                   queue'[id := ClaimedRow(row, now)])
  {
    LeftAsTheyWere(queue, claimed, left, now, queue');
    HasOneMore(claimed, Claimed(id, queue[id].entity, queue[id].attempts + 1));
  }

  lemma OnlyClaimedChange(queue: Queue, claimed: seq<Claimed>, now: nat, queue': Queue, limit: nat)
    requires ClaimedFrom(queue, claimed, limit) && Took(queue, claimed, now, queue')
    ensures forall id :: id in queue' && queue'[id] != queue[id] ==>
              && queue[id].status in {L.Pending, L.FailedRetryable}
              && queue'[id] == queue[id].(status := L.InProgress, startedAt := Some(now), completedAt := None,
                                          attempts := queue[id].attempts + 1)
  {
    forall id | Has(claimed, id)
      ensures id in queue && L.Claimable(queue[id].status)
    {
      var i :| 0 <= i < |claimed| && claimed[i].id == id;
      assert claimed[i] in claimed;
    }
  }

  lemma NothingPassedOver(queue: Queue, claimed: seq<Claimed>, left: set<string>, now: nat, queue': Queue, limit: nat)
    requires Taking(queue, claimed, left, now, queue') && |claimed| <= limit && (left == {} || |claimed| == limit)
    ensures ClaimedFrom(queue, claimed, limit) && Took(queue, claimed, now, queue')
    ensures TimingsOk(queue) ==> TimingsOk(queue')
  {
  }

  lemma HasOneMore(claimed: seq<Claimed>, r: Claimed)
    ensures forall id :: Has(claimed + [r], id) <==> Has(claimed, id) || id == r.id
  {
    forall id
      ensures Has(claimed + [r], id) <==> Has(claimed, id) || id == r.id
    {
      var more := claimed + [r];
      assert more[|claimed|] == r;
      if Has(claimed, id) {
        var i :| 0 <= i < |claimed| && claimed[i].id == id;
        assert more[i].id == id;
      }
    }
  }

  lemma FailedGroup(w: World, before: Books, group: seq<Claimed>, retryable: bool, out: Claimed -> RowOutcome, now: nat)
    requires forall r :: r in group ==> out(r) == Failed(retryable)
    ensures HandleAll(before, group, Orgs(w), AllFailed(retryable), now) == HandleAll(before, group, Orgs(w), out, now)
  {
    SameSteps(Handling(Orgs(w), AllFailed(retryable), now), Handling(Orgs(w), out, now), before, group);
  }

  lemma OneMoreEmbeddable(w: World, rows: seq<Claimed>, i: nat)
    requires i < |rows|
    ensures var init := Embeddable(w, rows[..i]);
            Embeddable(w, rows[..i + 1]) == if Blank(w, rows[i]) then init else init + [rows[i]]
  {
    assert rows[..i + 1][..i] == rows[..i];
    EmbeddableAppend(w, rows[..i + 1]);
  }

  lemma OneMoreBlank(b: Books, w: World, rows: seq<Claimed>, i: nat, out: Claimed -> RowOutcome, now: nat)
    requires i < |rows|
    ensures var done := HandleAll(b, BlankRows(w, rows[..i]), Orgs(w), out, now);
            HandleAll(b, BlankRows(w, rows[..i + 1]), Orgs(w), out, now) ==
            if Blank(w, rows[i]) then Handle(done, rows[i], OrgOf(w, rows[i].entity), out(rows[i]), now) else done
  {
    var blanks := BlankRows(w, rows[..i]);
    assert rows[..i + 1][..i] == rows[..i];
    assert rows[..i + 1][i] == rows[i];
    assert blanks + [] == blanks && (blanks + [rows[i]])[..|blanks|] == blanks;
  }

  /** `out` gives the rows of a group the fates its call decides. */
  ghost predicate Decides(w: World, group: seq<Claimed>, key: Option<string>, out: Claimed -> RowOutcome) {
    forall i :: 0 <= i < |group| ==> out(group[i]) == GroupOutcome(w, group, key, i)
  }

  lemma OneMoreGroup(b: Books, w: World, rows: seq<Claimed>, keys: seq<Option<string>>, k: nat,
                     out: Claimed -> RowOutcome, now: nat)
    requires k < |keys|
    ensures HandleAll(b, Gathered(w, rows, keys[..k + 1]), Orgs(w), out, now) ==
            HandleAll(HandleAll(b, Gathered(w, rows, keys[..k]), Orgs(w), out, now), Group(w, rows, keys[k]), Orgs(w),
                out, now)
  {
    assert keys[..k + 1][..k] == keys[..k];
    FoldAppend(Handling(Orgs(w), out, now), b, Gathered(w, rows, keys[..k]), Group(w, rows, keys[k]));
  }

  lemma GroupFates(w: World, claimed: seq<Claimed>, key: Option<string>)
    requires DistinctIds(claimed)
    ensures Decides(w, Group(w, claimed, key), key, Outcomes(w, claimed))
  {
    var group := Group(w, claimed, key);
    GroupHasDistinctIds(w, claimed, key);
    forall i | 0 <= i < |group|
      ensures BatchOutcome(w, claimed, group[i]) == GroupOutcome(w, group, key, i)
    {
      GroupMembers(w, claimed, key, group[i]);
      assert IndexOf(group, group[i]) == i;
    }
  }
}
