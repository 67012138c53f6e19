/** The enrichment queue's books: what handling one claimed row writes, and why the order in
    which a batch's rows are handled does not matter. */
module EnrichmentBooks {
  import opened Text
  import opened Bags
  import opened Folding
  import L = LeaseLedger

  type Vector = seq<int>

  datatype QueueRow = QueueRow(entity: string, status: L.Status, attempts: nat, enqueuedAt: nat,
                               startedAt: Option<nat>, completedAt: Option<nat>)

  /** A claimed row as the subtick carries it: `attempts` is the charged attempt. */
  datatype Claimed = Claimed(id: string, entity: string, attempts: nat)

  /** What became of a row. A row without text is a success without an embedding. */
  datatype RowOutcome = Done(vector: Option<Vector>) | Failed(retryable: bool)

  datatype OrgDelta = OrgDelta(succeeded: nat, failedRetryable: nat, failedPermanent: nat)

  const NO_DELTA := OrgDelta(0, 0, 0)

  function StatusFor(o: RowOutcome, attempts: nat): L.Status {
    match o
    case Done(_) => L.Classify(L.Success, attempts)
    case Failed(retryable) => L.Classify(L.Failure(retryable), attempts)
  }

  function MarkedRow(row: QueueRow, status: L.Status, now: nat): QueueRow {
    row.(status := status, completedAt := Some(now))
  }

  function ClaimedRow(row: QueueRow, now: nat): QueueRow {
    row.(status := L.InProgress, startedAt := Some(now), completedAt := None, attempts := row.attempts + 1)
  }

  /** The enrichment reaper has no attempt cap. */
  function ReapedRow(row: QueueRow): QueueRow {
    row.(status := L.Pending, startedAt := None)
  }

  /** The table's CHECK status_implies_timing. */
  predicate TimingOk(row: QueueRow) {
    match row.status
    case Pending => row.startedAt.None? && row.completedAt.None?
    case InProgress => row.startedAt.Some? && row.completedAt.None?
    case _ => row.startedAt.Some? && row.completedAt.Some?
  }

  /** Every statement on a row is a step of its claim ledger with the uncapped reaper; a mark
      on a row that is back to pending is refused by the CHECK and rolls the tick back. */
  lemma StatementsFollowTheLedger(row: QueueRow, l: L.Ledger, o: RowOutcome, a: nat, now: nat)
    requires TimingOk(row) && l.status == row.status && l.attempts == row.attempts
    ensures L.Claimable(row.status) ==>
              var n := L.Next(l, L.Claim, false);
              n.status == ClaimedRow(row, now).status && n.attempts == ClaimedRow(row, now).attempts
    ensures row.status == L.InProgress ==>
              var n := L.Next(l, L.Reap, false);
              n.status == ReapedRow(row).status && n.attempts == ReapedRow(row).attempts
    ensures TimingOk(MarkedRow(row, StatusFor(o, a), now)) <==> row.status != L.Pending
    ensures row.status != L.Pending && a in l.open ==>
              L.Next(l, L.Finish(a, if o.Done? then L.Success else L.Failure(o.retryable)), false).status ==
                  StatusFor(o, a)
  {
  }

  // --- Handling rows ---

  /** The tables and counters a subtick writes; `marks` counts the mark statements per row. */
  datatype Books = Books(queue: map<string, QueueRow>, embeddings: map<string, Vector>,
                         tallies: map<string, OrgDelta>, marks: multiset<string>)

  function DeltaOf(tallies: map<string, OrgDelta>, org: string): OrgDelta {
    if org in tallies then tallies[org] else NO_DELTA
  }

  function Bumped(d: OrgDelta, status: L.Status): OrgDelta {
    match status
    case Succeeded => d.(succeeded := d.succeeded + 1)
    case FailedRetryable => d.(failedRetryable := d.failedRetryable + 1)
    case _ => d.(failedPermanent := d.failedPermanent + 1)
  }

  /** credit: a row without an org is dropped on the floor. */
  function Credited(tallies: map<string, OrgDelta>, org: Option<string>, status: L.Status): map<string, OrgDelta> {
    match org
    case None => tallies
    case Some(o) => tallies[o := Bumped(DeltaOf(tallies, o), status)]
  }

  function Marked(queue: map<string, QueueRow>, id: string, status: L.Status, now: nat): map<string, QueueRow> {
    if id in queue then queue[id := MarkedRow(queue[id], status, now)] else queue
  }

  function Embedded(embeddings: map<string, Vector>, entity: string, o: RowOutcome): map<string, Vector> {
    if o.Done? && o.vector.Some? then embeddings[entity := o.vector.value] else embeddings
  }

  /** One row handled on its own. */
  function Handle(b: Books, r: Claimed, org: Option<string>, o: RowOutcome, now: nat): Books {
    var status := StatusFor(o, r.attempts);
    Books(Marked(b.queue, r.id, status, now), Embedded(b.embeddings, r.entity, o),
          Credited(b.tallies, org, status), b.marks + multiset{r.id})
  }

  ghost function Handling(org: string -> Option<string>, out: Claimed -> RowOutcome, now: nat)
    : (Books, Claimed) -> Books
  {
    (b: Books, r: Claimed) => Handle(b, r, org(r.entity), out(r), now)
  }

  /** Rows handled one at a time, in order. */
  ghost function HandleAll(b: Books, rows: seq<Claimed>, org: string -> Option<string>, out: Claimed -> RowOutcome,
                           now: nat): Books {
    Fold(Handling(org, out, now), b, rows)
  }

  /** Rows of one entity get one and the same vector. */
  ghost predicate OneVectorPerEntity(out: Claimed -> RowOutcome) {
    forall r: Claimed, q: Claimed :: r.entity == q.entity && out(r).Done? && out(q).Done? ==>
        out(r).vector == out(q).vector
  }

  /** Row ids identify rows. */
  ghost predicate DistinctIds(rows: seq<Claimed>) {
    forall i, j :: 0 <= i < j < |rows| ==> rows[i].id != rows[j].id
  }

  lemma BumpsCommute(d: OrgDelta, s1: L.Status, s2: L.Status)
    ensures Bumped(Bumped(d, s1), s2) == Bumped(Bumped(d, s2), s1)
  {
  }

  lemma CreditsCommute(t: map<string, OrgDelta>, o1: Option<string>, s1: L.Status, o2: Option<string>, s2: L.Status)
    ensures Credited(Credited(t, o1, s1), o2, s2) == Credited(Credited(t, o2, s2), o1, s1)
  {
    if o1.Some? && o2.Some? {
      BumpsCommute(DeltaOf(t, o1.value), s1, s2);
      var a, b := Credited(Credited(t, o1, s1), o2, s2), Credited(Credited(t, o2, s2), o1, s1);
      assert a == b;
    }
  }

  lemma MarksCommute(queue: map<string, QueueRow>, i: string, s: L.Status, j: string, t: L.Status, now: nat)
    requires i != j
    ensures Marked(Marked(queue, i, s, now), j, t, now) == Marked(Marked(queue, j, t, now), i, s, now)
  {
    assert Marked(Marked(queue, i, s, now), j, t, now) == Marked(Marked(queue, j, t, now), i, s, now);
  }

  lemma EmbeddingsCommute(embeddings: map<string, Vector>, e: string, o: RowOutcome, f: string, u: RowOutcome)
    requires e == f && o.Done? && u.Done? ==> o.vector == u.vector
    ensures Embedded(Embedded(embeddings, e, o), f, u) == Embedded(Embedded(embeddings, f, u), e, o)
  {
    assert Embedded(Embedded(embeddings, e, o), f, u) == Embedded(Embedded(embeddings, f, u), e, o);
  }

  lemma TwoHandled(b: Books, r: Claimed, o1: Option<string>, r1: RowOutcome, q: Claimed, o2: Option<string>,
                   r2: RowOutcome, now: nat)
    requires r.id != q.id
    requires r.entity == q.entity && r1.Done? && r2.Done? ==> r1.vector == r2.vector
    ensures Handle(Handle(b, r, o1, r1, now), q, o2, r2, now) == Handle(Handle(b, q, o2, r2, now), r, o1, r1, now)
  {
    var s1, s2 := StatusFor(r1, r.attempts), StatusFor(r2, q.attempts);
    CreditsCommute(b.tallies, o1, s1, o2, s2);
    MarksCommute(b.queue, r.id, s1, q.id, s2, now);
    EmbeddingsCommute(b.embeddings, r.entity, r1, q.entity, r2);
  }

  lemma HandlingCommutes(r: Claimed, q: Claimed, org: string -> Option<string>, out: Claimed -> RowOutcome, now: nat)
    requires r.id != q.id && OneVectorPerEntity(out)
    ensures Commute(Handling(org, out, now), r, q)
  {
    var f := Handling(org, out, now);
    forall b: Books
      ensures f(f(b, r), q) == f(f(b, q), r)
    {
      TwoHandled(b, r, org(r.entity), out(r), q, org(q.entity), out(q), now);
    }
  }

  /** The order of a batch does not matter. */
  lemma BatchOrderIsIrrelevant(b: Books, rows: seq<Claimed>, order: seq<Claimed>, org: string -> Option<string>,
                               out: Claimed -> RowOutcome, now: nat)
    requires multiset(rows) == multiset(order) && DistinctIds(rows) && OneVectorPerEntity(out)
    ensures HandleAll(b, rows, org, out, now) == HandleAll(b, order, org, out, now)
  {
    forall i, j | 0 <= i < j < |rows|
      ensures Commute(Handling(org, out, now), rows[i], rows[j])
    {
      HandlingCommutes(rows[i], rows[j], org, out, now);
    }
    OrderIsIrrelevant(Handling(org, out, now), b, rows, order);
  }

  // --- Conservation ---

  function Rows(d: OrgDelta): nat {
    d.succeeded + d.failedRetryable + d.failedPermanent
  }

  /** The rows tallied to any org. */
  ghost function Tallied(tallies: map<string, OrgDelta>): nat {
    if tallies == map[] then 0
    else
      var org :| org in tallies;
      Rows(tallies[org]) + Tallied(tallies - {org})
  }

  lemma {:induction false} TalliedWithout(tallies: map<string, OrgDelta>, org: string)
    requires org in tallies
    ensures Tallied(tallies) == Rows(tallies[org]) + Tallied(tallies - {org})
    decreases |tallies|
  {
    var first :| first in tallies && Tallied(tallies) == Rows(tallies[first]) + Tallied(tallies - {first});
    if first != org {
      TalliedWithout(tallies - {first}, org);
      TalliedWithout(tallies - {org}, first);
      assert tallies - {first} - {org} == tallies - {org} - {first};
    }
  }

  lemma CreditCountsOne(tallies: map<string, OrgDelta>, org: string, status: L.Status)
    ensures Tallied(Credited(tallies, Some(org), status)) == Tallied(tallies) + 1
  {
    var after := Credited(tallies, Some(org), status);
    TalliedWithout(after, org);
    if org in tallies {
      TalliedWithout(tallies, org);
      assert after - {org} == tallies - {org};
    } else {
      assert after - {org} == tallies;
    }
  }

  ghost function WithoutOrg(rows: seq<Claimed>, org: string -> Option<string>): nat {
    if rows == [] then 0
    else WithoutOrg(rows[..|rows| - 1], org) + if org(rows[|rows| - 1].entity).None? then 1 else 0
  }

  function Ids(rows: seq<Claimed>): multiset<string> {
    if rows == [] then multiset{} else Ids(rows[..|rows| - 1]) + multiset{rows[|rows| - 1].id}
  }

  lemma IdsAppend(rows: seq<Claimed>, r: Claimed)
    ensures Ids(rows + [r]) == Ids(rows) + multiset{r.id}
  {
    assert (rows + [r])[..|rows|] == rows;
  }

  lemma {:induction false} IdsWithout(rows: seq<Claimed>, i: nat)
    requires i < |rows|
    ensures Ids(rows) == Ids(Without(rows, i)) + multiset{rows[i].id}
  {
    var n := |rows| - 1;
    if i == n {
      assert Without(rows, i) == rows[..n];
    } else {
      IdsWithout(rows[..n], i);
      assert Without(rows, i) == Without(rows[..n], i) + [rows[n]];
      IdsAppend(Without(rows[..n], i), rows[n]);
    }
  }

  lemma {:induction false} WithoutOrgWithout(rows: seq<Claimed>, i: nat, org: string -> Option<string>)
    requires i < |rows|
    ensures WithoutOrg(rows, org) == WithoutOrg(Without(rows, i), org) + if org(rows[i].entity).None? then 1 else 0
  {
    var n := |rows| - 1;
    if i == n {
      assert Without(rows, i) == rows[..n];
    } else {
      WithoutOrgWithout(rows[..n], i, org);
      var others := Without(rows, i);
      assert others[..n - 1] == Without(rows[..n], i) && others[n - 1] == rows[n];
    }
  }

  lemma {:induction false} CountsIgnoreOrder(rows: seq<Claimed>, order: seq<Claimed>, org: string -> Option<string>)
    requires multiset(rows) == multiset(order)
    ensures Ids(order) == Ids(rows) && WithoutOrg(order, org) == WithoutOrg(rows, org)
    decreases |rows|
  {
    SameSize(rows, order);
    if rows != [] {
      var i := Twin(rows, order, 0);
      IdsWithout(rows, i);
      IdsWithout(order, 0);
      WithoutOrgWithout(rows, i, org);
      WithoutOrgWithout(order, 0, org);
      CountsIgnoreOrder(Without(rows, i), Without(order, 0), org);
    }
  }

  /** Every row is marked exactly once, and the tallies plus the rows without an org account
      for every row, whatever the outcomes. */
  lemma {:induction false} RowsAreConserved(b: Books, rows: seq<Claimed>, org: string -> Option<string>,
                                            out: Claimed -> RowOutcome, now: nat)
    ensures var after := HandleAll(b, rows, org, out, now);
            && after.marks == b.marks + Ids(rows)
            && Tallied(after.tallies) + WithoutOrg(rows, org) == Tallied(b.tallies) + |rows|
            && after.queue.Keys == b.queue.Keys
  {
    if rows != [] {
      var init, r := rows[..|rows| - 1], rows[|rows| - 1];
      RowsAreConserved(b, init, org, out, now);
      if org(r.entity).Some? {
        CreditCountsOne(HandleAll(b, init, org, out, now).tallies, org(r.entity).value, StatusFor(out(r), r.attempts));
      }
    }
  }

  // --- The tallies say how the rows ended ---

  /** A success, a fault worth another try below the limit, or the end. */
  lemma FateOfARow(o: RowOutcome, attempt: nat)
    ensures StatusFor(o, attempt) ==
            match o
            case Done(_) => L.Succeeded
            case Failed(retryable) => if retryable && attempt < 5 then L.FailedRetryable else L.FailedPermanent
  {
  }

  /** The rows of an org that `queue` holds with this status. */
  ghost function Ended(rows: seq<Claimed>, org: string -> Option<string>, queue: map<string, QueueRow>, o: string,
                       status: L.Status): set<string> {
    set r | r in rows && org(r.entity) == Some(o) && r.id in queue && queue[r.id].status == status :: r.id
  }

  ghost predicate HasRows(rows: seq<Claimed>, org: string -> Option<string>, o: string) {
    exists r :: r in rows && org(r.entity) == Some(o)
  }

  /** The counters of org `o` have grown by its rows, each counted as it ended. */
  ghost predicate TalliesShow(before: map<string, OrgDelta>, after: map<string, OrgDelta>, rows: seq<Claimed>,
                              org: string -> Option<string>, queue: map<string, QueueRow>, o: string) {
    && (o in after <==> o in before || HasRows(rows, org, o))
    && (o in after ==>
          var d := if o in before then before[o] else OrgDelta(0, 0, 0);
          && after[o].succeeded == d.succeeded + |Ended(rows, org, queue, o, L.Succeeded)|
          && after[o].failedRetryable == d.failedRetryable + |Ended(rows, org, queue, o, L.FailedRetryable)|
          && after[o].failedPermanent == d.failedPermanent + |Ended(rows, org, queue, o, L.FailedPermanent)|)
  }

  lemma HasRowsOneMore(rows: seq<Claimed>, r: Claimed, org: string -> Option<string>, o: string)
    ensures HasRows(rows + [r], org, o) <==> HasRows(rows, org, o) || org(r.entity) == Some(o)
  {
    assert r in rows + [r] && forall q :: q in rows + [r] <==> q in rows || q == r;
  }

  lemma EndedMember(rows: seq<Claimed>, org: string -> Option<string>, queue: map<string, QueueRow>, o: string,
                    status: L.Status, id: string)
    ensures id in Ended(rows, org, queue, o, status) <==>
            id in queue && queue[id].status == status && exists r :: r in rows && r.id == id && org(r.entity) == Some(o)
  {
  }

  lemma MembersOneMore(rows: seq<Claimed>, r: Claimed)
    ensures forall q :: q in rows + [r] <==> q in rows || q == r
  {
    assert (rows + [r])[|rows|] == r;
  }

  lemma EndedMemberOneMore(rows: seq<Claimed>, r: Claimed, org: string -> Option<string>, queue: map<string, QueueRow>,
                           o: string, status: L.Status, now: nat, fate: L.Status, id: string)
    requires r.id in queue && forall q :: q in rows ==> q.id != r.id
    ensures var after := queue[r.id := MarkedRow(queue[r.id], fate, now)];
            id in Ended(rows + [r], org, after, o, status) <==>
            if id == r.id then org(r.entity) == Some(o) && fate == status else id in Ended(rows, org, queue, o, status)
  {
    var after := queue[r.id := MarkedRow(queue[r.id], fate, now)];
    MembersOneMore(rows, r);
    EndedMember(rows, org, queue, o, status, id);
    EndedMember(rows + [r], org, after, o, status, id);
  }

  lemma EndedOneMore(rows: seq<Claimed>, r: Claimed, org: string -> Option<string>, queue: map<string, QueueRow>,
                     o: string, status: L.Status, now: nat, fate: L.Status)
    requires r.id in queue && forall q :: q in rows ==> q.id != r.id
    ensures var after := queue[r.id := MarkedRow(queue[r.id], fate, now)];
            |Ended(rows + [r], org, after, o, status)| ==
            |Ended(rows, org, queue, o, status)| + if org(r.entity) == Some(o) && fate == status then 1 else 0
  {
    var before, after := Ended(rows, org, queue, o, status), queue[r.id := MarkedRow(queue[r.id], fate, now)];
    var grown := Ended(rows + [r], org, after, o, status);
    EndedMember(rows, org, queue, o, status, r.id);
    forall id
      ensures id in grown <==>
              if id == r.id then org(r.entity) == Some(o) && fate == status else id in before
    {
      EndedMemberOneMore(rows, r, org, queue, o, status, now, fate, id);
    }
    GrownByOne(before, grown, r.id, org(r.entity) == Some(o) && fate == status);
  }

  lemma GrownByOne(before: set<string>, grown: set<string>, id: string, more: bool)
    requires id !in before && forall k :: k in grown <==> if k == id then more else k in before
    ensures |grown| == |before| + if more then 1 else 0
  {
    assert grown == if more then before + {id} else before;
  }

  lemma HandledTallies(b: Books, r: Claimed, org: Option<string>, out: RowOutcome, now: nat, o: string)
    ensures var after, fate := Handle(b, r, org, out, now).tallies, StatusFor(out, r.attempts);
            && (o in after <==> o in b.tallies || org == Some(o))
            && (o in after ==>
                  var d := if o in b.tallies then b.tallies[o] else OrgDelta(0, 0, 0);
                  after[o] == if org != Some(o) then d
                              else if fate == L.Succeeded then d.(succeeded := d.succeeded + 1)
                              else if fate == L.FailedRetryable then d.(failedRetryable := d.failedRetryable + 1)
                              else d.(failedPermanent := d.failedPermanent + 1))
  {
  }

  /** However a batch is handled, each org's counters grow by the numbers of its rows that the
      queue then holds as succeeded, as to be retried and as failed, and no other org is tallied. */
  lemma {:induction false} TalliesCountEndings(b: Books, rows: seq<Claimed>, org: string -> Option<string>,
                                               out: Claimed -> RowOutcome, now: nat, o: string)
    requires DistinctIds(rows) && forall r :: r in rows ==> r.id in b.queue
    ensures var after := HandleAll(b, rows, org, out, now);
            TalliesShow(b.tallies, after.tallies, rows, org, after.queue, o)
  {
    if rows != [] {
      var init, r := rows[..|rows| - 1], rows[|rows| - 1];
      LastIsNew(rows);
      assert rows == init + [r];
      TalliesCountEndings(b, init, org, out, now, o);
      var done := HandleAll(b, init, org, out, now);
      RowsAreConserved(b, init, org, out, now);
      OneMoreTallied(b, init, r, org, out, now, o, done);
    }
  }

  lemma OneMoreTallied(b: Books, init: seq<Claimed>, r: Claimed, org: string -> Option<string>,
                       out: Claimed -> RowOutcome, now: nat, o: string, done: Books)
    requires r.id in done.queue && forall q :: q in init ==> q.id != r.id
    requires TalliesShow(b.tallies, done.tallies, init, org, done.queue, o)
    ensures var after := Handle(done, r, org(r.entity), out(r), now);
            TalliesShow(b.tallies, after.tallies, init + [r], org, after.queue, o)
  {
    var fate := StatusFor(out(r), r.attempts);
    FateOfARow(out(r), r.attempts);
    HandledTallies(done, r, org(r.entity), out(r), now, o);
    HasRowsOneMore(init, r, org, o);
    EndedOneMore(init, r, org, done.queue, o, L.Succeeded, now, fate);
    EndedOneMore(init, r, org, done.queue, o, L.FailedRetryable, now, fate);
    EndedOneMore(init, r, org, done.queue, o, L.FailedPermanent, now, fate);
  }

  /** Each handled row ends with the status its own outcome and attempt call for. */
  lemma {:induction false} StatusesAfter(b: Books, rows: seq<Claimed>, org: string -> Option<string>,
                                         out: Claimed -> RowOutcome,
                                         now: nat, id: string)
    requires DistinctIds(rows) && id in b.queue
    ensures var after := HandleAll(b, rows, org, out, now);
            && id in after.queue
            && (forall r :: r in rows && r.id == id ==>
               after.queue[id] == MarkedRow(b.queue[id], StatusFor(out(r), r.attempts), now))
            && ((forall r :: r in rows ==> r.id != id) ==> after.queue[id] == b.queue[id])
  {
    if rows != [] {
      var init, last := rows[..|rows| - 1], rows[|rows| - 1];
      StatusesAfter(b, init, org, out, now, id);
      LastIsNew(rows);
      assert HandleAll(b, rows, org, out, now) ==
             Handle(HandleAll(b, init, org, out, now), last, org(last.entity), out(last), now);
    }
  }

  lemma LastIsNew(rows: seq<Claimed>)
    requires rows != [] && DistinctIds(rows)
    ensures var init, last := rows[..|rows| - 1], rows[|rows| - 1];
            && DistinctIds(init) && (forall q :: q in rows <==> q in init || q == last)
            && forall q :: q in init ==> q.id != last.id
  {
    var init, last := rows[..|rows| - 1], rows[|rows| - 1];
    assert rows == init + [last];
    forall q | q in init
      ensures q.id != last.id
    {
      var k :| 0 <= k < |init| && init[k] == q;
      assert rows[k].id != rows[|rows| - 1].id;
    }
  }
}
