/** Runs of the enrichment queue's table under any number of workers: its own statements, in any
    order, and what they mean for the claims of each row. */
module EnrichmentRuns {
  import opened Text
  import opened EnrichmentBooks
  import opened EnrichmentWorker
  import L = LeaseLedger

  /** `open` holds the claims whose tick may still commit a mark; the last two fields are history. */
  datatype Tables = Tables(queue: Queue, open: set<(string, nat)>, reaps: map<string, nat>, marks: map<string, nat>)

  const NO_ROWS := Tables(map[], {}, map[], map[])

  /** A mark is committed, or its tick ends without one: rolled back, or killed. */
  datatype Statement =
    | Enqueue(id: string, entity: string, now: nat)
    | Reap(now: nat)
    | ClaimRows(claimed: seq<Claimed>, limit: nat, now: nat)
    | Mark(id: string, attempt: nat, outcome: RowOutcome, now: nat)
    | Abandon(id: string, attempt: nat)

  ghost predicate Enabled(t: Tables, st: Statement) {
    match st
    case Enqueue(id, _, _) => id !in t.queue
    case Reap(_) => true
    case ClaimRows(claimed, limit, _) => ClaimedFrom(t.queue, claimed, limit)
    case Mark(id, a, o, now) =>
      (id, a) in t.open && id in t.queue && TimingOk(MarkedRow(t.queue[id], StatusFor(o, a), now))
    case Abandon(id, a) => (id, a) in t.open
  }

  ghost function Taken(queue: Queue, claimed: seq<Claimed>, now: nat): (queue': Queue)
    ensures Took(queue, claimed, now, queue')
  {
    map id | id in queue :: if Has(claimed, id) then ClaimedRow(queue[id], now) else queue[id]
  }

  /** The claims a statement hands out. */
  ghost function Charges(claimed: seq<Claimed>): set<(string, nat)> {
    set r | r in claimed :: (r.id, r.attempts)
  }

  ghost function Next(t: Tables, st: Statement): Tables
    requires Enabled(t, st)
  {
    match st
    case Enqueue(id, entity, now) =>
      Tables(t.queue[id := QueueRow(entity, L.Pending, 0, now, None, None)], t.open, t.reaps[id := 0], t.marks[id := 0])
    case Reap(now) =>
      t.(queue := ReapAll(t.queue, now),
         reaps := map id | id in t.reaps :: t.reaps[id] + if id in t.queue && Stalled(t.queue[id], now) then 1 else 0)
    case ClaimRows(claimed, _, now) =>
      t.(queue := Taken(t.queue, claimed, now), open := t.open + Charges(claimed))
    case Mark(id, a, o, now) =>
      t.(queue := t.queue[id := MarkedRow(t.queue[id], StatusFor(o, a), now)], open := t.open - {(id, a)},
         marks := t.marks[id := (if id in t.marks then t.marks[id] else 0) + 1])
    case Abandon(id, a) => t.(open := t.open - {(id, a)})
  }

  ghost predicate Run(ts: seq<Tables>, sts: seq<Statement>) {
    && |ts| == |sts| + 1
    && ts[0] == NO_ROWS
    && forall i {:trigger Leads(ts[i], sts[i], ts[i + 1])} :: 0 <= i < |sts| ==> Leads(ts[i], sts[i], ts[i + 1])
  }

  ghost predicate Leads(t: Tables, st: Statement, t': Tables) {
    Enabled(t, st) && t' == Next(t, st)
  }

  /** One statement of a run. */
  lemma StatementAt(ts: seq<Tables>, sts: seq<Statement>, i: nat)
    requires Run(ts, sts) && i < |sts|
    ensures Enabled(ts[i], sts[i]) && ts[i + 1] == Next(ts[i], sts[i])
  {
    assert Leads(ts[i], sts[i], ts[i + 1]);
  }

  // --- Each row follows its claim ledger ---

  ghost predicate TablesOk(t: Tables) {
    && t.queue.Keys == t.reaps.Keys == t.marks.Keys
    && TimingsOk(t.queue)
    && forall id: string, a: nat :: (id, a) in t.open ==> id in t.queue && 1 <= a <= t.queue[id].attempts
  }

  ghost function OpenOf(t: Tables, id: string): set<nat>
    requires id in t.queue
  {
    set a: nat | 1 <= a <= t.queue[id].attempts && (id, a) in t.open
  }

  ghost function LedgerOf(t: Tables, id: string): L.Ledger
    requires TablesOk(t) && id in t.queue
  {
    L.Ledger(t.queue[id].status, t.queue[id].attempts, t.reaps[id], t.marks[id], OpenOf(t, id))
  }

  function OutcomeOf(o: RowOutcome): L.Outcome {
    if o.Done? then L.Success else L.Failure(o.retryable)
  }

  /** What a statement is for row `id`: nothing, or one ledger step. */
  ghost function LedgerStep(t: Tables, st: Statement, id: string): Option<L.Step>
    requires id in t.queue
  {
    match st
    case Reap(now) => if Stalled(t.queue[id], now) then Some(L.Reap) else None
    case ClaimRows(claimed, _, _) => if Has(claimed, id) then Some(L.Claim) else None
    case Mark(k, a, o, _) => if k == id then Some(L.Finish(a, OutcomeOf(o))) else None
    case Abandon(k, a) => if k == id then Some(L.Lose(a)) else None
    case Enqueue(_, _, _) => None
  }

  lemma StatementKeepsTables(t: Tables, st: Statement)
    requires TablesOk(t) && Enabled(t, st)
    ensures TablesOk(Next(t, st))
  {
    if st.ClaimRows? {
      forall r | r in st.claimed
        ensures Has(st.claimed, r.id)
      {
        var i :| 0 <= i < |st.claimed| && st.claimed[i] == r;
      }
    }
  }

  ghost predicate FollowsLedger(t: Tables, st: Statement, id: string)
    requires TablesOk(t) && Enabled(t, st) && id in t.queue
  {
    var t', lstep := Next(t, st), LedgerStep(t, st, id);
    && TablesOk(t') && id in t'.queue
    && (lstep.Some? ==> L.Enabled(LedgerOf(t, id), lstep.value))
    && LedgerOf(t', id) == if lstep.Some? then L.Next(LedgerOf(t, id), lstep.value, false) else LedgerOf(t, id)
  }

  lemma HasMember(claimed: seq<Claimed>, id: string)
    ensures Has(claimed, id) <==> exists r :: r in claimed && r.id == id
  {
    if Has(claimed, id) {
      var i :| 0 <= i < |claimed| && claimed[i].id == id;
      assert claimed[i] in claimed;
    }
    if exists r :: r in claimed && r.id == id {
      var r :| r in claimed && r.id == id;
      var i :| 0 <= i < |claimed| && claimed[i] == r;
    }
  }

  lemma ChargesOnce(queue: Queue, claimed: seq<Claimed>, limit: nat, id: string, a: nat)
    requires ClaimedFrom(queue, claimed, limit) && id in queue
    ensures (id, a) in Charges(claimed) <==> Has(claimed, id) && a == queue[id].attempts + 1
  {
    HasMember(claimed, id);
  }

  lemma ClaimOpens(t: Tables, st: Statement, id: string)
    requires TablesOk(t) && Enabled(t, st) && id in t.queue && st.ClaimRows?
    ensures OpenOf(Next(t, st), id) ==
            if Has(st.claimed, id) then OpenOf(t, id) + {t.queue[id].attempts + 1} else OpenOf(t, id)
  {
    var t' := Next(t, st);
    forall a: nat
      ensures a in OpenOf(t', id) <==> a in OpenOf(t, id) || (Has(st.claimed, id) && a == t.queue[id].attempts + 1)
    {
      ChargesOnce(t.queue, st.claimed, st.limit, id, a);
      assert (id, a) in t'.open <==> (id, a) in t.open || (id, a) in Charges(st.claimed);
    }
  }

  lemma ClaimFollowsLedger(t: Tables, st: Statement, id: string)
    requires TablesOk(t) && Enabled(t, st) && id in t.queue && st.ClaimRows?
    ensures FollowsLedger(t, st, id)
  {
    StatementKeepsTables(t, st);
    ClaimOpens(t, st, id);
    HasMember(st.claimed, id);
  }

  lemma MarkFollowsLedger(t: Tables, st: Statement, id: string)
    requires TablesOk(t) && Enabled(t, st) && id in t.queue && (st.Mark? || st.Abandon?)
    ensures FollowsLedger(t, st, id)
  {
    StatementKeepsTables(t, st);
    assert OpenOf(Next(t, st), id) == if st.id == id then OpenOf(t, id) - {st.attempt} else OpenOf(t, id);
    assert st.Mark? ==> StatusFor(st.outcome, st.attempt) == L.Classify(OutcomeOf(st.outcome), st.attempt);
  }

  lemma StatementFollowsLedger(t: Tables, st: Statement, id: string)
    requires TablesOk(t) && Enabled(t, st) && id in t.queue
    ensures FollowsLedger(t, st, id)
  {
    if st.ClaimRows? {
      ClaimFollowsLedger(t, st, id);
    } else if st.Mark? || st.Abandon? {
      MarkFollowsLedger(t, st, id);
    } else {
      StatementKeepsTables(t, st);
      assert OpenOf(Next(t, st), id) == OpenOf(t, id);
    }
  }

  lemma {:induction false} TablesThroughout(ts: seq<Tables>, sts: seq<Statement>, i: nat)
    requires Run(ts, sts) && i < |ts|
    ensures TablesOk(ts[i])
  {
    if i > 0 {
      TablesThroughout(ts, sts, i - 1);
      StatementAt(ts, sts, i - 1);
      StatementKeepsTables(ts[i - 1], sts[i - 1]);
    }
  }

  lemma {:induction false} AccountedThroughout(ts: seq<Tables>, sts: seq<Statement>, i: nat, id: string)
    requires Run(ts, sts) && i < |ts| && id in ts[i].queue
    ensures TablesOk(ts[i]) && L.Accounted(LedgerOf(ts[i], id), false)
  {
    TablesThroughout(ts, sts, i);
    var t, st := ts[i - 1], sts[i - 1];
    TablesThroughout(ts, sts, i - 1);
    StatementAt(ts, sts, i - 1);
    if id in t.queue {
      AccountedThroughout(ts, sts, i - 1, id);
      StatementFollowsLedger(t, st, id);
      var lstep := LedgerStep(t, st, id);
      if lstep.Some? {
        L.AccountedStep(LedgerOf(t, id), lstep.value, false);
      }
    } else {
      assert OpenOf(ts[i], id) == {};
      assert LedgerOf(ts[i], id) == L.FRESH;
      L.FreshAccounted(false);
    }
  }

  // --- Counting claims and reaps ---

  ghost function ClaimsOf(sts: seq<Statement>, id: string): nat {
    if sts == [] then 0
    else
      var last := sts[|sts| - 1];
      ClaimsOf(sts[..|sts| - 1], id) + if last.ClaimRows? && Has(last.claimed, id) then 1 else 0
  }

  /** The reaps that took row `id`. */
  ghost function ReapsOf(ts: seq<Tables>, sts: seq<Statement>, id: string): nat
    requires |ts| >= |sts|
  {
    if sts == [] then 0
    else
      var n := |sts| - 1;
      ReapsOf(ts, sts[..n], id) +
      if sts[n].Reap? && id in ts[n].queue && Stalled(ts[n].queue[id], sts[n].now) then 1 else 0
  }

  lemma {:induction false} HistoryIsCounted(ts: seq<Tables>, sts: seq<Statement>, i: nat, id: string)
    requires Run(ts, sts) && i < |ts|
    ensures TablesOk(ts[i])
    ensures ClaimsOf(sts[..i], id) == if id in ts[i].queue then ts[i].queue[id].attempts else 0
    ensures ReapsOf(ts, sts[..i], id) == if id in ts[i].queue then ts[i].reaps[id] else 0
  {
    TablesThroughout(ts, sts, i);
    if i > 0 {
      var t, st := ts[i - 1], sts[i - 1];
      HistoryIsCounted(ts, sts, i - 1, id);
      StatementAt(ts, sts, i - 1);
      assert sts[..i][..i - 1] == sts[..i - 1];
      if id in t.queue {
        StatementFollowsLedger(t, st, id);
      } else if st.ClaimRows? {
        HasMember(st.claimed, id);
      }
    }
  }

  /** Each reap ends a claim of its own, and the claim in progress has not been reaped. */
  lemma {:induction false} ReapsEndClaims(ts: seq<Tables>, sts: seq<Statement>, i: nat, id: string)
    requires Run(ts, sts) && i < |ts| && id in ts[i].queue
    ensures id in ts[i].reaps
    ensures ts[i].reaps[id] + (if ts[i].queue[id].status == L.InProgress then 1 else 0) <= ts[i].queue[id].attempts
  {
    TablesThroughout(ts, sts, i);
    TablesThroughout(ts, sts, i - 1);
    StatementAt(ts, sts, i - 1);
    if id in ts[i - 1].queue {
      ReapsEndClaims(ts, sts, i - 1, id);
      StatementFollowsLedger(ts[i - 1], sts[i - 1], id);
    }
  }

  /** Over any run of the table, late marks included, a row is claimed at least as often as it is
      reaped and at most MAX times more: nothing bounds the one that does not bound the other. */
  lemma ClaimsAreBounded(ts: seq<Tables>, sts: seq<Statement>, id: string)
    requires Run(ts, sts)
    ensures ReapsOf(ts, sts, id) <= ClaimsOf(sts, id) <= L.MAX_ATTEMPTS + ReapsOf(ts, sts, id)
  {
    HistoryIsCounted(ts, sts, |sts|, id);
    assert sts[..|sts|] == sts;
    if id in ts[|sts|].queue {
      ReapsEndClaims(ts, sts, |sts|, id);
      AccountedThroughout(ts, sts, |sts|, id);
      L.AccountedBounds(LedgerOf(ts[|sts|], id), false);
    }
  }

  // --- The bound is reached, for any number of reaps ---

  /** The table's only row, and when its claim in progress began. */
  ghost predicate Sole(t: Tables, id: string, status: L.Status, attempts: nat, reaps: nat, since: nat) {
    && t.queue.Keys == {id} == t.reaps.Keys && t.reaps[id] == reaps
    && var row := t.queue[id];
       && row.status == status && row.attempts == attempts && TimingOk(row)
       && (status == L.InProgress ==> row.startedAt == Some(since) && (id, attempts) in t.open)
  }

  lemma Extended(ts: seq<Tables>, sts: seq<Statement>, st: Statement)
    returns (ts': seq<Tables>, sts': seq<Statement>)
    requires Run(ts, sts) && Enabled(ts[|sts|], st)
    ensures Run(ts', sts') && ts'[|sts'|] == Next(ts[|sts|], st)
  {
    ts', sts' := ts + [Next(ts[|sts|], st)], sts + [st];
  }

  lemma SoleClaimed(ts: seq<Tables>, sts: seq<Statement>, id: string, status: L.Status, attempts: nat, reaps: nat,
                    since: nat, now: nat)
    returns (ts': seq<Tables>, sts': seq<Statement>)
    requires Run(ts, sts) && Sole(ts[|sts|], id, status, attempts, reaps, since) && L.Claimable(status)
    ensures Run(ts', sts') && Sole(ts'[|sts'|], id, L.InProgress, attempts + 1, reaps, now)
  {
    var claimed := [Claimed(id, ts[|sts|].queue[id].entity, attempts + 1)];
    assert Has(claimed, id) && claimed[0] in claimed;
    ts', sts' := Extended(ts, sts, ClaimRows(claimed, EMBEDDING_BATCH_LIMIT, now));
  }

  lemma SoleRetried(ts: seq<Tables>, sts: seq<Statement>, id: string, k: nat)
    returns (ts': seq<Tables>, sts': seq<Statement>)
    requires Run(ts, sts) && Sole(ts[|sts|], id, L.InProgress, k, 0, 0) && k < L.MAX_ATTEMPTS
    ensures Run(ts', sts') && Sole(ts'[|sts'|], id, L.InProgress, k + 1, 0, 0)
  {
    ts', sts' := Extended(ts, sts, Mark(id, k, Failed(true), 0));
    ts', sts' := SoleClaimed(ts', sts', id, L.FailedRetryable, k, 0, 0, 0);
  }

  lemma SoleReaped(ts: seq<Tables>, sts: seq<Statement>, id: string, attempts: nat, reaps: nat, since: nat, now: nat)
    returns (ts': seq<Tables>, sts': seq<Statement>)
    requires Run(ts, sts) && Sole(ts[|sts|], id, L.InProgress, attempts, reaps, since)
    requires since + STALL_THRESHOLD_S < now
    ensures Run(ts', sts') && Sole(ts'[|sts'|], id, L.InProgress, attempts + 1, reaps + 1, now)
  {
    ts', sts' := Extended(ts, sts, Reap(now));
    ts', sts' := SoleClaimed(ts', sts', id, L.Pending, attempts, reaps + 1, since, now);
  }

  /** A transient provider fault is retried below the limit, a dead lease is reaped at any count:
      for every number of reaps some run claims the row MAX times more. */
  lemma MostClaimsAreReached(id: string, entity: string, n: nat) returns (ts: seq<Tables>, sts: seq<Statement>)
    ensures Run(ts, sts) && ReapsOf(ts, sts, id) == n && ClaimsOf(sts, id) == L.MAX_ATTEMPTS + n
  {
    ts, sts := Extended([NO_ROWS], [], Enqueue(id, entity, 0));
    ts, sts := SoleClaimed(ts, sts, id, L.Pending, 0, 0, 0, 0);
    for k := 1 to L.MAX_ATTEMPTS
      invariant Run(ts, sts) && Sole(ts[|sts|], id, L.InProgress, k, 0, 0)
    {
      ts, sts := SoleRetried(ts, sts, id, k);
    }
    var clock: nat := 0;
    for k := 0 to n
      invariant Run(ts, sts) && Sole(ts[|sts|], id, L.InProgress, L.MAX_ATTEMPTS + k, k, clock)
    {
      ts, sts := SoleReaped(ts, sts, id, L.MAX_ATTEMPTS + k, k, clock, clock + STALL_THRESHOLD_S + 1);
      clock := clock + STALL_THRESHOLD_S + 1;
    }
    HistoryIsCounted(ts, sts, |sts|, id);
    assert sts[..|sts|] == sts;
  }
}
