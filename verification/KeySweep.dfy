/** What a finished sweep promises, over a whole run: when every row still reads as last written,
    and when the old key can go. */
module KeySweep {
  import opened Text
  import opened Crypto
  import opened CredentialStore
  import opened KeyRotation

  predicate WritesTo(step: Step, id: string) {
    step.id == id && (step.Write? || step.Store?)
  }

  /** No step up to i that is later than step k writes its row. */
  predicate LastWord(steps: seq<Step>, k: nat, i: nat)
    requires k < i <= |steps|
  {
    forall l :: k < l < i ==> !WritesTo(steps[l], steps[k].id)
  }

  // --- What a row stands for at the end ---

  /** The row reads as last written exactly when it is clean, and of a row that is not, the sweep
      holds nothing that would mend it. */
  ghost predicate TextSettled(s: State, id: string, clean: bool) {
    id in s.rows ==>
      && id in s.meant && id in s.shows
      && (s.shows[id] == s.meant[id] <==> clean)
      && (!clean && id in s.snaps ==> s.snaps[id].shows == s.shows[id])
  }

  ghost predicate CleanAfter(w: Window, s: State, step: Step, id: string, clean: bool) {
    if step.id != id then clean else WritesTo(step, id) || (clean && HarmlessAt(w, s, step))
  }

  lemma CommitSettles(w: Window, s: State, id: string, salt: string -> nat, clean: bool)
    requires Shows(w, s) && Enabled(w, s, Commit(id, salt)) && TextSettled(s, id, clean)
    ensures TextSettled(Next(w, s, Commit(id, salt)), id, clean && HarmlessAt(w, s, Commit(id, salt)))
  {
    var snap := s.snaps[id];
    if clean {
      ShownExactly(w, s.meant[id], snap);
    } else {
      assert s.shows[id] + Only(s.shows[id], Touched(w, snap.row)) == s.shows[id];
    }
  }

  lemma StepSettles(w: Window, s: State, step: Step, id: string, clean: bool)
    requires Shows(w, s) && Enabled(w, s, step) && TextSettled(s, id, clean)
    ensures TextSettled(Next(w, s, step), id, CleanAfter(w, s, step, id, clean))
  {
    if step.Commit? && step.id == id {
      CommitSettles(w, s, id, step.salt, clean);
    }
  }

  /** The commits on the row since its last write were harmless. */
  ghost predicate Clean(w: Window, states: seq<State>, steps: seq<Step>, i: nat, id: string)
    requires i <= |steps| <= |states|
  {
    i == 0 || CleanAfter(w, states[i - 1], steps[i - 1], id, Clean(w, states, steps, i - 1, id))
  }

  lemma {:induction false} CleanExactly(w: Window, states: seq<State>, steps: seq<Step>, i: nat, id: string)
    requires i <= |steps| <= |states|
    ensures Clean(w, states, steps, i, id) <==>
            forall k: nat :: k < i && steps[k].id == id && LastWord(steps, k, i) ==> HarmlessAt(w, states[k], steps[k])
  {
    if i > 0 {
      CleanExactly(w, states, steps, i - 1, id);
      assert LastWord(steps, i - 1, i);
      forall k: nat | k < i - 1 && steps[k].id == id
        ensures LastWord(steps, k, i) <==> LastWord(steps, k, i - 1) && !WritesTo(steps[i - 1], id)
      {
      }
    }
  }

  lemma StartsSettled(w: Window, s: State, id: string)
    requires Shows(w, s) && AllRead(w, Both(w), s)
    ensures TextSettled(s, id, true)
  {
    if id in s.rows {
      ReadsOneWay(w, Both(w), s.rows[id], s.shows[id], s.meant[id]);
    }
  }

  lemma {:induction false} SettledThroughout(w: Window, states: seq<State>, steps: seq<Step>, i: nat, id: string)
    requires Proper(w) && Run(w, states, steps) && Shows(w, states[0]) && AllRead(w, Both(w), states[0])
    requires i < |states|
    ensures TextSettled(states[i], id, Clean(w, states, steps, i, id))
  {
    if i == 0 {
      StartsSettled(w, states[0], id);
    } else {
      SettledThroughout(w, states, steps, i - 1, id);
      NextSettled(w, states, steps, i - 1, id, Clean(w, states, steps, i - 1, id));
    }
  }

  lemma NextSettled(w: Window, states: seq<State>, steps: seq<Step>, i: nat, id: string, clean: bool)
    requires Proper(w) && Run(w, states, steps) && Shows(w, states[0]) && i < |steps|
    requires TextSettled(states[i], id, clean)
    ensures TextSettled(states[i + 1], id, CleanAfter(w, states[i], steps[i], id, clean))
  {
    ShowsThroughout(w, states, steps, i);
    StepAt(w, states, steps, i);
    StepSettles(w, states[i], steps[i], id, clean);
  }

  lemma {:induction false} RowsStay(w: Window, states: seq<State>, steps: seq<Step>, k: nat, i: nat, id: string)
    requires Run(w, states, steps) && k <= i < |states| && id in states[k].rows
    ensures id in states[i].rows
    decreases i
  {
    if k < i {
      RowsStay(w, states, steps, k, i - 1, id);
      StepAt(w, states, steps, i - 1);
    }
  }

  lemma RowReadsAtTheEnd(w: Window, states: seq<State>, steps: seq<Step>, id: string)
    requires Proper(w) && Run(w, states, steps) && Shows(w, states[0]) && AllRead(w, Both(w), states[0])
    requires id in states[|steps|].rows
    ensures id in states[|steps|].meant
    ensures RowReads(w, Both(w), states[|steps|].rows[id], states[|steps|].meant[id]) <==>
            Clean(w, states, steps, |steps|, id)
  {
    SettledThroughout(w, states, steps, |steps|, id);
    RowReadsExactly(w, states, steps, |steps|, id);
  }

  /** Nothing is committed to a row that is not there. */
  lemma LostRowsAreHarmless(w: Window, states: seq<State>, steps: seq<Step>, k: nat)
    requires Run(w, states, steps) && k < |steps| && steps[k].id !in states[|steps|].rows
    ensures HarmlessAt(w, states[k], steps[k])
  {
    StepAt(w, states, steps, k);
    if steps[k].id in states[k].rows {
      RowsStay(w, states, steps, k, |steps|, steps[k].id);
    }
  }

  /** At the end of any run every row reads as last written exactly when the commits after its
      last write were harmless: what a write has replaced does not count. */
  lemma ReadsAtTheEndExactly(w: Window, states: seq<State>, steps: seq<Step>)
    requires Proper(w) && Run(w, states, steps) && Shows(w, states[0]) && AllRead(w, Both(w), states[0])
    ensures AllRead(w, Both(w), states[|steps|]) <==>
            forall k: nat :: k < |steps| && LastWord(steps, k, |steps|) ==> HarmlessAt(w, states[k], steps[k])
  {
    var n := |steps|;
    ShowsThroughout(w, states, steps, n);
    forall id | id in states[n].rows
      ensures RowReads(w, Both(w), states[n].rows[id], states[n].meant[id]) <==> Clean(w, states, steps, n, id)
    {
      RowReadsAtTheEnd(w, states, steps, id);
    }
    forall id
      ensures Clean(w, states, steps, n, id) <==>
              forall k: nat :: k < n && steps[k].id == id && LastWord(steps, k, n) ==>
                HarmlessAt(w, states[k], steps[k])
    {
      CleanExactly(w, states, steps, n, id);
    }
    forall k: nat | k < n && steps[k].id !in states[n].rows
      ensures HarmlessAt(w, states[k], steps[k])
    {
      LostRowsAreHarmless(w, states, steps, k);
    }
  }

  // --- When the old key can go ---

  /** Step b puts the row under the new key: a write that hands no old token back, or a commit of
      what the sweep has read since the row was last written. */
  ghost predicate RenewsRow(w: Window, steps: seq<Step>, b: nat, id: string)
    requires b < |steps|
  {
    && steps[b].id == id
    && match steps[b]
       case Write(_, _, _, _) => !CarriesOld(w, steps[b])
       case Store(_, _, _) => true
       case Read(_) => false
       case Commit(_, _) => exists a: nat :: a < b && ReadSinceLastWrite(steps, a, b, id)
  }

  predicate ReadSinceLastWrite(steps: seq<Step>, a: nat, b: nat, id: string)
    requires a < b < |steps|
  {
    steps[a] == Read(id) && forall l :: a < l < b ==> !WritesTo(steps[l], id)
  }

  /** Some step puts the row under the new key, and no later write hands an old token back. */
  ghost predicate Swept(w: Window, steps: seq<Step>, id: string) {
    exists b: nat :: b < |steps| && RenewsRow(w, steps, b, id) && NoOldTokenAfter(w, steps, b, id)
  }

  ghost predicate NoOldTokenAfter(w: Window, steps: seq<Step>, b: nat, id: string) {
    forall l :: b < l < |steps| && steps[l].id == id ==> !CarriesOld(w, steps[l])
  }

  lemma {:induction false} SnapshotIsCurrent(w: Window, states: seq<State>, steps: seq<Step>, a: nat, b: nat, i: nat,
                                             id: string)
    requires Run(w, states, steps) && a < i <= b < |steps| && ReadSinceLastWrite(steps, a, b, id)
    ensures id in states[i].rows && (id in states[i].snaps ==> states[i].snaps[id].row == states[i].rows[id])
    decreases i
  {
    StepAt(w, states, steps, i - 1);
    if i > a + 1 {
      SnapshotIsCurrent(w, states, steps, a, b, i - 1, id);
    }
  }

  lemma CurrentCommitRenews(w: Window, s: State, id: string, salt: string -> nat)
    requires Proper(w) && Shows(w, s) && Enabled(w, s, Commit(id, salt)) && s.snaps[id].row == s.rows[id]
    ensures NeedsOnlyNew(w, Next(w, s, Commit(id, salt)), id)
  {
    CommitRenews(w, s.rows[id], s.snaps[id], salt);
    OldIsTouched(w, s.rows[id], s.shows[id]);
  }

  lemma RenewedRow(w: Window, states: seq<State>, steps: seq<Step>, b: nat, id: string)
    requires Proper(w) && Run(w, states, steps) && Shows(w, states[0]) && b < |steps| && RenewsRow(w, steps, b, id)
    ensures NeedsOnlyNew(w, states[b + 1], id)
  {
    ShowsThroughout(w, states, steps, b);
    StepAt(w, states, steps, b);
    if steps[b].Commit? {
      var a: nat :| a < b && ReadSinceLastWrite(steps, a, b, id);
      SnapshotIsCurrent(w, states, steps, a, b, b, id);
      CurrentCommitRenews(w, states[b], id, steps[b].salt);
    } else {
      StepRenews(w, states[b], steps[b]);
    }
  }

  /** Only an old token handed back brings the old key back. */
  lemma RenewalLasts(w: Window, s: State, step: Step, id: string)
    requires Proper(w) && Shows(w, s) && Enabled(w, s, step) && NeedsOnlyNew(w, s, id)
    requires step.id == id ==> !CarriesOld(w, step)
    ensures NeedsOnlyNew(w, Next(w, s, step), id)
  {
    if step.id == id {
      StepRenews(w, s, step);
    } else {
      OtherRowsKept(w, s, step, id);
    }
  }

  lemma {:induction false} RenewedSince(w: Window, states: seq<State>, steps: seq<Step>, b: nat, i: nat, id: string)
    requires Proper(w) && Run(w, states, steps) && Shows(w, states[0]) && b < i < |states|
    requires RenewsRow(w, steps, b, id) && NoOldTokenAfter(w, steps, b, id)
    ensures NeedsOnlyNew(w, states[i], id)
    decreases i
  {
    if i == b + 1 {
      RenewedRow(w, states, steps, b, id);
    } else {
      RenewedSince(w, states, steps, b, i - 1, id);
      ShowsThroughout(w, states, steps, i - 1);
      StepAt(w, states, steps, i - 1);
      RenewalLasts(w, states[i - 1], steps[i - 1], id);
    }
  }

  /** A sweep over every row: once each was committed from a snapshot taken since its last write,
      or was rewritten, and no old token came back, the old key can be dropped exactly when the
      commits after each row's last write were harmless. */
  lemma SweptKeyDropsExactly(w: Window, states: seq<State>, steps: seq<Step>)
    requires Proper(w) && Run(w, states, steps) && Shows(w, states[0]) && AllRead(w, Both(w), states[0])
    requires forall id :: id in states[|steps|].rows ==> Swept(w, steps, id)
    ensures AllRead(w, NewOnly(w), states[|steps|]) <==>
            forall k: nat :: k < |steps| && LastWord(steps, k, |steps|) ==> HarmlessAt(w, states[k], steps[k])
  {
    var last := states[|steps|];
    ShowsThroughout(w, states, steps, |steps|);
    forall id | id in last.rows
      ensures RowReads(w, NewOnly(w), last.rows[id], last.meant[id]) <==>
              RowReads(w, Both(w), last.rows[id], last.meant[id])
    {
      var b: nat :| b < |steps| && RenewsRow(w, steps, b, id) && NoOldTokenAfter(w, steps, b, id);
      RenewedSince(w, states, steps, b, |steps|, id);
      DropReadsExactly(w, last.rows[id], last.meant[id]);
    }
    ReadsAtTheEndExactly(w, states, steps);
  }
}
