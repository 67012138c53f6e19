/** Folding steps over a sequence, and when their order does not matter. */
module Folding {
  import opened Bags

  ghost function Fold<B, R>(step: (B, R) -> B, b: B, rows: seq<R>): B {
    if rows == [] then b else step(Fold(step, b, rows[..|rows| - 1]), rows[|rows| - 1])
  }

  ghost predicate Commute<B(!new), R>(step: (B, R) -> B, r: R, q: R) {
    forall b :: step(step(b, r), q) == step(step(b, q), r)
  }

  ghost predicate AllCommute<B(!new), R>(step: (B, R) -> B, rows: seq<R>) {
    forall i, j :: 0 <= i < j < |rows| ==> Commute(step, rows[i], rows[j])
  }

  /** A step can be taken last instead of in its place. */
  lemma {:induction false} TakenLast<B(!new), R>(step: (B, R) -> B, b: B, rows: seq<R>, i: nat)
    requires i < |rows| && AllCommute(step, rows)
    ensures Fold(step, b, rows) == step(Fold(step, b, Without(rows, i)), rows[i])
  {
    var n := |rows| - 1;
    var others := Without(rows, i);
    if i == n {
      assert others == rows[..n];
    } else {
      TakenLast(step, b, rows[..n], i);
      assert others[..n - 1] == Without(rows[..n], i);
      assert Commute(step, rows[i], rows[n]);
    }
  }

  lemma {:induction false} OrderIsIrrelevant<B(!new), R>(step: (B, R) -> B, b: B, rows: seq<R>, order: seq<R>)
    requires multiset(rows) == multiset(order) && AllCommute(step, rows)
    ensures Fold(step, b, rows) == Fold(step, b, order)
    decreases |rows|
  {
    SameSize(rows, order);
    if rows != [] {
      var n := |order| - 1;
      var i := Twin(rows, order, n);
      assert Without(order, n) == order[..n];
      TakenLast(step, b, rows, i);
      OrderIsIrrelevant(step, b, Without(rows, i), order[..n]);
    }
  }

  /** Steps that agree on every row fold alike. */
  lemma {:induction false} SameSteps<B(!new), R>(step: (B, R) -> B, step': (B, R) -> B, b: B, rows: seq<R>)
    requires forall r, c :: r in rows ==> step(c, r) == step'(c, r)
    ensures Fold(step, b, rows) == Fold(step', b, rows)
  {
    if rows != [] {
      SameSteps(step, step', b, rows[..|rows| - 1]);
      assert rows[|rows| - 1] in rows;
    }
  }

  lemma {:induction false} FoldAppend<B, R>(step: (B, R) -> B, b: B, rows: seq<R>, more: seq<R>)
    ensures Fold(step, b, rows + more) == Fold(step, Fold(step, b, rows), more)
    decreases |more|
  {
    if more == [] {
      assert rows + more == rows;
    } else {
      assert (rows + more)[..|rows + more| - 1] == rows + more[..|more| - 1];
      FoldAppend(step, b, rows, more[..|more| - 1]);
    }
  }
}
