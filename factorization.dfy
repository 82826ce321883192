/**
 * The matrix-factorization model on values: the factor matrices P (medications × k)
 * and Q (conditions × k) as sequences of rows over `real`, one SGD step on an
 * efficacy cell, the row-major sweep over the positive cells that makes an epoch,
 * training for a number of epochs, and the squared errors whose mean is reported
 * after each epoch (main.py:103-126).
 */
module Factorization {
  import opened Wrappers

  /** The two factor matrices. */
  datatype Factors = Factors(p: seq<seq<real>>, q: seq<seq<real>>)

  /** Learning rate η and regularisation strength λ. */
  datatype Rates = Rates(eta: real, lambda: real)

  /** Every row of m has `cols` entries. */
  predicate Rect<T>(m: seq<seq<T>>, cols: nat)
  {
    forall i :: 0 <= i < |m| ==> |m[i]| == cols
  }

  /** The shape invariant of the engine: P has a row per medication (row of E),
      Q a row per condition (column of E), both with k columns. */
  predicate Fits(E: seq<seq<int>>, F: Factors, k: nat)
  {
    |F.p| == |E| && Rect(E, |F.q|) && Rect(F.p, k) && Rect(F.q, k)
  }

  /** np.dot of two vectors. */
  function Dot(u: seq<real>, v: seq<real>): real
    requires |u| == |v|
  {
    if |u| == 0 then 0.0 else u[0] * v[0] + Dot(u[1..], v[1..])
  }

  /** One coordinate of the update: x + η·(e·y − λ·x). */
  function Stepped(x: real, y: real, e: real, rates: Rates): real
  {
    x + rates.eta * (e * y - rates.lambda * x)
  }

  /** x + η·(e·y − λ·x), elementwise, all of it computed from the old x
      (numpy evaluates the right-hand side of `+=` before writing). */
  function StepRow(x: seq<real>, y: seq<real>, e: real, rates: Rates): (r: seq<real>)
    requires |x| == |y|
    ensures |r| == |x|
  {
    seq(|x|, t requires 0 <= t < |x| => Stepped(x[t], y[t], e, rates))
  }

  /** The SGD step on cell (i, j) with efficacy `target` (main.py:111-113): the error
      e is computed once from the old rows; P[i] is updated with Q[j], then Q[j] with
      the NEW P[i] and the same e. */
  function Update(F: Factors, i: nat, j: nat, target: real, rates: Rates): (G: Factors)
    requires i < |F.p| && j < |F.q| && |F.p[i]| == |F.q[j]|
    ensures |G.p| == |F.p| && |G.q| == |F.q| && |G.p[i]| == |F.p[i]| && |G.q[j]| == |F.q[j]|
  {
    var e := target - Dot(F.p[i], F.q[j]);
    var pi := StepRow(F.p[i], F.q[j], e, rates);
    Factors(F.p[i := pi], F.q[j := StepRow(F.q[j], pi, e, rates)])
  }

  /** A step on (i, j) changes row i of P and row j of Q and nothing else, by the
      exact update equations; the shapes stay as they were. */
  lemma UpdateTouchesOnlyItsRows(F: Factors, i: nat, j: nat, target: real, rates: Rates)
    requires i < |F.p| && j < |F.q| && |F.p[i]| == |F.q[j]|
    ensures var G := Update(F, i, j, target, rates);
            var e := target - Dot(F.p[i], F.q[j]);
            && |G.p| == |F.p| && |G.q| == |F.q|
            && (forall r :: 0 <= r < |F.p| && r != i ==> G.p[r] == F.p[r])
            && (forall c :: 0 <= c < |F.q| && c != j ==> G.q[c] == F.q[c])
            && |G.p[i]| == |F.p[i]| && |G.q[j]| == |F.q[j]|
            && (forall t :: 0 <= t < |F.p[i]| ==> G.p[i][t] == Stepped(F.p[i][t], F.q[j][t], e, rates))
            && (forall t :: 0 <= t < |F.q[j]| ==> G.q[j][t] == Stepped(F.q[j][t], G.p[i][t], e, rates))
  {
  }

  /** The body of the innermost loop (main.py:110-113): only a positive cell drives an update. */
  function Cell(E: seq<seq<int>>, F: Factors, k: nat, rates: Rates, i: nat, j: nat): (G: Factors)
    requires Fits(E, F, k) && i < |E| && j < |F.q|
    ensures Fits(E, G, k) && |G.q| == |F.q|
  {
    if E[i][j] > 0 then Update(F, i, j, E[i][j] as real, rates) else F
  }

  /** The factors after the loop over conditions has visited columns 0 .. j-1 of row i. */
  function SweepRow(E: seq<seq<int>>, F: Factors, k: nat, rates: Rates, i: nat, j: nat): (G: Factors)
    requires Fits(E, F, k) && i < |E| && j <= |F.q|
    ensures Fits(E, G, k) && |G.q| == |F.q|
    decreases j
  {
    if j == 0 then F else Cell(E, SweepRow(E, F, k, rates, i, j - 1), k, rates, i, j - 1)
  }

  /** The factors after the loop over medications has visited rows 0 .. i-1. */
  function SweepRows(E: seq<seq<int>>, F: Factors, k: nat, rates: Rates, i: nat): (G: Factors)
    requires Fits(E, F, k) && i <= |E|
    ensures Fits(E, G, k) && |G.q| == |F.q|
    decreases i
  {
    if i == 0 then F
    else
      var H := SweepRows(E, F, k, rates, i - 1);
      SweepRow(E, H, k, rates, i - 1, |H.q|)
  }

  /** One epoch: every cell, row-major. */
  function Epoch(E: seq<seq<int>>, F: Factors, k: nat, rates: Rates): (G: Factors)
    requires Fits(E, F, k)
    ensures Fits(E, G, k) && |G.q| == |F.q|
  {
    SweepRows(E, F, k, rates, |E|)
  }

  /** `epochs` epochs one after the other; range() of a non-positive count is empty. */
  function Trained(E: seq<seq<int>>, F: Factors, k: nat, rates: Rates, epochs: int): (G: Factors)
    requires Fits(E, F, k)
    ensures Fits(E, G, k) && |G.q| == |F.q|
    decreases epochs
  {
    if epochs <= 0 then F else Epoch(E, Trained(E, F, k, rates, epochs - 1), k, rates)
  }

  // ---------------------------------------------------------------------------
  // Which rows an update can reach.
  // ---------------------------------------------------------------------------

  /** Medication i has no positive efficacy entry. */
  predicate RowInactive(E: seq<seq<int>>, i: nat)
    requires i < |E|
  {
    forall c :: 0 <= c < |E[i]| ==> E[i][c] <= 0
  }

  /** Condition j has no positive efficacy entry. */
  predicate ColumnInactive(E: seq<seq<int>>, j: nat)
  {
    forall r :: 0 <= r < |E| && j < |E[r]| ==> E[r][j] <= 0
  }

  lemma {:induction false} SweepRowLocality(E: seq<seq<int>>, F: Factors, k: nat, rates: Rates, i: nat, j: nat)
    requires Fits(E, F, k) && i < |E| && j <= |F.q|
    ensures var G := SweepRow(E, F, k, rates, i, j);
            && (forall r :: 0 <= r < |E| && r != i ==> G.p[r] == F.p[r])
            && ((forall c :: 0 <= c < j ==> E[i][c] <= 0) ==> G.p[i] == F.p[i])
            && (forall c :: 0 <= c < |F.q| && (j <= c || E[i][c] <= 0) ==> G.q[c] == F.q[c])
  {
    if j > 0 {
      SweepRowLocality(E, F, k, rates, i, j - 1);
    }
  }

  lemma {:induction false} SweepRowsLocality(E: seq<seq<int>>, F: Factors, k: nat, rates: Rates, i: nat)
    requires Fits(E, F, k) && i <= |E|
    ensures var G := SweepRows(E, F, k, rates, i);
            && (forall r :: 0 <= r < |E| && (i <= r || RowInactive(E, r)) ==> G.p[r] == F.p[r])
            && (forall c :: 0 <= c < |F.q| && ColumnInactive(E, c) ==> G.q[c] == F.q[c])
  {
    if i > 0 {
      var H := SweepRows(E, F, k, rates, i - 1);
      SweepRowsLocality(E, F, k, rates, i - 1);
      SweepRowLocality(E, H, k, rates, i - 1, |H.q|);
    }
  }

  /** Training never changes the P row of a medication with no positive cell, nor
      the Q row of a condition with no positive cell: zero cells drive no update. */
  lemma {:induction false} TrainedLocality(E: seq<seq<int>>, F: Factors, k: nat, rates: Rates, epochs: int)
    requires Fits(E, F, k)
    ensures var G := Trained(E, F, k, rates, epochs);
            && (forall r :: 0 <= r < |E| && RowInactive(E, r) ==> G.p[r] == F.p[r])
            && (forall c :: 0 <= c < |F.q| && ColumnInactive(E, c) ==> G.q[c] == F.q[c])
  {
    if epochs > 0 {
      var H := Trained(E, F, k, rates, epochs - 1);
      TrainedLocality(E, F, k, rates, epochs - 1);
      SweepRowsLocality(E, H, k, rates, |E|);
    }
  }

  /** With no positive cell at all, training leaves both factor matrices as they were. */
  lemma TrainedWithoutPositivesIsIdentity(E: seq<seq<int>>, F: Factors, k: nat, rates: Rates, epochs: int)
    requires Fits(E, F, k)
    requires forall i, j :: 0 <= i < |E| && 0 <= j < |E[i]| ==> E[i][j] <= 0
    ensures Trained(E, F, k, rates, epochs) == F
  {
    var G := Trained(E, F, k, rates, epochs);
    TrainedLocality(E, F, k, rates, epochs);
    assert forall r :: 0 <= r < |E| ==> RowInactive(E, r);
    assert G.p == F.p;
    assert G.q == F.q;
  }

  // ---------------------------------------------------------------------------
  // calculate_error (main.py:117-126).
  // ---------------------------------------------------------------------------

  /** x ** 2 */
  function Square(x: real): (r: real)
    ensures r >= 0.0
  {
    x * x
  }

  /** The squared errors of row i over columns 0 .. j-1, positive cells only. */
  function RowErrors(E: seq<seq<int>>, F: Factors, k: nat, i: nat, j: nat): (errs: seq<real>)
    requires Fits(E, F, k) && i < |E| && j <= |F.q|
    ensures forall t :: 0 <= t < |errs| ==> errs[t] >= 0.0
    decreases j
  {
    if j == 0 then []
    else
      var front := RowErrors(E, F, k, i, j - 1);
      if E[i][j - 1] > 0 then front + [Square(E[i][j - 1] as real - Dot(F.p[i], F.q[j - 1]))]
      else front
  }

  /** The squared errors of rows 0 .. i-1, row-major. */
  function Errors(E: seq<seq<int>>, F: Factors, k: nat, i: nat): (errs: seq<real>)
    requires Fits(E, F, k) && i <= |E|
    ensures forall t :: 0 <= t < |errs| ==> errs[t] >= 0.0
    decreases i
  {
    if i == 0 then [] else Errors(E, F, k, i - 1) + RowErrors(E, F, k, i - 1, |F.q|)
  }

  /** The list `errors` of calculate_error: one squared error per positive cell. */
  function SquaredErrors(E: seq<seq<int>>, F: Factors, k: nat): (errs: seq<real>)
    requires Fits(E, F, k)
    ensures forall t :: 0 <= t < |errs| ==> errs[t] >= 0.0
  {
    Errors(E, F, k, |E|)
  }

  function Sum(xs: seq<real>): real
  {
    if |xs| == 0 then 0.0 else Sum(xs[..|xs| - 1]) + xs[|xs| - 1]
  }

  /** np.mean; None stands for the NaN numpy returns for an empty list. */
  function Mean(xs: seq<real>): (r: Option<real>)
    ensures r.None? <==> |xs| == 0
  {
    if |xs| == 0 then None else Some(Sum(xs) / |xs| as real)
  }

  /** A defined mean times the number of values gives back their sum. */
  lemma MeanTimesCount(xs: seq<real>)
    ensures Mean(xs).Some? ==> Mean(xs).value * (|xs| as real) == Sum(xs)
  {
  }

  lemma {:induction false} SumNonNegative(xs: seq<real>)
    requires forall t :: 0 <= t < |xs| ==> xs[t] >= 0.0
    ensures Sum(xs) >= 0.0
  {
    if |xs| > 0 {
      SumNonNegative(xs[..|xs| - 1]);
    }
  }

  /** The reported error is a number exactly when some cell is positive, and then it
      is not negative. */
  lemma MeanSquaredErrorDefined(E: seq<seq<int>>, F: Factors, k: nat)
    requires Fits(E, F, k)
    ensures Mean(SquaredErrors(E, F, k)).Some? <==>
            exists i, j :: 0 <= i < |E| && 0 <= j < |E[i]| && E[i][j] > 0
    ensures Mean(SquaredErrors(E, F, k)).Some? ==> Mean(SquaredErrors(E, F, k)).value >= 0.0
  {
    var errs := SquaredErrors(E, F, k);
    ErrorCount(E, F, k, |E|);
    SumNonNegative(errs);
  }

  /** The number of positive cells in row i among columns 0 .. j-1. */
  function PositiveInRow(E: seq<seq<int>>, i: nat, j: nat): nat
    requires i < |E| && j <= |E[i]|
  {
    if j == 0 then 0 else PositiveInRow(E, i, j - 1) + (if E[i][j - 1] > 0 then 1 else 0)
  }

  /** The number of positive cells in rows 0 .. i-1. */
  function PositiveCells(E: seq<seq<int>>, i: nat): nat
    requires i <= |E|
  {
    if i == 0 then 0 else PositiveCells(E, i - 1) + PositiveInRow(E, i - 1, |E[i - 1]|)
  }

  lemma {:induction false} PositiveInRowZero(E: seq<seq<int>>, i: nat, j: nat)
    requires i < |E| && j <= |E[i]|
    ensures PositiveInRow(E, i, j) == 0 <==> forall c :: 0 <= c < j ==> E[i][c] <= 0
  {
    if j > 0 {
      PositiveInRowZero(E, i, j - 1);
    }
  }

  lemma {:induction false} ErrorCount(E: seq<seq<int>>, F: Factors, k: nat, i: nat)
    requires Fits(E, F, k) && i <= |E|
    ensures |Errors(E, F, k, i)| == PositiveCells(E, i)
    ensures PositiveCells(E, i) == 0 <==> forall r, c :: 0 <= r < i && 0 <= c < |E[r]| ==> E[r][c] <= 0
  {
    if i > 0 {
      ErrorCount(E, F, k, i - 1);
      RowErrorCount(E, F, k, i - 1, |F.q|);
      PositiveInRowZero(E, i - 1, |F.q|);
    }
  }

  lemma {:induction false} RowErrorCount(E: seq<seq<int>>, F: Factors, k: nat, i: nat, j: nat)
    requires Fits(E, F, k) && i < |E| && j <= |F.q|
    ensures |RowErrors(E, F, k, i, j)| == PositiveInRow(E, i, j)
  {
    if j > 0 {
      RowErrorCount(E, F, k, i, j - 1);
    }
  }
}
