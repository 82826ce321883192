/**
 * The class MedicationRecommendation (main.py:81-142): it keeps the efficacy
 * matrix it was given, the hyperparameters, and the factor matrices P and Q,
 * which train() updates in place.
 */
module Engine {
  import opened Wrappers
  import opened Factorization
  import Ranking
  import Catalog

  /** Row i of a two-dimensional array, as a sequence (numpy's a[i, :]). */
  function Row<T>(a: array2<T>, i: nat): seq<T>
    requires i < a.Length0
    reads a
  {
    seq(a.Length1, t requires 0 <= t < a.Length1 reads a => a[i, t])
  }

  /** The whole array, row by row. */
  function Rows<T>(a: array2<T>): seq<seq<T>>
    reads a
  {
    seq(a.Length0, i requires 0 <= i < a.Length0 reads a => Row(a, i))
  }

  /** An array that agrees with `before` outside row i and holds `row` in row i. */
  lemma RowsAfterRowWrite(a: array2<real>, before: seq<seq<real>>, i: nat, row: seq<real>)
    requires i < a.Length0 && |before| == a.Length0 && |row| == a.Length1
    requires forall t :: 0 <= t < a.Length1 ==> a[i, t] == row[t]
    requires forall r :: 0 <= r < |before| ==> |before[r]| == a.Length1
    requires forall r, t :: 0 <= r < a.Length0 && r != i && 0 <= t < a.Length1 ==> a[r, t] == before[r][t]
    ensures Rows(a) == before[i := row]
  {
    assert Row(a, i) == row;
    forall r | 0 <= r < a.Length0 && r != i
      ensures Row(a, r) == before[r]
    {
    }
  }

  /** Adds the SGD step toward `y` to row i of `a` in place; every other row is untouched. */
  method StepRowInPlace(a: array2<real>, i: nat, y: seq<real>, e: real, rates: Rates)
    requires i < a.Length0 && |y| == a.Length1
    modifies a
    ensures forall t :: 0 <= t < a.Length1 ==> a[i, t] == Stepped(old(a[i, t]), y[t], e, rates)
    ensures forall r, t :: 0 <= r < a.Length0 && r != i && 0 <= t < a.Length1 ==> a[r, t] == old(a[r, t])
  {
    forall t | 0 <= t < a.Length1 {
      a[i, t] := Stepped(a[i, t], y[t], e, rates);
    }
  }

  class MedicationRecommendation {
    const M: array2<int>           // medication_data, shared with the caller, never written
    const numMedications: nat
    const numDiseases: nat
    const k: nat                   // num_factors
    const rates: Rates             // learning_rate, reg_param
    const numEpochs: int
    const P: array2<real>          // medications × k
    const Q: array2<real>          // conditions × k

    /** The shape invariant: P has a row per medication, Q a row per condition, both k wide. */
    ghost predicate Valid()
    {
      && P != Q
      && numMedications == M.Length0 == P.Length0
      && numDiseases == M.Length1 == Q.Length0
      && k == P.Length1 == Q.Length1
      && k > 0
    }

    function Efficacy(): seq<seq<int>>
      reads M
    {
      Rows(M)
    }

    function Current(): Factors
      reads P, Q
    {
      Factors(Rows(P), Rows(Q))
    }

    lemma CurrentFits()
      requires Valid()
      ensures Fits(Efficacy(), Current(), k)
    {
    }

    /** __init__ (main.py:82-101). The random initial factors are the parameters
        P0 and Q0; a catalog without medications has no two-dimensional shape to
        unpack at main.py:93, and num_factors = 0 divides by zero at main.py:100. */
    constructor (data: array2<int>, numFactors: nat, learningRate: real, regParam: real, epochs: int,
                 P0: seq<seq<real>>, Q0: seq<seq<real>>)
      requires data.Length0 > 0 && numFactors > 0
      requires |P0| == data.Length0 && Rect(P0, numFactors)
      requires |Q0| == data.Length1 && Rect(Q0, numFactors)
      ensures Valid() && fresh(P) && fresh(Q)
      ensures M == data && k == numFactors && rates == Rates(learningRate, regParam) && numEpochs == epochs
      ensures Current() == Factors(P0, Q0)
    {
      M := data;
      numMedications, numDiseases := data.Length0, data.Length1;
      k := numFactors;
      rates := Rates(learningRate, regParam);
      numEpochs := epochs;
      P := new real[data.Length0, numFactors]((i, t) requires 0 <= i < |P0| && 0 <= t < numFactors => P0[i][t]);
      Q := new real[data.Length1, numFactors]((j, t) requires 0 <= j < |Q0| && 0 <= t < numFactors => Q0[j][t]);
      new;
      assert Rows(P) == P0 by {
        forall i | 0 <= i < |P0| ensures Row(P, i) == P0[i] { }
      }
      assert Rows(Q) == Q0 by {
        forall j | 0 <= j < |Q0| ensures Row(Q, j) == Q0[j] { }
      }
    }

    /** The body of the loops of train() for a positive cell (main.py:111-113). */
    method Step(i: nat, j: nat)
      requires Valid() && i < numMedications && j < numDiseases
      modifies P, Q
      ensures Current() == Update(old(Current()), i, j, M[i, j] as real, rates)
    {
      ghost var F := Current();
      var e := M[i, j] as real - Dot(Row(P, i), Row(Q, j));
      StepRowInPlace(P, i, Row(Q, j), e, rates);
      ghost var pi := StepRow(F.p[i], F.q[j], e, rates);
      RowsAfterRowWrite(P, F.p, i, pi);
      StepRowInPlace(Q, j, Row(P, i), e, rates);
      RowsAfterRowWrite(Q, F.q, j, StepRow(F.q[j], pi, e, rates));
    }

    /** train (main.py:103-115): num_epochs epochs of SGD over the positive cells,
        row-major; the error of each epoch is computed for the console only. */
    method Train()
      requires Valid()
      modifies P, Q
      ensures Valid() && unchanged(M)
      ensures Current() == Trained(Efficacy(), old(Current()), k, rates, numEpochs)
    {
      ghost var E := Efficacy();
      ghost var F0 := Current();
      CurrentFits();
      assert Fits(E, F0, k);
      var epoch := 0;
      while epoch < numEpochs
        invariant 0 <= epoch && (epoch <= numEpochs || epoch == 0)
        invariant E == Efficacy()
        invariant Current() == Trained(E, F0, k, rates, epoch)
      {
        RunEpoch(E);
        ghost var G := Current();
        assert G == Trained(E, F0, k, rates, epoch + 1);
        var error := CalculateError();
        assert Current() == G;
        epoch := epoch + 1;
      }
    }

    /** One pass of the loops over medications and conditions (main.py:108-113). */
    method RunEpoch(ghost E: seq<seq<int>>)
      requires Valid() && E == Efficacy()
      modifies P, Q
      ensures Current() == Epoch(E, old(Current()), k, rates)
    {
      ghost var F := Current();
      CurrentFits();
      for i := 0 to numMedications
        invariant Current() == SweepRows(E, F, k, rates, i)
      {
        VisitRow(E, i);
      }
    }

    /** The loop over conditions for medication i (main.py:109-113). */
    method VisitRow(ghost E: seq<seq<int>>, i: nat)
      requires Valid() && E == Efficacy() && i < numMedications
      modifies P, Q
      ensures Current() == SweepRow(E, old(Current()), k, rates, i, numDiseases)
    {
      ghost var F := Current();
      CurrentFits();
      for j := 0 to numDiseases
        invariant Current() == SweepRow(E, F, k, rates, i, j)
      {
        if M[i, j] > 0 {
          Step(i, j);
        }
      }
    }

    /** calculate_error (main.py:117-126): the mean of the squared errors of the
        positive cells; None where numpy's mean of an empty list is NaN. */
    method CalculateError() returns (mse: Option<real>)
      requires Valid()
      ensures mse == Mean(SquaredErrors(Efficacy(), Current(), k))
    {
      ghost var E := Efficacy();
      ghost var F := Current();
      CurrentFits();
      var errors: seq<real> := [];
      for i := 0 to numMedications
        invariant errors == Errors(E, F, k, i)
      {
        for j := 0 to numDiseases
          invariant errors == Errors(E, F, k, i) + RowErrors(E, F, k, i, j)
        {
          if M[i, j] > 0 {
            errors := errors + [Square(M[i, j] as real - Dot(Row(P, i), Row(Q, j)))];
          }
        }
      }
      mse := Mean(errors);
    }

    /** get_recommendations (main.py:128-142) against the vocabulary unique_diseases,
        with the source's default top_n of 5: an unknown name fails the call (the
        first one queried), and otherwise each queried condition gets the top_n
        medications by P[m]·Q[d] for its vocabulary position d. */
    method GetRecommendations(vocab: seq<string>, diseases: seq<string>, topN: int := 5)
      returns (r: Result<seq<seq<nat>>, Ranking.Error>)
      requires Valid() && |vocab| == numDiseases
      ensures r.Success? <==> forall c :: 0 <= c < |diseases| ==> diseases[c] in vocab
      ensures r.Failure? ==>
                exists c :: 0 <= c < |diseases| && Ranking.FirstUnknown(vocab, diseases, c)
                         && r.error == Ranking.UnknownCondition(diseases[c])
      ensures r.Success? ==>
                && |r.value| == |diseases|
                && forall c :: 0 <= c < |diseases| ==>
                     Ranking.RankedColumn(vocab, Rows(P), Rows(Q), k, diseases[c], topN, r.value[c])
      ensures r == Ranking.Recommend(vocab, Rows(P), Rows(Q), k, diseases, topN)
    {
      r := Ranking.Recommend(vocab, Rows(P), Rows(Q), k, diseases, topN);
      Ranking.RecommendSpec(vocab, Rows(P), Rows(Q), k, diseases, topN);
    }
  }

  /** The module-level script (main.py:70-78, 144-148): build the vocabulary and
      the efficacy matrix, construct the engine with 5 factors, learning rate 0.01,
      regularisation 0.01 and 100 epochs, and train it. */
  method BuildAndTrain(catalog: seq<Catalog.Entry>, P0: seq<seq<real>>, Q0: seq<seq<real>>)
    returns (vocab: seq<string>, engine: MedicationRecommendation)
    requires |catalog| > 0
    requires |P0| == |catalog| && Rect(P0, 5)
    requires |Q0| == |Catalog.Vocabulary(catalog)| && Rect(Q0, 5)
    ensures vocab == Catalog.Vocabulary(catalog)
    ensures engine.Valid() && engine.numMedications == |catalog| && engine.numDiseases == |vocab|
    ensures forall i, j :: 0 <= i < |catalog| && 0 <= j < |vocab| ==>
              engine.M[i, j] == (if vocab[j] in catalog[i].1 then 1 else 0)
    ensures engine.Current() == Trained(engine.Efficacy(), Factors(P0, Q0), 5, Rates(0.01, 0.01), 100)
  {
    vocab := Catalog.Vocabulary(catalog);
    var rows := Catalog.BuildEfficacyMatrix(catalog, vocab);
    var data := Catalog.ToArray(rows, |vocab|);
    engine := new MedicationRecommendation(data, 5, 0.01, 0.01, 100, P0, Q0);
    engine.Train();
  }
}
