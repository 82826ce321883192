# Allopathy medicine recommender — a Dafny model of its core

The recommender turns a dictionary from medication names to the conditions each
one treats into a sorted vocabulary of conditions and a 0/1 efficacy matrix
(medications × conditions). A matrix-factorization engine learns a factor row per
medication (`P`) and per condition (`Q`) by stochastic gradient descent over the
positive cells of that matrix. For a list of condition names it ranks the
medications by the dot product `P[m]·Q[d]` and returns the best `top_n` per
condition.

The model has five modules:

- `Catalog` (`catalog.dfy`): the vocabulary `sorted(set(...))` under Python's
  string order, the loop that builds the efficacy rows, and the conversion to a
  two-dimensional array.
- `Factorization` (`factorization.dfy`): everything about training, on values
  over `real`. It covers the SGD step on one cell, the row-major sweep over the
  positive cells that makes an epoch, training for a number of epochs, and the
  squared errors behind `calculate_error`.
- `Ranking` (`ranking.dfy`): `get_recommendations` on values. It covers
  `list.index`, the score column, `argsort`, the reversal, Python's `[:top_n]`
  slice, and the result for a whole query.
- `Engine` (`engine.dfy`): the class `MedicationRecommendation`. Its state is
  `P` and `Q` as `array2<real>` and the caller's efficacy matrix as
  `array2<int>`. `train` and `calculate_error` are nested loops with invariants
  and are proved against the functions of `Factorization`;
  `get_recommendations` is proved against `Ranking.Recommend`.
- `Scenario` (`scenario.dfy`): a three-medication catalog worked out from the
  definitions.

`Wrappers` (`wrappers.dfy`) holds the `Option` and `Result` types.

Behaviour that the model fixes where the code leaves it open, or where a stricter
interface would behave differently:

- Ties in `np.argsort` are unspecified, because numpy's default sort is not
  stable. The model sorts ascending by score and breaks ties by ascending index,
  then reverses. Equal scores therefore come out by descending medication index.
  Every property claimed about a result speaks only of scores, except
  `Ranking.FullRanking`.
- An unknown condition name makes `list.index` raise. The model returns
  `Failure(UnknownCondition(name))` for the first unknown name in the query.
- A stricter interface would reject a `top_n` that is not positive or that
  exceeds the number of medications. The code does not check `top_n` at all.
  The model follows Python's slice `[:top_n]`: a `top_n` at or above the
  medication count keeps every medication, `0` keeps none, and a negative value
  drops that many from the end (`Ranking.SliceEnd`).
- An empty catalog could be rejected when the catalog is built. In the code the
  builder succeeds, and the constructor fails at main.py:93 because
  `np.array([])` has a one-dimensional shape. The model's constructor requires at
  least one medication.
- `np.mean` of an empty error list is NaN. `Factorization.Mean` returns `None`
  for it.

## Model

| member | source | states |
|---|---|---|
| `Catalog.Vocabulary` | main.py:70 | `unique_diseases` is strictly ascending; that it holds exactly the listed conditions, and is the only such sequence, is stated by `Catalog.VocabularyIsSortedUnion` and `Catalog.VocabularyUnique` |
| `Catalog.SortedSet` | main.py:70 | the result is strictly ascending under Python's string order and holds exactly the elements of its input |
| `Catalog.AllConditionsListed` | main.py:70 | the generator yields a name exactly when some medication of the dictionary lists it |
| `Catalog.VocabularyIsSortedUnion` | main.py:70 | `unique_diseases` is strictly sorted (so free of duplicates) and holds exactly the union of all condition lists |
| `Catalog.VocabularyUnique` | main.py:70 | any strictly sorted sequence holding exactly the listed conditions equals the vocabulary, so the vocabulary is fully determined by that set |
| `Catalog.VocabularyOnlyDependsOnConditions` | main.py:70 | two dictionaries listing the same conditions, in any order and with any repetition, give the same vocabulary |
| `Catalog.EfficacyRow` | main.py:75 | the row for one medication is `len(unique_diseases)` wide, and entry j is 1 exactly when condition j is in the medication's list, 0 otherwise |
| `Catalog.BuildEfficacyMatrix` | main.py:73-76 | one row per medication in dictionary order, each `len(unique_diseases)` wide; entry (i,j) is 1 exactly when condition j is in medication i's list, and every entry is 0 or 1 |
| `Catalog.ListedConditionHasOneColumn` | main.py:70-75 | every condition a medication lists has exactly one vocabulary column, and that column holds a 1 in the medication's row |
| `Catalog.ToArray` | main.py:78 | the array has the rows' shape and their entries |
| `Factorization.Update` | main.py:110-113 | a step on (i,j) keeps the number of rows of P and Q and the widths of P[i] and Q[j]; what it writes is stated by `Factorization.UpdateTouchesOnlyItsRows` |
| `Factorization.UpdateTouchesOnlyItsRows` | main.py:111-113 | a step on (i,j) changes only row i of P and row j of Q; P[i] gets η(e·Q[j] − λ·P[i]) added, then Q[j] gets η(e·P'[i] − λ·Q[j]) added with the new P[i] and the same e |
| `Factorization.Cell` | main.py:110-113 | visiting one cell keeps the shapes of P and Q |
| `Factorization.Epoch` | main.py:108-113 | one row-major pass over all cells keeps P at one row per medication and Q at one row per condition, each k wide; `Factorization.SweepRowsLocality` states which rows it can change |
| `Factorization.Trained` | main.py:107-113 | training for any number of epochs keeps P at one row per medication and Q at one row per condition, each k wide |
| `Factorization.SweepRowLocality` | main.py:109-113 | the loop over row i's cells leaves the other P rows unchanged, leaves P[i] unchanged when none of the visited cells is positive, and changes only the Q rows of positive visited cells |
| `Factorization.SweepRowsLocality` | main.py:108-113 | an epoch prefix leaves unvisited and all-zero medication rows of P unchanged, and the Q rows of conditions with no positive cell unchanged |
| `Factorization.TrainedLocality` | main.py:107-113 | over any number of epochs, a medication with no positive cell keeps its P row, and a condition with no positive cell keeps its Q row |
| `Factorization.TrainedWithoutPositivesIsIdentity` | main.py:107-113 | with no positive cell, training leaves P and Q exactly as they were |
| `Factorization.RowErrors` | main.py:123-125 | every squared error recorded for a row is non-negative |
| `Factorization.Errors` | main.py:121-125 | every squared error in the list is non-negative |
| `Factorization.SquaredErrors` | main.py:121-125 | the list of squared errors over the positive cells, row-major, holds only non-negative values; its length is stated by `Factorization.ErrorCount` |
| `Factorization.Mean` | main.py:126 | `np.mean` is undefined (NaN, here `None`) exactly for an empty list |
| `Factorization.MeanTimesCount` | main.py:126 | a defined mean times the number of errors is their sum |
| `Factorization.ErrorCount` | main.py:121-125 | the error list has one entry per positive cell, and it is empty exactly when no cell is positive |
| `Factorization.MeanSquaredErrorDefined` | main.py:117-126 | the reported mean is defined (not NaN) exactly when some cell is positive, and is then non-negative |
| `Ranking.IndexOf` | main.py:137 | `list.index` gives the first position holding the name, and fails exactly when the name is absent |
| `Ranking.ConditionIndices` | main.py:137 | the lookup succeeds exactly when every queried name is in the vocabulary, with one index per name; otherwise it fails naming the first unknown name |
| `Ranking.Insert` | main.py:141 | inserting a medication into an ascending argsort prefix keeps it ascending and adds exactly that medication |
| `Ranking.ArgsortPrefix` | main.py:141 | argsort is a permutation of the medication indices in ascending score order |
| `Ranking.FullRanking` | main.py:141 | `argsort(...)[::-1]` holds every medication exactly once, by descending score |
| `Ranking.PrefixDominates` | main.py:141 | the first `top_n` entries of a descending ranking of all medications score at least as much as every medication left out |
| `Ranking.TopN` | main.py:141 | the kept indices are distinct and in range, their scores do not increase, their number is the slice length, and no medication left out scores more than one kept |
| `Ranking.TopNCount` | main.py:141 | for `top_n >= 0` the count is `min(top_n, num_medications)` |
| `Ranking.TopNAll` | main.py:141 | a `top_n` at least the medication count returns every medication |
| `Ranking.ColumnScores` | main.py:139 | the score column has one score per medication |
| `Ranking.Recommend` | main.py:128-142 | a successful call gives one column per queried condition; the full contract is stated by `Ranking.RecommendSpec` |
| `Ranking.RecommendSpec` | main.py:128-142 | the call fails exactly when a queried name is unknown, naming the first such; otherwise it returns one column per queried condition, and column c holds the top `top_n` medications by `P[m]·Q[d]`, with d the position `list.index` gives for that condition |
| `Engine.MedicationRecommendation.constructor` | main.py:82-101 | the engine keeps the caller's matrix and the hyperparameters; P and Q are fresh arrays of the right shapes holding the initial factors |
| `Engine.MedicationRecommendation.CurrentFits` | main.py:93-101 | the engine's P and Q fit its efficacy matrix |
| `Engine.StepRowInPlace` | main.py:112-113 | the in-place row update adds η(e·y[t] − λ·a[i,t]) to each entry of row i and leaves every other row as it was |
| `Engine.MedicationRecommendation.Step` | main.py:111-113 | the in-place update of row i of P and row j of Q equals the step relation `Update` |
| `Engine.MedicationRecommendation.VisitRow` | main.py:109-113 | the loop over conditions equals the sweep of row i, positive cells only |
| `Engine.MedicationRecommendation.RunEpoch` | main.py:108-113 | the loops over medications and conditions perform exactly one epoch |
| `Engine.MedicationRecommendation.Train` | main.py:103-115 | after train, P and Q equal `num_epochs` epochs applied to their old values; the efficacy matrix is unchanged and the shapes are kept |
| `Engine.MedicationRecommendation.CalculateError` | main.py:117-126 | returns the mean of the squared errors over the positive cells, taken row-major |
| `Engine.MedicationRecommendation.GetRecommendations` | main.py:128-142 | for the engine's current P and Q, with the default `top_n` of 5: the call fails exactly when a queried name is not in the vocabulary, naming the first such; otherwise it returns one column per queried condition, holding the top `top_n` medications by `P[m]·Q[d]` for the position d that `list.index` gives |
| `Engine.BuildAndTrain` | main.py:144-148 | building the catalog and training with 5 factors, rate 0.01, regularisation 0.01 and 100 epochs gives the vocabulary, the 0/1 matrix and the trained factors |
| `Scenario.SmallCatalogVocabulary` | main.py:70-76 | the catalog {A: [X], B: [X, Y], C: [Y]} has vocabulary [X, Y] and rows [1, 0], [1, 1], [0, 1] |

## Left out

- The Streamlit page (main.py:11-25, 150-162) and `img_to_bytes` (main.py:6-9). They are presentation and file I/O.
- The comma split of the user's input (main.py:157). The model takes the list of condition names as given.
- The hard-coded dictionary (main.py:28-69). It is data; the model takes any dictionary, as a sequence of (name, conditions) items in insertion order, and `Scenario` uses a small one.
- Random initialisation with `np.random.normal` (main.py:100-101). The constructor takes the initial factors as parameters of the right shape.
- The `print` of each epoch's error (main.py:115). `Train` still calls `CalculateError` once per epoch and discards the value.
- Floating point. Arithmetic is over Dafny's exact `real`, so rounding, NaN propagation and convergence of the error are not modelled; the empty-mean NaN is `None`.
- Engine.MedicationRecommendation.constructor: requires at least one medication and `num_factors > 0`. It does not model the crash the code has otherwise: shape unpacking fails at main.py:93 and `1./num_factors` divides by zero at main.py:100.
- Engine.MedicationRecommendation.GetRecommendations: requires that the vocabulary has one entry per column of the matrix, as the global `unique_diseases` has. It does not model the IndexError a shorter factor matrix would raise.
- Engine.MedicationRecommendation.Train: the module-level matrix is shared with the engine (main.py:92). The model proves that training does not write it, but does not model another writer changing it between calls.
- The numpy tie order of `argsort` is replaced by the stable rule described above.
