/**
 * get_recommendations on values (main.py:128-142): condition names become
 * vocabulary indices by list.index, every medication is scored against each
 * queried condition by a dot product of factor rows, and each condition's column
 * is ranked by argsort, reversed and cut to its first top_n entries.
 */
module Ranking {
  import opened Wrappers
  import opened Factorization

  /** The ValueError list.index raises for a name that is not in the vocabulary. */
  datatype Error = UnknownCondition(name: string)

  /** list.index: the first position holding `name`. */
  function IndexOf(vocab: seq<string>, name: string): (r: Option<nat>)
    ensures r.None? <==> name !in vocab
    ensures r.Some? ==> r.value < |vocab| && vocab[r.value] == name && name !in vocab[..r.value]
  {
    if |vocab| == 0 then None
    else if vocab[0] == name then Some(0)
    else match IndexOf(vocab[1..], name)
      case None => None
      case Some(d) =>
        assert vocab[..d + 1] == [vocab[0]] + vocab[1..][..d];
        Some(d + 1)
  }

  /** diseases[c] is the first queried name missing from the vocabulary. */
  predicate FirstUnknown(vocab: seq<string>, diseases: seq<string>, c: nat)
    requires c < |diseases|
  {
    diseases[c] !in vocab && forall c' :: 0 <= c' < c ==> diseases[c'] in vocab
  }

  /** disease_indices (main.py:137), evaluated left to right: the first unknown name fails the call. */
  function ConditionIndices(vocab: seq<string>, diseases: seq<string>): (r: Result<seq<nat>, Error>)
    ensures r.Success? <==> forall c :: 0 <= c < |diseases| ==> diseases[c] in vocab
    ensures r.Success? ==>
              && |r.value| == |diseases|
              && forall c :: 0 <= c < |diseases| ==> r.value[c] == IndexOf(vocab, diseases[c]).value
    ensures r.Failure? ==>
              exists c :: 0 <= c < |diseases| && FirstUnknown(vocab, diseases, c) && r.error == UnknownCondition(diseases[c])
  {
    if |diseases| == 0 then Success([])
    else match IndexOf(vocab, diseases[0])
      case None => Failure(UnknownCondition(diseases[0]))
      case Some(d) =>
        match ConditionIndices(vocab, diseases[1..])
        case Failure(e) =>
          assert exists c :: 1 <= c < |diseases| && FirstUnknown(vocab, diseases, c) && e == UnknownCondition(diseases[c]) by {
            var c :| 0 <= c < |diseases[1..]| && FirstUnknown(vocab, diseases[1..], c) && e == UnknownCondition(diseases[1..][c]);
            assert forall c' :: 1 <= c' < c + 1 ==> diseases[c'] == diseases[1..][c' - 1];
            assert FirstUnknown(vocab, diseases, c + 1);
          }
          Failure(e)
        case Success(rest) => Success([d] + rest)
  }

  // ---------------------------------------------------------------------------
  // argsort, reversal and the [:top_n] slice.
  // ---------------------------------------------------------------------------

  /** Medication x sorts before medication y in the ascending argsort: a smaller
      score, or an equal score and a smaller index (the tie rule this model fixes). */
  predicate Precedes(s: seq<real>, x: nat, y: nat)
    requires x < |s| && y < |s|
  {
    s[x] < s[y] || (s[x] == s[y] && x < y)
  }

  predicate Ascending(s: seq<real>, order: seq<nat>)
  {
    forall a, b :: 0 <= a < b < |order| ==> order[a] < |s| && order[b] < |s| && Precedes(s, order[a], order[b])
  }

  predicate Descending(s: seq<real>, order: seq<nat>)
  {
    forall a, b :: 0 <= a < b < |order| ==> order[a] < |s| && order[b] < |s| && Precedes(s, order[b], order[a])
  }

  /** Inserts medication x, larger than every index already placed, after every
      medication that does not score more. */
  function Insert(s: seq<real>, x: nat, order: seq<nat>): (r: seq<nat>)
    requires x < |s| && Ascending(s, order)
    requires forall a :: 0 <= a < |order| ==> order[a] < x
    ensures |r| == |order| + 1
    ensures forall y :: y in r <==> y == x || y in order
    ensures forall a :: 0 <= a < |r| ==> r[a] <= x
    ensures Ascending(s, r)
  {
    if |order| == 0 then [x]
    else if s[x] < s[order[0]] then [x] + order
    else
      var rest := Insert(s, x, order[1..]);
      assert forall y :: y in rest ==> y < |s| && Precedes(s, order[0], y);
      [order[0]] + rest
  }

  /** argsort of the first n scores: indices 0 .. n-1 by ascending score. */
  function ArgsortPrefix(s: seq<real>, n: nat): (r: seq<nat>)
    requires n <= |s|
    ensures |r| == n
    ensures forall y: nat :: y in r <==> y < n
    ensures forall a :: 0 <= a < |r| ==> r[a] < n
    ensures Ascending(s, r)
  {
    if n == 0 then [] else Insert(s, n - 1, ArgsortPrefix(s, n - 1))
  }

  /** np.argsort of one score column. */
  function Argsort(s: seq<real>): seq<nat>
  {
    ArgsortPrefix(s, |s|)
  }

  function Reverse<T>(xs: seq<T>): (r: seq<T>)
    ensures |r| == |xs|
  {
    seq(|xs|, a requires 0 <= a < |xs| => xs[|xs| - 1 - a])
  }

  /** argsort(...)[::-1]: every medication exactly once, by descending score,
      equal scores by descending index. */
  function FullRanking(s: seq<real>): (r: seq<nat>)
    ensures |r| == |s|
    ensures forall y: nat :: y in r <==> y < |s|
    ensures Descending(s, r)
  {
    var up := Argsort(s);
    var r := Reverse(up);
    assert forall y :: y in r <==> y in up by {
      forall y ensures y in r <==> y in up {
        if y in up {
          var a :| 0 <= a < |up| && up[a] == y;
          assert r[|up| - 1 - a] == y;
        }
      }
    }
    r
  }

  /** The length of xs[:n] for Python's slice semantics: a negative n counts from the end. */
  function SliceEnd(n: int, len: nat): (r: nat)
    ensures r <= len
  {
    if n >= 0 then (if n < len then n else len)
    else if len + n > 0 then len + n else 0
  }

  /** The n best medications of one score column: distinct, in range, by descending
      score, as many as the slice keeps, and no medication left out scores more
      than one kept. */
  predicate IsTopN(s: seq<real>, n: int, r: seq<nat>)
  {
    && |r| == SliceEnd(n, |s|)
    && (forall a :: 0 <= a < |r| ==> r[a] < |s|)
    && (forall a, b :: 0 <= a < b < |r| ==> r[a] != r[b])
    && (forall a, b :: 0 <= a < b < |r| ==> s[r[a]] >= s[r[b]])
    && (forall m, a :: 0 <= m < |s| && m !in r && 0 <= a < |r| ==> s[m] <= s[r[a]])
  }

  /** A prefix of a descending ranking of every medication scores at least as
      much as every medication it leaves out. */
  lemma PrefixDominates(s: seq<real>, full: seq<nat>, len: nat)
    requires Descending(s, full) && len <= |full|
    requires forall y: nat :: y in full <==> y < |s|
    requires forall a :: 0 <= a < |full| ==> full[a] < |s|
    ensures forall m, a :: 0 <= m < |s| && m !in full[..len] && 0 <= a < len ==> s[m] <= s[full[a]]
  {
    forall m, a | 0 <= m < |s| && m !in full[..len] && 0 <= a < len
      ensures s[m] <= s[full[a]]
    {
      assert m in full;
      var p :| 0 <= p < |full| && full[p] == m;
      assert a < p;
    }
  }

  /** np.argsort(scores)[::-1][:top_n] for one column. */
  function TopN(s: seq<real>, n: int): (r: seq<nat>)
    ensures IsTopN(s, n, r)
  {
    var full := FullRanking(s);
    PrefixDominates(s, full, SliceEnd(n, |s|));
    full[..SliceEnd(n, |s|)]
  }

  /** For top_n >= 0 the column holds min(top_n, number of medications) entries. */
  lemma TopNCount(s: seq<real>, n: int)
    requires n >= 0
    ensures |TopN(s, n)| == if n < |s| then n else |s|
  {
  }

  /** A top_n at least the number of medications ranks every medication. */
  lemma TopNAll(s: seq<real>, n: int)
    requires n >= |s|
    ensures forall m: nat :: m in TopN(s, n) <==> m < |s|
  {
    assert TopN(s, n) == FullRanking(s);
  }

  // ---------------------------------------------------------------------------
  // get_recommendations.
  // ---------------------------------------------------------------------------

  /** medication_scores[:, c] for the condition with vocabulary index d (main.py:139). */
  function ColumnScores(P: seq<seq<real>>, Q: seq<seq<real>>, k: nat, d: nat): (s: seq<real>)
    requires Rect(P, k) && Rect(Q, k) && d < |Q|
    ensures |s| == |P|
  {
    seq(|P|, m requires 0 <= m < |P| => Dot(P[m], Q[d]))
  }

  /** get_recommendations (main.py:128-142), one ranked column per queried condition
      (the source's result holds these as the columns of one array). */
  function Recommend(vocab: seq<string>, P: seq<seq<real>>, Q: seq<seq<real>>, k: nat,
                     diseases: seq<string>, topN: int): (r: Result<seq<seq<nat>>, Error>)
    requires Rect(P, k) && Rect(Q, k) && |vocab| <= |Q|
    ensures r.Success? ==> |r.value| == |diseases|
  {
    match ConditionIndices(vocab, diseases)
    case Failure(e) => Failure(e)
    case Success(idx) =>
      Success(seq(|idx|, c requires 0 <= c < |idx| => TopN(ColumnScores(P, Q, k, idx[c]), topN)))
  }

  /** `col` is the ranked column get_recommendations gives for condition `name`:
      the name has a position in the vocabulary, the first one as list.index
      finds it, and `col` is the top_n ranking of the medications by P[m]·Q[d]
      for that position d. */
  predicate RankedColumn(vocab: seq<string>, P: seq<seq<real>>, Q: seq<seq<real>>, k: nat,
                         name: string, topN: int, col: seq<nat>)
    requires Rect(P, k) && Rect(Q, k) && |vocab| <= |Q|
  {
    match IndexOf(vocab, name)
    case None => false
    case Some(d) => vocab[d] == name && IsTopN(ColumnScores(P, Q, k, d), topN, col)
  }

  /** The call fails exactly when some queried name is not in the vocabulary, and
      then names the first such; otherwise it returns one column per queried
      condition, and column c ranks the medications by P[m]·Q[d] for the position
      d that list.index gives for that condition. */
  lemma RecommendSpec(vocab: seq<string>, P: seq<seq<real>>, Q: seq<seq<real>>, k: nat,
                      diseases: seq<string>, topN: int)
    requires Rect(P, k) && Rect(Q, k) && |vocab| <= |Q|
    ensures var r := Recommend(vocab, P, Q, k, diseases, topN);
            && (r.Success? <==> forall c :: 0 <= c < |diseases| ==> diseases[c] in vocab)
            && (r.Failure? ==>
                  exists c :: 0 <= c < |diseases| && FirstUnknown(vocab, diseases, c) && r.error == UnknownCondition(diseases[c]))
            && (r.Success? ==>
                  && |r.value| == |diseases|
                  && forall c :: 0 <= c < |diseases| ==> RankedColumn(vocab, P, Q, k, diseases[c], topN, r.value[c]))
  {
    var r := Recommend(vocab, P, Q, k, diseases, topN);
    if r.Success? {
      var idx := ConditionIndices(vocab, diseases).value;
      forall c | 0 <= c < |diseases|
        ensures RankedColumn(vocab, P, Q, k, diseases[c], topN, r.value[c])
      {
        assert r.value[c] == TopN(ColumnScores(P, Q, k, idx[c]), topN);
      }
    }
  }
}
