/**
 * The catalog builder: the medication → conditions dictionary becomes a sorted
 * vocabulary of condition names (main.py:70) and a dense 0/1 efficacy matrix
 * with one row per medication, in the dictionary's insertion order (main.py:72-78).
 */
module Catalog {

  /** One item of the dictionary: a medication name and the conditions it treats. */
  type Entry = (string, seq<string>)

  // ---------------------------------------------------------------------------
  // Python's ordering of str values: code point by code point, a proper prefix
  // sorting before the longer string.
  // ---------------------------------------------------------------------------

  predicate Less(a: string, b: string)
  {
    if |a| == 0 then |b| > 0
    else |b| > 0 && (a[0] < b[0] || (a[0] == b[0] && Less(a[1..], b[1..])))
  }

  lemma {:induction false} LessIrreflexive(a: string)
    ensures !Less(a, a)
  {
    if |a| > 0 {
      LessIrreflexive(a[1..]);
    }
  }

  lemma {:induction false} LessTransitive(a: string, b: string, c: string)
    requires Less(a, b) && Less(b, c)
    ensures Less(a, c)
  {
    if |a| > 0 && a[0] == b[0] && b[0] == c[0] {
      LessTransitive(a[1..], b[1..], c[1..]);
    }
  }

  lemma LessAsymmetric(a: string, b: string)
    requires Less(a, b)
    ensures !Less(b, a)
  {
    if Less(b, a) {
      LessTransitive(a, b, a);
      LessIrreflexive(a);
    }
  }

  lemma {:induction false} LessTotal(a: string, b: string)
    requires a != b
    ensures Less(a, b) || Less(b, a)
  {
    if |a| > 0 && |b| > 0 && a[0] == b[0] {
      assert a == [a[0]] + a[1..] && b == [b[0]] + b[1..];
      LessTotal(a[1..], b[1..]);
    }
  }

  /** Strictly ascending under Python's string order: sorted and free of duplicates. */
  predicate StrictlySorted(s: seq<string>)
  {
    forall i, j :: 0 <= i < j < |s| ==> Less(s[i], s[j])
  }

  // ---------------------------------------------------------------------------
  // The vocabulary: sorted(list(set(...))) over every condition list.
  // ---------------------------------------------------------------------------

  /** The conditions of all medications, in dictionary order, duplicates kept
      (the generator fed to set() at main.py:70). */
  function AllConditions(catalog: seq<Entry>): seq<string>
  {
    if |catalog| == 0 then [] else AllConditions(catalog[..|catalog| - 1]) + catalog[|catalog| - 1].1
  }

  /** Condition d appears in the list of some medication of the catalog. */
  ghost predicate Listed(catalog: seq<Entry>, d: string)
  {
    exists i :: 0 <= i < |catalog| && d in catalog[i].1
  }

  lemma {:induction false} AllConditionsListed(catalog: seq<Entry>)
    ensures forall d :: d in AllConditions(catalog) <==> Listed(catalog, d)
  {
    if |catalog| > 0 {
      var front := catalog[..|catalog| - 1];
      AllConditionsListed(front);
      forall d
        ensures d in AllConditions(catalog) <==> Listed(catalog, d)
      {
        if Listed(catalog, d) {
          var i :| 0 <= i < |catalog| && d in catalog[i].1;
          if i < |front| {
            assert d in front[i].1;
          }
        }
        if d in AllConditions(front) {
          var i :| 0 <= i < |front| && d in front[i].1;
          assert d in catalog[i].1;
        }
      }
    }
  }

  /** Adds x to a strictly sorted sequence, keeping it strictly sorted
      (an element already present is not added again). */
  function InsertSorted(x: string, s: seq<string>): (r: seq<string>)
    requires StrictlySorted(s)
    ensures StrictlySorted(r)
    ensures forall y :: y in r <==> y == x || y in s
  {
    if |s| == 0 then [x]
    else if x == s[0] then s
    else if Less(x, s[0]) then
      assert forall j :: 0 < j < |s| ==> Less(x, s[j]) by {
        forall j | 0 < j < |s| ensures Less(x, s[j]) { LessTransitive(x, s[0], s[j]); }
      }
      [x] + s
    else
      var rest := InsertSorted(x, s[1..]);
      assert Less(s[0], x) by { LessTotal(x, s[0]); }
      assert forall y :: y in rest ==> Less(s[0], y);
      [s[0]] + rest
  }

  /** The sorted set of a sequence of names. */
  function SortedSet(xs: seq<string>): (r: seq<string>)
    ensures StrictlySorted(r)
    ensures forall y :: y in r <==> y in xs
  {
    if |xs| == 0 then [] else InsertSorted(xs[|xs| - 1], SortedSet(xs[..|xs| - 1]))
  }

  /** unique_diseases (main.py:70). */
  function Vocabulary(catalog: seq<Entry>): (vocab: seq<string>)
    ensures StrictlySorted(vocab)
  {
    SortedSet(AllConditions(catalog))
  }

  /** The vocabulary is strictly sorted and holds exactly the conditions listed by
      some medication. */
  lemma VocabularyIsSortedUnion(catalog: seq<Entry>)
    ensures StrictlySorted(Vocabulary(catalog))
    ensures forall d :: d in Vocabulary(catalog) <==> Listed(catalog, d)
  {
    AllConditionsListed(catalog);
  }

  lemma FirstIsMember(s: seq<string>)
    ensures |s| > 0 ==> s[0] in s
  {
  }

  /** Two strictly sorted sequences with the same elements are equal. */
  lemma {:induction false} SortedSetsEqual(a: seq<string>, b: seq<string>)
    requires StrictlySorted(a) && StrictlySorted(b)
    requires forall x :: x in a <==> x in b
    ensures a == b
  {
    if |a| == 0 {
      FirstIsMember(b);
    } else {
      assert a[0] in b && b[0] in a;
      if a[0] != b[0] {
        var i :| 0 <= i < |a| && a[i] == b[0];
        var j :| 0 <= j < |b| && b[j] == a[0];
        assert Less(a[0], b[0]) && Less(b[0], a[0]);
        LessAsymmetric(a[0], b[0]);
      }
      forall x
        ensures x in a[1..] <==> x in b[1..]
      {
        if x in a[1..] {
          var i :| 1 <= i < |a| && a[i] == x;
          if x == b[0] { assert Less(a[0], x); LessIrreflexive(x); }
          assert x in a && x in b;
          var j :| 0 <= j < |b| && b[j] == x;
          assert b[1..][j - 1] == x;
        }
        if x in b[1..] {
          var j :| 1 <= j < |b| && b[j] == x;
          if x == a[0] { assert Less(b[0], x); LessIrreflexive(x); }
          assert x in b && x in a;
          var i :| 0 <= i < |a| && a[i] == x;
          assert a[1..][i - 1] == x;
        }
      }
      SortedSetsEqual(a[1..], b[1..]);
      assert a == [a[0]] + a[1..] && b == [b[0]] + b[1..];
    }
  }

  /** Any strictly sorted sequence holding exactly the listed conditions is the
      vocabulary: the vocabulary does not depend on the dictionary's order or on
      repeated conditions. */
  lemma VocabularyUnique(catalog: seq<Entry>, v: seq<string>)
    requires StrictlySorted(v)
    requires forall d :: d in v <==> Listed(catalog, d)
    ensures v == Vocabulary(catalog)
  {
    VocabularyIsSortedUnion(catalog);
    SortedSetsEqual(v, Vocabulary(catalog));
  }

  /** Two catalogs listing the same conditions have the same vocabulary. */
  lemma VocabularyOnlyDependsOnConditions(c1: seq<Entry>, c2: seq<Entry>)
    requires forall d :: Listed(c1, d) <==> Listed(c2, d)
    ensures Vocabulary(c1) == Vocabulary(c2)
  {
    VocabularyIsSortedUnion(c1);
    VocabularyUnique(c2, Vocabulary(c1));
  }

  // ---------------------------------------------------------------------------
  // The efficacy matrix.
  // ---------------------------------------------------------------------------

  /** efficacy_row (main.py:75): one 0/1 entry per vocabulary position. */
  function EfficacyRow(conditions: seq<string>, vocab: seq<string>): (row: seq<int>)
    ensures |row| == |vocab|
    ensures forall j :: 0 <= j < |vocab| ==> (row[j] == 1 <==> vocab[j] in conditions) && (row[j] == 0 || row[j] == 1)
  {
    seq(|vocab|, j requires 0 <= j < |vocab| => if vocab[j] in conditions then 1 else 0)
  }

  /** The loop at main.py:73-76: one row per medication, in dictionary order. */
  method BuildEfficacyMatrix(catalog: seq<Entry>, vocab: seq<string>) returns (matrix: seq<seq<int>>)
    ensures |matrix| == |catalog|
    ensures forall i :: 0 <= i < |catalog| ==> |matrix[i]| == |vocab|
    ensures forall i, j :: 0 <= i < |catalog| && 0 <= j < |vocab| ==>
              (matrix[i][j] == 1 <==> vocab[j] in catalog[i].1) && (matrix[i][j] == 0 || matrix[i][j] == 1)
  {
    matrix := [];
    for n := 0 to |catalog|
      invariant |matrix| == n
      invariant forall i :: 0 <= i < n ==> matrix[i] == EfficacyRow(catalog[i].1, vocab)
    {
      matrix := matrix + [EfficacyRow(catalog[n].1, vocab)];
    }
  }

  /** Each condition that medication i lists has exactly one column of the
      vocabulary, and that column holds a 1 in row i. */
  lemma ListedConditionHasOneColumn(catalog: seq<Entry>, i: nat, d: string)
    requires i < |catalog| && d in catalog[i].1
    ensures var v := Vocabulary(catalog);
            exists j :: 0 <= j < |v| && v[j] == d && EfficacyRow(catalog[i].1, v)[j] == 1
    ensures var v := Vocabulary(catalog);
            forall j, j' :: 0 <= j < |v| && 0 <= j' < |v| && v[j] == d && v[j'] == d ==> j == j'
  {
    var v := Vocabulary(catalog);
    VocabularyIsSortedUnion(catalog);
    assert Listed(catalog, d);
    var j :| 0 <= j < |v| && v[j] == d;
    assert EfficacyRow(catalog[i].1, v)[j] == 1;
    forall j1, j2 | 0 <= j1 < |v| && 0 <= j2 < |v| && v[j1] == d && v[j2] == d
      ensures j1 == j2
    {
      if j1 != j2 { LessIrreflexive(d); }
    }
  }

  /** np.array at main.py:78: the rows become a two-dimensional array. */
  method ToArray(rows: seq<seq<int>>, cols: nat) returns (a: array2<int>)
    requires forall i :: 0 <= i < |rows| ==> |rows[i]| == cols
    ensures fresh(a) && a.Length0 == |rows| && a.Length1 == cols
    ensures forall i, j :: 0 <= i < |rows| && 0 <= j < cols ==> a[i, j] == rows[i][j]
  {
    a := new int[|rows|, cols]((i, j) requires 0 <= i < |rows| && 0 <= j < cols => rows[i][j]);
  }
}
