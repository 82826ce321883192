/**
 * A small instance of the catalog, worked out by the definitions: medications
 * A, B, C treating X, X and Y, and Y.
 */
module Scenario {
  import opened Catalog

  function SmallCatalog(): seq<Entry>
  {
    [("A", ["X"]), ("B", ["X", "Y"]), ("C", ["Y"])]
  }

  lemma SmallCatalogVocabulary()
    ensures Vocabulary(SmallCatalog()) == ["X", "Y"]
    ensures EfficacyRow(SmallCatalog()[0].1, ["X", "Y"]) == [1, 0]
    ensures EfficacyRow(SmallCatalog()[1].1, ["X", "Y"]) == [1, 1]
    ensures EfficacyRow(SmallCatalog()[2].1, ["X", "Y"]) == [0, 1]
  {
    var cat := SmallCatalog();
    assert Less("X", "Y");
    forall d
      ensures d in ["X", "Y"] <==> Listed(cat, d)
    {
      if d == "X" { assert d in cat[0].1; }
      if d == "Y" { assert d in cat[2].1; }
    }
    VocabularyUnique(cat, ["X", "Y"]);
  }
}
