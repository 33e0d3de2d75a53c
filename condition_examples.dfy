/**
 * The exact texts the source's tests expect for conditions with a single
 * AND/OR node, and the text of the fold scenario with two, restated as
 * lemmas about `Condition.Render`.
 *
 * Leaves shared by several tests are proved once (`...Leaf`); the longer
 * texts are assembled from their parts in a lemma of their own (`...Text`),
 * which keeps each string comparison small.
 */
module ConditionExamples {
  import opened Strings
  import opened Condition

  /** `name = 1`, the left operand of the four comparison tests. */
  lemma NameEqOneLeaf()
    ensures Render(Eq("name", "1")) == "name = 1"
  {
    assert "name" + " = " == "name = ";
    assert "name = " + "1" == "name = 1";
  }

  /** `age BETWEEN 20 AND 30` */
  lemma AgeBetweenLeaf()
    ensures Render(Between("age", "20", "30")) == "age BETWEEN 20 AND 30"
  {
    assert "age" + " BETWEEN " == "age BETWEEN ";
    assert "age BETWEEN " + "20" == "age BETWEEN 20";
    assert "age BETWEEN 20" + " AND " == "age BETWEEN 20 AND ";
    assert "age BETWEEN 20 AND " + "30" == "age BETWEEN 20 AND 30";
  }

  /** `id IN (4, 5, 6)` */
  lemma IdInFourFiveSixLeaf()
    ensures Render(In("id", ["4", "5", "6"])) == "id IN (4, 5, 6)"
  {
    assert ["5", "6"][1..] == ["6"];
    assert ["4", "5", "6"][1..] == ["5", "6"];
    assert Join(["4", "5", "6"], ListSeparator) == "4, 5, 6";
    assert "id" + " IN (" == "id IN (";
    assert "id IN (" + "4, 5, 6" == "id IN (4, 5, 6";
    assert "id IN (4, 5, 6" + ")" == "id IN (4, 5, 6)";
  }

  /** `(name = 1 AND age > 18)` */
  lemma EqAndGtExample()
    ensures Render(And(Eq("name", "1"), Gt("age", "18"))) == "(name = 1 AND age > 18)"
  {
    NameEqOneLeaf();
    assert "age" + " > " == "age > ";
    assert "age > " + "18" == "age > 18";
    assert Render(Gt("age", "18")) == "age > 18";
    assert "(" + "name = 1" == "(name = 1";
    assert "(name = 1" + " AND " == "(name = 1 AND ";
    assert "(name = 1 AND " + "age > 18" == "(name = 1 AND age > 18";
    assert "(name = 1 AND age > 18" + ")" == "(name = 1 AND age > 18)";
  }

  /** `(name = 1 AND age < 18)` */
  lemma EqAndLtExample()
    ensures Render(And(Eq("name", "1"), Lt("age", "18"))) == "(name = 1 AND age < 18)"
  {
    NameEqOneLeaf();
    assert "age" + " < " == "age < ";
    assert "age < " + "18" == "age < 18";
    assert Render(Lt("age", "18")) == "age < 18";
    assert "(" + "name = 1" == "(name = 1";
    assert "(name = 1" + " AND " == "(name = 1 AND ";
    assert "(name = 1 AND " + "age < 18" == "(name = 1 AND age < 18";
    assert "(name = 1 AND age < 18" + ")" == "(name = 1 AND age < 18)";
  }

  /** `(name = 1 AND age <= 18)` */
  lemma EqAndLteExample()
    ensures Render(And(Eq("name", "1"), Lte("age", "18"))) == "(name = 1 AND age <= 18)"
  {
    NameEqOneLeaf();
    assert "age" + " <= " == "age <= ";
    assert "age <= " + "18" == "age <= 18";
    assert Render(Lte("age", "18")) == "age <= 18";
    assert "(" + "name = 1" == "(name = 1";
    assert "(name = 1" + " AND " == "(name = 1 AND ";
    assert "(name = 1 AND " + "age <= 18" == "(name = 1 AND age <= 18";
    assert "(name = 1 AND age <= 18" + ")" == "(name = 1 AND age <= 18)";
  }

  /** `(name = 1 AND age >= 18)` */
  lemma EqAndGteExample()
    ensures Render(And(Eq("name", "1"), Gte("age", "18"))) == "(name = 1 AND age >= 18)"
  {
    NameEqOneLeaf();
    assert "age" + " >= " == "age >= ";
    assert "age >= " + "18" == "age >= 18";
    assert Render(Gte("age", "18")) == "age >= 18";
    assert "(" + "name = 1" == "(name = 1";
    assert "(name = 1" + " AND " == "(name = 1 AND ";
    assert "(name = 1 AND " + "age >= 18" == "(name = 1 AND age >= 18";
    assert "(name = 1 AND age >= 18" + ")" == "(name = 1 AND age >= 18)";
  }

  /** `(name LIKE 'John%' AND age BETWEEN 20 AND 30)`, assembled from its two leaf texts. */
  lemma LikeAndBetweenText()
    ensures "(" + "name LIKE 'John%'" + " AND " + "age BETWEEN 20 AND 30" + ")" == "(name LIKE 'John%' AND age BETWEEN 20 AND 30)"
  {
    assert "(" + "name LIKE 'John%'" == "(name LIKE 'John%'";
    assert "(name LIKE 'John%'" + " AND " == "(name LIKE 'John%' AND ";
    assert "(name LIKE 'John%' AND " + "age BETWEEN 20 AND 30" == "(name LIKE 'John%' AND age BETWEEN 20 AND 30";
  }

  /** `(name LIKE 'John%' AND age BETWEEN 20 AND 30)` */
  lemma LikeAndBetweenExample()
    ensures Render(And(Like("name", "John%"), Between("age", "20", "30"))) == "(name LIKE 'John%' AND age BETWEEN 20 AND 30)"
  {
    ValueLeafExamples();
    AgeBetweenLeaf();
    LikeAndBetweenText();
  }

  /** `(id NOT IN (1, 2, 3) AND name IS NULL)` */
  lemma NotInAndNullExample()
    ensures Render(And(NotIn("id", ["1", "2", "3"]), Null("name"))) == "(id NOT IN (1, 2, 3) AND name IS NULL)"
  {
    assert ["2", "3"][1..] == ["3"];
    assert ["1", "2", "3"][1..] == ["2", "3"];
    assert Join(["1", "2", "3"], ListSeparator) == "1, 2, 3";
    assert "id" + " NOT IN (" == "id NOT IN (";
    assert "id NOT IN (" + "1, 2, 3" == "id NOT IN (1, 2, 3";
    assert "id NOT IN (1, 2, 3" + ")" == "id NOT IN (1, 2, 3)";
    assert Render(NotIn("id", ["1", "2", "3"])) == "id NOT IN (1, 2, 3)";
    assert "name" + " IS NULL" == "name IS NULL";
    assert Render(Null("name")) == "name IS NULL";
    assert "(" + "id NOT IN (1, 2, 3)" == "(id NOT IN (1, 2, 3)";
    assert "(id NOT IN (1, 2, 3)" + " AND " == "(id NOT IN (1, 2, 3) AND ";
    assert "(id NOT IN (1, 2, 3) AND " + "name IS NULL" == "(id NOT IN (1, 2, 3) AND name IS NULL";
    assert "(id NOT IN (1, 2, 3) AND name IS NULL" + ")" == "(id NOT IN (1, 2, 3) AND name IS NULL)";
  }

  /** `(id IN (4, 5, 6) AND name IS NOT NULL)` */
  lemma InAndNotNullExample()
    ensures Render(And(In("id", ["4", "5", "6"]), NotNull("name"))) == "(id IN (4, 5, 6) AND name IS NOT NULL)"
  {
    IdInFourFiveSixLeaf();
    assert "name" + " IS NOT NULL" == "name IS NOT NULL";
    assert Render(NotNull("name")) == "name IS NOT NULL";
    assert "(" + "id IN (4, 5, 6)" == "(id IN (4, 5, 6)";
    assert "(id IN (4, 5, 6)" + " AND " == "(id IN (4, 5, 6) AND ";
    assert "(id IN (4, 5, 6) AND " + "name IS NOT NULL" == "(id IN (4, 5, 6) AND name IS NOT NULL";
    assert "(id IN (4, 5, 6) AND name IS NOT NULL" + ")" == "(id IN (4, 5, 6) AND name IS NOT NULL)";
  }

  /** `(id != 1 AND age > 20)` */
  lemma NeqAndGtExample()
    ensures Render(And(Neq("id", "1"), Gt("age", "20"))) == "(id != 1 AND age > 20)"
  {
    ComparisonLeafExamples();
    assert "age" + " > " == "age > ";
    assert "age > " + "20" == "age > 20";
    assert Render(Gt("age", "20")) == "age > 20";
    assert "(" + "id != 1" == "(id != 1";
    assert "(id != 1" + " AND " == "(id != 1 AND ";
    assert "(id != 1 AND " + "age > 20" == "(id != 1 AND age > 20";
    assert "(id != 1 AND age > 20" + ")" == "(id != 1 AND age > 20)";
  }

  /** `(age BETWEEN 20 AND 30 AND id IN (4, 5, 6))`, assembled from its two leaf texts. */
  lemma BetweenAndInText()
    ensures "(" + "age BETWEEN 20 AND 30" + " AND " + "id IN (4, 5, 6)" + ")" == "(age BETWEEN 20 AND 30 AND id IN (4, 5, 6))"
  {
    assert "(" + "age BETWEEN 20 AND 30" == "(age BETWEEN 20 AND 30";
    assert "(age BETWEEN 20 AND 30" + " AND " == "(age BETWEEN 20 AND 30 AND ";
    assert "(age BETWEEN 20 AND 30 AND " + "id IN (4, 5, 6)" == "(age BETWEEN 20 AND 30 AND id IN (4, 5, 6)";
  }

  /** `(age BETWEEN 20 AND 30 AND id IN (4, 5, 6))` */
  lemma BetweenAndInExample()
    ensures Render(And(Between("age", "20", "30"), In("id", ["4", "5", "6"]))) == "(age BETWEEN 20 AND 30 AND id IN (4, 5, 6))"
  {
    AgeBetweenLeaf();
    IdInFourFiveSixLeaf();
    BetweenAndInText();
  }

  /** `(name LIKE 'John%' AND id IN (1, 2, 3))` */
  lemma LikeAndInExample()
    ensures Render(And(Like("name", "John%"), In("id", ["1", "2", "3"]))) == "(name LIKE 'John%' AND id IN (1, 2, 3))"
  {
    ValueLeafExamples();
    InExample();
    assert "(" + "name LIKE 'John%'" == "(name LIKE 'John%'";
    assert "(name LIKE 'John%'" + " AND " == "(name LIKE 'John%' AND ";
    assert "(name LIKE 'John%' AND " + "id IN (1, 2, 3)" == "(name LIKE 'John%' AND id IN (1, 2, 3)";
    assert "(name LIKE 'John%' AND id IN (1, 2, 3)" + ")" == "(name LIKE 'John%' AND id IN (1, 2, 3))";
  }

  /** `(f1 IS NULL OR f2 IS NOT NULL)`, the tree held after the first two fold calls of `MixedFoldExample`. */
  lemma NullOrNotNullExample()
    ensures Render(Or(Null("f1"), NotNull("f2"))) == "(f1 IS NULL OR f2 IS NOT NULL)"
  {
    assert "f1" + " IS NULL" == "f1 IS NULL";
    assert "f2" + " IS NOT NULL" == "f2 IS NOT NULL";
    assert "(" + "f1 IS NULL" == "(f1 IS NULL";
    assert "(f1 IS NULL" + " OR " == "(f1 IS NULL OR ";
    assert "(f1 IS NULL OR " + "f2 IS NOT NULL" == "(f1 IS NULL OR f2 IS NOT NULL";
  }

  /** `((f1 IS NULL OR f2 IS NOT NULL) AND f3 IS NOT NULL)`, assembled from its two operand texts. */
  lemma MixedFoldText()
    ensures "(" + "(f1 IS NULL OR f2 IS NOT NULL)" + " AND " + "f3 IS NOT NULL" + ")" == "((f1 IS NULL OR f2 IS NOT NULL) AND f3 IS NOT NULL)"
  {
    assert "(" + "(f1 IS NULL OR f2 IS NOT NULL)" == "((f1 IS NULL OR f2 IS NOT NULL)";
    assert "((f1 IS NULL OR f2 IS NOT NULL)" + " AND " == "((f1 IS NULL OR f2 IS NOT NULL) AND ";
    assert "((f1 IS NULL OR f2 IS NOT NULL) AND " + "f3 IS NOT NULL" == "((f1 IS NULL OR f2 IS NOT NULL) AND f3 IS NOT NULL";
  }

  /** `((f1 IS NULL OR f2 IS NOT NULL) AND f3 IS NOT NULL)`, the text of a tree with two AND/OR nodes. */
  lemma MixedFoldExample()
    ensures Render(And(Or(Null("f1"), NotNull("f2")), NotNull("f3"))) == "((f1 IS NULL OR f2 IS NOT NULL) AND f3 IS NOT NULL)"
  {
    NullOrNotNullExample();
    assert "f3" + " IS NOT NULL" == "f3 IS NOT NULL";
    MixedFoldText();
  }

}
