/**
 * `QueryActionBuilder`, the object that holds the condition slot, with its
 * implementation of the `Condition` trait: the `set_condition` /
 * `get_condition` hooks it supplies and the `whene`, `or_where` and
 * `build_conditions` methods it inherits from the trait.
 */
module QueryBuilder {
  import opened Optional
  import opened Condition
  import ConditionExamples

  class QueryActionBuilder {
    var table: string
    var fields: seq<string>
    var conditions: Option<WhereCondition>
    var all: bool

    /** `QueryActionBuilder::new()`, which is the derived `Default`. */
    constructor ()
      ensures table == "" && fields == [] && conditions == None && !all
    {
      table := "";
      fields := [];
      conditions := None;
      all := false;
    }

    /** Overwrites the slot; the table, the fields and the `all` flag stay as they were. */
    method SetCondition(c: WhereCondition)
      modifies this
      ensures conditions == Some(c)
      ensures table == old(table) && fields == old(fields) && all == old(all)
    {
      conditions := Some(c);
    }

    function GetCondition(): (r: Option<WhereCondition>)
      reads this
      ensures r.Some? <==> conditions.Some?
      ensures r.Some? ==> r.value == conditions.value
    {
      conditions
    }

    /**
     * `whene`: AND a condition into the slot. The held tree, if any, becomes
     * the untouched left operand of the new root.
     */
    method Whene(c: WhereCondition)
      modifies this
      ensures conditions == Some(WheneStep(old(conditions), c))
      ensures old(conditions).None? ==> conditions == Some(c)
      ensures old(conditions).Some? ==> conditions.value.And? && conditions.value.left == old(conditions).value
      ensures table == old(table) && fields == old(fields) && all == old(all)
    {
      var held := GetCondition();
      if held.Some? {
        SetCondition(And(held.value, c));
      } else {
        SetCondition(c);
      }
    }

    /** `or_where`: OR a condition into the slot; on an empty slot it simply stores it. */
    method OrWhere(c: WhereCondition)
      modifies this
      ensures conditions == Some(OrWhereStep(old(conditions), c))
      ensures old(conditions).None? ==> conditions == Some(c)
      ensures old(conditions).Some? ==> conditions.value.Or? && conditions.value.left == old(conditions).value
      ensures table == old(table) && fields == old(fields) && all == old(all)
    {
      var held := GetCondition();
      if held.Some? {
        SetCondition(Or(held.value, c));
      } else {
        SetCondition(c);
      }
    }

    /**
     * `build_conditions`: absent exactly when no condition is held, otherwise
     * the rendered text of the held tree.
     */
    function BuildConditions(): (r: Option<string>)
      reads this
      ensures r.None? <==> conditions.None?
      ensures r.Some? ==> r.value == Render(conditions.value)
    {
      var held := GetCondition();
      if held.None? then None else Some(Render(held.value))
    }
  }

  /** A fresh builder renders no condition; after one `whene` it renders exactly that condition. */
  method FreshBuilderScenario(c: WhereCondition) returns (before: Option<string>, after: Option<string>)
    ensures before == None
    ensures after == Some(Render(c))
  {
    var b := new QueryActionBuilder();
    before := b.BuildConditions();
    b.Whene(c);
    after := b.BuildConditions();
  }

  /** Two `whene` calls render as one parenthesised AND of the two conditions, first on the left. */
  method TwoWheneScenario(a: WhereCondition, c: WhereCondition) returns (text: Option<string>)
    ensures text == Some("(" + Render(a) + " AND " + Render(c) + ")")
  {
    var b := new QueryActionBuilder();
    b.Whene(a);
    b.Whene(c);
    text := b.BuildConditions();
  }

  /** `or_where` into an empty slot does not fail: it stores the condition, and a later `whene` ANDs onto it. */
  method OrWhereFirstScenario(a: WhereCondition, c: WhereCondition) returns (text: Option<string>)
    ensures text == Some("(" + Render(a) + " AND " + Render(c) + ")")
  {
    var b := new QueryActionBuilder();
    b.OrWhere(a);
    b.Whene(c);
    text := b.BuildConditions();
  }

  /** `whene`, `or_where`, then `whene` fold left to right into `((f1 OR f2) AND f3)`; the other fields stay at their defaults. */
  method MixedFoldScenario() returns (held: Option<WhereCondition>, table: string, fields: seq<string>, all: bool)
    ensures held == Some(And(Or(Null("f1"), NotNull("f2")), NotNull("f3")))
    ensures Render(held.value) == "((f1 IS NULL OR f2 IS NOT NULL) AND f3 IS NOT NULL)"
    ensures table == "" && fields == [] && !all
  {
    ConditionExamples.MixedFoldExample();
    var b := new QueryActionBuilder();
    b.Whene(Null("f1"));
    b.OrWhere(NotNull("f2"));
    b.Whene(NotNull("f3"));
    held, table, fields, all := b.GetCondition(), b.table, b.fields, b.all;
  }
}
