/**
 * The GROUP BY ... HAVING clause: a list of grouping fields and an optional
 * HAVING condition, rendered with the condition renderer.
 */
module GroupBy {
  import opened Optional
  import opened Strings
  import opened Condition

  /** An implementor of the `GroupBy` trait: `get_group`/`set_group` and the HAVING getter/setter are these two fields. */
  class GroupByBuilder {
    var group: seq<string>
    var havingCondition: Option<WhereCondition>

    constructor ()
      ensures group == [] && havingCondition == None
    {
      group := [];
      havingCondition := None;
    }

    /** `group_by_field`: the group list becomes exactly `[field]`, earlier entries are dropped. */
    method GroupByField(field: string)
      modifies this
      ensures group == [field]
      ensures havingCondition == old(havingCondition)
    {
      group := [field];
    }

    /** `group_by_fields`: the group list becomes `fields`, in order. */
    method GroupByFields(fields: seq<string>)
      modifies this
      ensures group == fields
      ensures havingCondition == old(havingCondition)
    {
      group := fields;
    }

    /** `having`: sets the HAVING condition and leaves the group list alone. */
    method Having(c: WhereCondition)
      modifies this
      ensures havingCondition == Some(c)
      ensures group == old(group)
    {
      havingCondition := Some(c);
    }

    /**
     * `build_group_by`: no clause at all unless both a HAVING condition and at
     * least one group field are present; otherwise
     * `GROUP BY f1, f2, ... HAVING <rendered condition>`.
     */
    function BuildGroupBy(): (r: Option<string>)
      reads this
      ensures r.None? <==> (havingCondition.None? || group == [])
      ensures r.Some? ==> r.value == "GROUP BY " + Join(group, ListSeparator) + " HAVING " + Render(havingCondition.value)
    {
      match havingCondition
      case None => None
      case Some(c) =>
        var having := Render(c);
        if group == [] then None
        else Some("GROUP BY " + Join(group, ListSeparator) + " HAVING " + having)
    }
  }

  /**
   * Fields without HAVING give no clause; adding HAVING gives the full
   * clause; emptying the field list removes it again.
   */
  method GroupByScenario() returns (noHaving: Option<string>, withHaving: Option<string>, noFields: Option<string>)
    ensures noHaving == None
    ensures withHaving == Some("GROUP BY dept, year HAVING total > 10")
    ensures noFields == None
  {
    var g := new GroupByBuilder();
    g.GroupByFields(["dept", "year"]);
    noHaving := g.BuildGroupBy();
    g.Having(Gt("total", "10"));
    withHaving := g.BuildGroupBy();
    assert Join(["dept", "year"], ListSeparator) == "dept, year" by {
      assert ["dept", "year"][1..] == ["year"];
    }
    assert Render(Gt("total", "10")) == "total > 10";
    assert "GROUP BY " + "dept, year" + " HAVING " + "total > 10" == "GROUP BY dept, year HAVING total > 10";
    g.GroupByFields([]);
    noFields := g.BuildGroupBy();
  }
}
