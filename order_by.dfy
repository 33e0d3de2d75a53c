/**
 * The ORDER BY list: pairs of a sort key and a direction. Every setter
 * replaces the whole list.
 */
module OrderBy {
  import opened Integers

  datatype Order = Asc | Desc

  /** An implementor of the `OrderBy` trait: `get_order`/`set_order` are this one field. */
  class OrderByBuilder {
    var order: seq<(string, Order)>

    constructor ()
      ensures order == []
    {
      order := [];
    }

    /** `order_by_expression`: not implemented in the source; the order is left as it was. */
    method OrderByExpression(exp: string)
      modifies this
      ensures order == old(order)
    {
    }

    /** `order_by_row_asc`: order by one column number, ascending. */
    method OrderByRowAsc(row: u32)
      modifies this
      ensures order == [(NatToDecimal(row), Asc)]
      ensures DecimalValue(order[0].0) == row
    {
      OrderByRow(row, Asc);
    }

    /** `order_by_row`: order by one column number, in the given direction. */
    method OrderByRow(row: u32, direction: Order)
      modifies this
      ensures order == [(NatToDecimal(row), direction)]
      ensures DecimalValue(order[0].0) == row
    {
      NatToDecimalRoundTrip(row);
      order := [(NatToDecimal(row), direction)];
    }

    /** `order_by_row_desc`: order by one column number, descending. */
    method OrderByRowDesc(row: u32)
      modifies this
      ensures order == [(NatToDecimal(row), Desc)]
      ensures DecimalValue(order[0].0) == row
    {
      OrderByRow(row, Desc);
    }

    /** `order_by_field_asc`: order by one field, ascending, replacing any previous order. */
    method OrderByFieldAsc(field: string)
      modifies this
      ensures order == [(field, Asc)]
    {
      order := [(field, Asc)];
    }

    /** `order_by_field_desc`: order by one field, descending, replacing any previous order. */
    method OrderByFieldDesc(field: string)
      modifies this
      ensures order == [(field, Desc)]
    {
      order := [(field, Desc)];
    }

    /** `order_by_field`: order by one field in the given direction, replacing any previous order. */
    method OrderByField(field: string, direction: Order)
      modifies this
      ensures order == [(field, direction)]
    {
      order := [(field, direction)];
    }

    /** `order_by_fields`: the order becomes the given list, in order. */
    method OrderByFields(fields: seq<(string, Order)>)
      modifies this
      ensures order == fields
    {
      order := fields;
    }
  }

  /** `order_by_expression` leaves the list alone; every other setter discards what was there before. */
  method OrderByScenario() returns (kept: seq<(string, Order)>, replaced: seq<(string, Order)>)
    ensures kept == [("name", Asc), ("age", Desc)]
    ensures replaced == [("2", Desc)]
  {
    var o := new OrderByBuilder();
    o.OrderByFields([("name", Asc), ("age", Desc)]);
    o.OrderByExpression("len(name)");
    kept := o.order;
    o.OrderByRowDesc(2);
    replaced := o.order;
  }
}
