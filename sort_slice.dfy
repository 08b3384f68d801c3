/**
 * The `sort` slice of the client store: the field to sort by (`null` once
 * cleared) and the order, which is never empty: `setSort` falls back to
 * "asc" when it is handed no order.
 */
module SortSlice {
  import opened Wrappers
  import opened JsText

  class SortState {
    var field: Option<string>
    var order: string

    /** The order is a non-empty string. */
    ghost predicate Valid()
      reads this
    {
      order != ""
    }

    /** `initialState: { field: 'date', order: 'desc' }`. */
    constructor ()
      ensures field == Some("date") && order == "desc"
      ensures Valid()
    {
      field := Some("date");
      order := "desc";
    }

    /** `setSort({ field, order })`: the field as given, the order or "asc" when it is absent or empty. */
    method SetSort(field: Option<string>, order: Option<string>)
      modifies this
      ensures this.field == field
      ensures Truthy(order) ==> this.order == order.value
      ensures !Truthy(order) ==> this.order == "asc"
      ensures Valid()
    {
      this.field := field;
      this.order := if Truthy(order) then order.value else "asc";
    }

    /** `clearSort`: no field, ascending; the same state whatever the state before. */
    method ClearSort()
      modifies this
      ensures field == None && order == "asc"
      ensures Valid()
    {
      field := None;
      order := "asc";
    }
  }
}
