/** `OrderFilterInput`: numeric filters on `user_id` and `amount` plus the
    shared paging fields. */
module OrderFilter {
  import opened Wrappers
  import opened Query
  import NumberFilter
  import Listing

  datatype OrderFilterInput = OrderFilterInput(
    paging: Listing.Paging,
    userId: Option<NumberFilter.Filter>,
    amount: Option<NumberFilter.Filter>)

  function WithDefaults(f: OrderFilterInput): OrderFilterInput {
    OrderFilterInput(Listing.WithDefaults(f.paging), Listing.FilterDefaults(f.userId), Listing.FilterDefaults(f.amount))
  }

  /** `ApplyFilter`: the `user_id` block, then the `amount` block. */
  function ApplyFilter(f: OrderFilterInput): (r: seq<Clause>)
    ensures |r| <= 2
    ensures forall i :: 0 <= i < |r| ==> r[i].column in {"user_id", "amount"}
    ensures |r| == 2 ==> r[0].column == "user_id" && r[1].column == "amount"
    ensures |r| >= 1 && r[0].column == "amount" ==> |NumberFilter.Clauses("user_id", f.userId)| == 0
  {
    NumberFilter.Clauses("user_id", f.userId) + NumberFilter.Clauses("amount", f.amount)
  }

  /** An order row passes the built clauses exactly when both of its numeric
      columns meet the present filters. */
  lemma ApplyFilterMeaning(f: OrderFilterInput, row: Row)
    requires "user_id" in row ==> row["user_id"].Num?
    requires "amount" in row ==> row["amount"].Num?
    ensures AllHold(ApplyFilter(f), row) <==>
              NumberFilter.FieldMeets("user_id", f.userId, row) && NumberFilter.FieldMeets("amount", f.amount, row)
  {
    NumberFilter.ClausesMeaning("user_id", f.userId, row);
    NumberFilter.ClausesMeaning("amount", f.amount, row);
    AllHoldConcat(NumberFilter.Clauses("user_id", f.userId), NumberFilter.Clauses("amount", f.amount), row);
  }

  /** `ApplyPagination` is the shared paging rule. */
  function ApplyPagination(f: OrderFilterInput): Listing.Pagination
    requires f.paging.page >= 1
  {
    Listing.ApplyPagination(f.paging)
  }
}
