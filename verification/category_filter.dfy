/** `CategoryFilterInput`: paging only; its `ApplyFilter` leaves the query
    as it is. */
module CategoryFilter {
  import opened Query
  import Listing

  datatype CategoryFilterInput = CategoryFilterInput(paging: Listing.Paging)

  /** `ApplyFilter` is the identity: no clause. */
  function ApplyFilter(f: CategoryFilterInput): (r: seq<Clause>)
    ensures forall row: Row :: AllHold(r, row)
    ensures AllAccepted(r)
  {
    []
  }

  function ApplyPagination(f: CategoryFilterInput): Listing.Pagination
    requires f.paging.page >= 1
  {
    Listing.ApplyPagination(f.paging)
  }
}
