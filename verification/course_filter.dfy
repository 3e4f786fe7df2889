/** `CourseFilterInput.Apply`: a numeric filter on `user_id`, then ORDER BY,
    OFFSET and LIMIT, all in one call. */
module CourseFilter {
  import opened Wrappers
  import opened Query
  import NumberFilter
  import Listing

  datatype CourseFilterInput = CourseFilterInput(paging: Listing.Paging, userId: Option<NumberFilter.Filter>)

  function WithDefaults(f: CourseFilterInput): CourseFilterInput {
    CourseFilterInput(Listing.WithDefaults(f.paging), Listing.FilterDefaults(f.userId))
  }

  /** The clause list and the paging `Apply` adds to the query. */
  datatype Applied = Applied(clauses: seq<Clause>, pagination: Listing.Pagination)

  /** `Apply`: the filter may add nothing (a nil filter, a nil list or an
      unknown operator) but ordering and paging are always added. */
  function Apply(f: CourseFilterInput): (a: Applied)
    requires f.paging.page >= 1
    ensures |a.clauses| <= 1
    ensures forall i :: 0 <= i < |a.clauses| ==> a.clauses[i].column == "user_id"
    ensures a.pagination.desc <==> f.paging.sortOrder == "desc"
    ensures a.pagination.column == f.paging.sortBy
    ensures a.pagination.limit == f.paging.take
    ensures a.pagination.offset == (f.paging.page - 1) * f.paging.take
  {
    Applied(NumberFilter.Clauses("user_id", f.userId), Listing.ApplyPagination(f.paging))
  }

  /** A course row passes `Apply`'s clauses exactly when its `user_id`
      meets the filter; an unrecognised operator leaves only paging. */
  lemma ApplyMeaning(f: CourseFilterInput, row: Row)
    requires f.paging.page >= 1
    requires "user_id" in row ==> row["user_id"].Num?
    ensures AllHold(Apply(f).clauses, row) <==> NumberFilter.FieldMeets("user_id", f.userId, row)
    ensures f.userId.Some? && NumberFilter.Parse(f.userId.value.op).None? ==>
              Apply(f).clauses == [] && Apply(f).pagination == Listing.ApplyPagination(f.paging)
  {
    NumberFilter.ClausesMeaning("user_id", f.userId, row);
  }
}
