/** The list services' "count, then page" composition: the filter clauses
    select rows, the count covers every selected row, and the returned items
    are the selected rows ordered on the sort column and cut to
    `[offset, offset + limit)`. Also the page arithmetic shared by every list
    endpoint: the offset of a 1-based page and the number of pages. */
module Listing {
  import opened Wrappers
  import opened Query
  import opened Ordering

  /** What `ApplyPagination` adds to a query: ORDER BY, OFFSET and LIMIT. */
  datatype Pagination = Pagination(column: string, desc: bool, offset: nat, limit: nat)

  /** The paging fields every list filter DTO carries (`Page`, `Take`,
      `SortBy`, `SortOrder`). */
  datatype Paging = Paging(page: nat, take: nat, sortBy: string, sortOrder: string)

  /** The `default:"…"` tags of the paging fields. */
  const DefaultPage: nat := 1
  const DefaultTake: nat := 10
  const DefaultSortBy: string := "id"
  const DefaultSortOrder: string := "asc"

  /** A field filter of the list DTOs (`UsernameFilter`, `UserIdFilter`, …):
      the operator text and the value list; `val == None` is a nil slice. */
  datatype FieldFilter<V> = FieldFilter(op: string, val: Option<seq<V>>)

  /** The `default:"equals"` tag of a field filter's operator. */
  const DefaultOp: string := "equals"

  /** `defaults.Set` on a field filter: a present filter with an empty
      operator gets the tag default, and its values are kept. */
  function FilterDefaults<V>(f: Option<FieldFilter<V>>): (d: Option<FieldFilter<V>>)
    ensures d.Some? <==> f.Some?
    ensures d.Some? ==> d.value.val == f.value.val
    ensures d.Some? && f.value.op == "" ==> d.value.op == DefaultOp
    ensures d.Some? && f.value.op != "" ==> d.value.op == f.value.op
  {
    match f
    case None => None
    case Some(ff) => Some(if ff.op == "" then ff.(op := DefaultOp) else ff)
  }

  /** `defaults.Set` on the paging fields: a zero value (0 or "") takes the
      tag's default, any other value is kept. */
  function WithDefaults(p: Paging): (d: Paging)
    ensures d.page >= 1 && d.take >= 1 && d.sortBy != "" && d.sortOrder != ""
    ensures p.page != 0 ==> d.page == p.page
    ensures p.take != 0 ==> d.take == p.take
    ensures p.sortBy != "" ==> d.sortBy == p.sortBy
    ensures p.sortOrder != "" ==> d.sortOrder == p.sortOrder
    ensures p.page == 0 ==> d.page == DefaultPage
    ensures p.take == 0 ==> d.take == DefaultTake
    ensures p.sortBy == "" ==> d.sortBy == DefaultSortBy
    ensures p.sortOrder == "" ==> d.sortOrder == DefaultSortOrder
  {
    Paging(
      if p.page == 0 then DefaultPage else p.page,
      if p.take == 0 then DefaultTake else p.take,
      if p.sortBy == "" then DefaultSortBy else p.sortBy,
      if p.sortOrder == "" then DefaultSortOrder else p.sortOrder)
  }

  /** `ApplyPagination` (the same body in the user, order and category DTOs,
      and the tail of the course DTO's `Apply`): descending exactly when the
      sort order is the text "desc", the sort column taken verbatim with no
      whitelist, `offset = (page - 1) * take` and `limit = take`. The page is
      at least 1 once defaults are applied, so the unsigned subtraction
      cannot wrap. */
  function ApplyPagination(p: Paging): (pg: Pagination)
    requires p.page >= 1
    ensures pg.desc <==> p.sortOrder == "desc"
    ensures pg.column == p.sortBy
    ensures pg.limit == p.take
    ensures pg.offset + p.take == p.page * p.take
  {
    Pagination(p.sortBy, p.sortOrder == "desc", (p.page - 1) * p.take, p.take)
  }

  /** With every paging field left unset, the first ten rows by ascending id. */
  lemma DefaultPagination()
    ensures ApplyPagination(WithDefaults(Paging(0, 0, "", ""))) == Pagination("id", false, 0, 10)
  {
  }

  /** Page 3 of 10 starts at row 20. */
  lemma ThirdPageOffset(sortBy: string, sortOrder: string)
    ensures ApplyPagination(Paging(3, 10, sortBy, sortOrder)).offset == 20
  {
  }

  function Min(a: nat, b: nat): nat {
    if a <= b then a else b
  }

  /** `OFFSET offset LIMIT limit` on an ordered sequence. */
  function Window<T>(s: seq<T>, offset: nat, limit: nat): (r: seq<T>)
    ensures |r| == if offset >= |s| then 0 else Min(limit, |s| - offset)
    ensures forall i :: 0 <= i < |r| ==> r[i] == s[offset + i]
  {
    if offset >= |s| then [] else s[offset..offset + Min(limit, |s| - offset)]
  }

  /** The rows of `table` on which every clause holds, in table order. */
  function Matching<T(==,!new)>(table: seq<T>, toRow: T -> Row, clauses: seq<Clause>): (r: seq<T>)
    ensures forall x :: multiset(r)[x] == if AllHold(clauses, toRow(x)) then multiset(table)[x] else 0
  {
    if |table| == 0 then []
    else
      var rest := Matching(table[1..], toRow, clauses);
      assert table == [table[0]] + table[1..];
      if AllHold(clauses, toRow(table[0])) then [table[0]] + rest else rest
  }

  /** `items` is the window of some ordering of `selected` on the sort column. */
  ghost predicate IsPageOf<T(!new)>(items: seq<T>, selected: seq<T>, toRow: T -> Row, pg: Pagination) {
    exists s :: multiset(s) == multiset(selected)
           && SortedOn(s, toRow, pg.column, pg.desc)
           && items == Window(s, pg.offset, pg.limit)
  }

  /** Filter, order, offset and limit in one query, without a count. */
  function FindPage<T(==,!new)>(table: seq<T>, toRow: T -> Row, clauses: seq<Clause>, pg: Pagination): (items: seq<T>)
    ensures IsPageOf(items, Matching(table, toRow, clauses), toRow, pg)
    ensures |items| <= pg.limit
    ensures forall x :: x in items ==> x in table && AllHold(clauses, toRow(x))
  {
    var selected := Matching(table, toRow, clauses);
    var sorted := Sort(selected, toRow, pg.column, pg.desc);
    var items := Window(sorted, pg.offset, pg.limit);
    assert multiset(sorted) == multiset(selected) && SortedOn(sorted, toRow, pg.column, pg.desc);
    WindowMembers(items, sorted, selected, table, toRow, clauses, pg);
    items
  }

  /** A row of a window of an ordering of the selected rows is a selected row. */
  lemma WindowMembers<T(!new)>(items: seq<T>, sorted: seq<T>, selected: seq<T>, table: seq<T>,
                               toRow: T -> Row, clauses: seq<Clause>, pg: Pagination)
    requires selected == Matching(table, toRow, clauses)
    requires multiset(sorted) == multiset(selected)
    requires items == Window(sorted, pg.offset, pg.limit)
    ensures forall x :: x in items ==> x in table && AllHold(clauses, toRow(x))
  {
    forall x | x in items
      ensures x in table && AllHold(clauses, toRow(x))
    {
      var i :| 0 <= i < |items| && items[i] == x;
      assert sorted[pg.offset + i] == x;
      assert x in multiset(sorted);
      assert multiset(selected)[x] > 0;
    }
  }

  datatype ListResult<T> = ListResult(items: seq<T>, count: nat)

  /** The store refused the query (a clause it cannot evaluate), or building
      the clauses panicked before any query ran. */
  datatype ListError = QueryRejected | BuildPanicked

  /** `Count` on the filtered query, then `Find` on the paginated one. The
      count ignores offset and limit; the query fails exactly when a clause
      is not one the store accepts. */
  function FindMany<T(==,!new)>(table: seq<T>, toRow: T -> Row, clauses: seq<Clause>, pg: Pagination)
    : (r: Result<ListResult<T>, ListError>)
    ensures r.Failure? <==> !AllAccepted(clauses)
    ensures r.Failure? ==> r.error == QueryRejected
    ensures r.Success? ==> r.value.count == |Matching(table, toRow, clauses)|
    ensures r.Success? ==> r.value.items == FindPage(table, toRow, clauses, pg)
    ensures r.Success? && pg.offset < r.value.count ==> |r.value.items| == Min(pg.limit, r.value.count - pg.offset)
    ensures r.Success? && pg.offset >= r.value.count ==> r.value.items == []
  {
    if !AllAccepted(clauses) then Failure(QueryRejected)
    else
      var selected := Matching(table, toRow, clauses);
      var sorted := Sort(selected, toRow, pg.column, pg.desc);
      assert |sorted| == |multiset(sorted)| == |selected|;
      Success(ListResult(FindPage(table, toRow, clauses, pg), |selected|))
  }

  /** The count does not depend on the pagination. */
  lemma CountIgnoresPagination<T(!new)>(table: seq<T>, toRow: T -> Row, clauses: seq<Clause>, p1: Pagination, p2: Pagination)
    requires AllAccepted(clauses)
    ensures FindMany(table, toRow, clauses, p1).Success?
    ensures FindMany(table, toRow, clauses, p1).value.count == FindMany(table, toRow, clauses, p2).value.count
  {
  }

  /** `numPages = (count + take - 1) / take`, as every list controller
      computes it: the ceiling of count / take (Go's truncating division agrees
      with Dafny's here, both operands being non-negative). */
  function NumPages(count: nat, take: nat): (n: nat)
    requires take >= 1
    ensures n * take >= count
    ensures n > 0 ==> (n - 1) * take < count
    ensures count == 0 ==> n == 0
  {
    (count + take - 1) / take
  }

  /** Every selected row sits on exactly one page within `1..NumPages`:
      row `i` of the ordering is item `i % take` of page `i / take + 1`. */
  lemma PageOfIndex<T>(s: seq<T>, i: nat, take: nat)
    requires i < |s| && take >= 1
    ensures var page := i / take + 1;
            && 1 <= page <= NumPages(|s|, take)
            && i % take < |Window(s, (page - 1) * take, take)|
            && Window(s, (page - 1) * take, take)[i % take] == s[i]
  {
    var page := i / take + 1;
    assert (page - 1) * take + i % take == i;
    var n := NumPages(|s|, take);
    assert (page - 1) * take < n * take;
    MulCancel(page - 1, n, take);
  }

  lemma MulCancel(a: nat, b: nat, c: nat)
    requires c >= 1 && a * c < b * c
    ensures a < b
  {
  }

  /** Pages past `NumPages` are empty. */
  lemma PagesBeyondAreEmpty<T>(s: seq<T>, page: nat, take: nat)
    requires take >= 1 && page > NumPages(|s|, take)
    ensures Window(s, (page - 1) * take, take) == []
  {
    var n := NumPages(|s|, take);
    assert page - 1 >= n;
    assert (page - 1) * take >= n * take;
  }

  /** No element occurs twice. */
  predicate Distinct<T(==)>(s: seq<T>) {
    forall i, j :: 0 <= i < j < |s| ==> s[i] != s[j]
  }

  /** The elements of `table` on which every clause holds. */
  function Selected<T(==,!new)>(table: seq<T>, toRow: T -> Row, clauses: seq<Clause>): set<T> {
    set x | x in table && AllHold(clauses, toRow(x))
  }

  /** Selecting from a table with a first element. */
  lemma SelectedCons<T(!new)>(table: seq<T>, toRow: T -> Row, clauses: seq<Clause>)
    requires |table| > 0
    ensures Selected(table, toRow, clauses)
            == Selected(table[1..], toRow, clauses) + (if AllHold(clauses, toRow(table[0])) then {table[0]} else {})
  {
    assert table == [table[0]] + table[1..];
  }

  /** Over a table without repeated records, the count is the number of
      records the clauses select. */
  lemma {:induction false} MatchingCount<T(!new)>(table: seq<T>, toRow: T -> Row, clauses: seq<Clause>)
    requires Distinct(table)
    ensures |Matching(table, toRow, clauses)| == |Selected(table, toRow, clauses)|
    decreases |table|
  {
    if |table| > 0 {
      var rest := table[1..];
      assert Distinct(rest) by {
        forall i, j | 0 <= i < j < |rest| ensures rest[i] != rest[j] {
          assert rest[i] == table[i + 1] && rest[j] == table[j + 1];
        }
      }
      MatchingCount(rest, toRow, clauses);
      assert table[0] !in Selected(rest, toRow, clauses) by {
        forall i | 0 <= i < |rest| ensures rest[i] != table[0] {
          assert rest[i] == table[i + 1];
        }
      }
      SelectedCons(table, toRow, clauses);
      MatchingCons(table, toRow, clauses);
    }
  }

  /** The matching rows of a table with a first element. */
  lemma MatchingCons<T(!new)>(table: seq<T>, toRow: T -> Row, clauses: seq<Clause>)
    requires |table| > 0
    ensures |Matching(table, toRow, clauses)|
            == |Matching(table[1..], toRow, clauses)| + (if AllHold(clauses, toRow(table[0])) then 1 else 0)
  {
  }

  /** An offset at or past the number of selected rows gives an empty page. */
  lemma PageBeyondMatching<T(!new)>(table: seq<T>, toRow: T -> Row, clauses: seq<Clause>, pg: Pagination)
    requires pg.offset >= |Matching(table, toRow, clauses)|
    ensures FindPage(table, toRow, clauses, pg) == []
  {
    var selected := Matching(table, toRow, clauses);
    var items := FindPage(table, toRow, clauses, pg);
    assert IsPageOf(items, selected, toRow, pg);
    var s :| multiset(s) == multiset(selected) && SortedOn(s, toRow, pg.column, pg.desc)
             && items == Window(s, pg.offset, pg.limit);
    SameSize(s, selected);
  }

  lemma SameSize<T>(a: seq<T>, b: seq<T>)
    requires multiset(a) == multiset(b)
    ensures |a| == |b|
  {
    assert |multiset(a)| == |a|;
    assert |multiset(b)| == |b|;
  }

  /** The first row of a page past `NumPages` lies past the last selected row. */
  lemma BeyondLastPage(p: Paging, count: nat)
    requires p.page >= 1 && p.take >= 1 && p.page > NumPages(count, p.take)
    ensures ApplyPagination(p).offset >= count
  {
    var n := NumPages(count, p.take);
    assert p.page - 1 >= n;
    assert (p.page - 1) * p.take >= n * p.take;
  }
}
