/** `categoryService`: the category list query and the category CRUD
    operations over the `categories` table. */
module CategoryService {
  import opened Wrappers
  import opened Query
  import opened KeyedStore
  import CategoryFilter
  import Listing
  import TableQuery

  /** A `categories` record without its `ID`. */
  datatype Category = Category(name: string, description: string)

  type Categories = Store<Category>

  function CategoryRow(c: Keyed<Category>): (row: Row)
    ensures row.Keys == {"id", "name", "description"}
  {
    map["id" := Num(c.id), "name" := Str(c.rec.name), "description" := Str(c.rec.description)]
  }

  /** `FindManyCategories`: no clause, so the count is the whole table and
      the page is a window of an ordering of every category. */
  function FindManyCategories(store: Categories, filter: CategoryFilter.CategoryFilterInput)
    : (r: Result<Listing.ListResult<Keyed<Category>>, Listing.ListError>)
    ensures r.Success?
    ensures r.value.count == |store|
    ensures |r.value.items| <= Listing.WithDefaults(filter.paging).take
    ensures Listing.IsPageOf(r.value.items, TableQuery.Rows(store), CategoryRow,
                             Listing.ApplyPagination(Listing.WithDefaults(filter.paging)))
  {
    var f := CategoryFilter.CategoryFilterInput(Listing.WithDefaults(filter.paging));
    var pg := CategoryFilter.ApplyPagination(f);
    TableQuery.CountWithoutClauses(store, CategoryRow, pg);
    TableQuery.MatchingAll(TableQuery.Rows(store), CategoryRow);
    TableQuery.ListTable(store, CategoryRow, CategoryFilter.ApplyFilter(f), pg)
  }

  /** `CreateCategory`: insert the record copied from the create input. */
  function CreateCategory(store: Categories, rec: Category): (s: Step<Category>)
    ensures s.result.Success?
    ensures s.result.value.id !in store && s.result.value.rec == rec
    ensures s.store == store[s.result.value.id := rec]
  {
    Insert(store, rec)
  }
}
