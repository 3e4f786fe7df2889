/** The list services run their count-then-page query against a whole table:
    the rows are the stored records in id order, each seen through the
    entity's column map. */
module TableQuery {
  import opened Wrappers
  import opened Query
  import opened KeyedStore
  import Listing
  import Ordering

  /** The stored records, as the query sees them. */
  function Rows<T(!new)>(store: Store<T>): (r: seq<Keyed<T>>)
    ensures Listing.Distinct(r)
    ensures forall x :: x in r <==> x.id in store && store[x.id] == x.rec
    ensures |r| == |store|
  {
    var r := Entries(store);
    EntriesDistinct(store, r);
    EntriesMembers(store, r);
    r
  }

  lemma EntriesDistinct<T>(store: Store<T>, r: seq<Keyed<T>>)
    requires r == Entries(store)
    ensures Listing.Distinct(r)
  {
    forall i, j | 0 <= i < j < |r|
      ensures r[i] != r[j]
    {
      assert r[i].id < r[j].id;
    }
  }

  lemma EntriesMembers<T(!new)>(store: Store<T>, r: seq<Keyed<T>>)
    requires r == Entries(store)
    ensures forall x :: x in r <==> x.id in store && store[x.id] == x.rec
  {
    forall x | x in r
      ensures x.id in store && store[x.id] == x.rec
    {
      var i :| 0 <= i < |r| && r[i] == x;
    }
    forall x: Keyed<T> | x.id in store && store[x.id] == x.rec
      ensures x in r
    {
      assert x == Keyed(x.id, store[x.id]);
    }
  }

  /** `Count`, then `Find` with ORDER BY, OFFSET and LIMIT, over the table. */
  function ListTable<T(==,!new)>(store: Store<T>, toRow: Keyed<T> -> Row, clauses: seq<Clause>, pg: Listing.Pagination)
    : (r: Result<Listing.ListResult<Keyed<T>>, Listing.ListError>)
    ensures r.Failure? <==> !AllAccepted(clauses)
    ensures r.Failure? ==> r.error == Listing.QueryRejected
    ensures r.Success? ==> r.value.count == |Listing.Selected(Rows(store), toRow, clauses)|
    ensures r.Success? ==> r.value.items == Listing.FindPage(Rows(store), toRow, clauses, pg)
    ensures r.Success? ==> |r.value.items| <= pg.limit
    ensures r.Success? ==> forall x :: x in r.value.items ==> x.id in store && store[x.id] == x.rec && AllHold(clauses, toRow(x))
  {
    var r := Listing.FindMany(Rows(store), toRow, clauses, pg);
    Listing.MatchingCount(Rows(store), toRow, clauses);
    r
  }

  /** A record is selected exactly when it is stored and the clauses hold of it. */
  lemma SelectedRecords<T(!new)>(store: Store<T>, toRow: Keyed<T> -> Row, clauses: seq<Clause>, x: Keyed<T>)
    ensures x in Listing.Selected(Rows(store), toRow, clauses)
            <==> x.id in store && store[x.id] == x.rec && AllHold(clauses, toRow(x))
  {
  }

  /** With no clause, the count is the size of the table. */
  lemma CountWithoutClauses<T(!new)>(store: Store<T>, toRow: Keyed<T> -> Row, pg: Listing.Pagination)
    ensures ListTable(store, toRow, [], pg).Success?
    ensures ListTable(store, toRow, [], pg).value.count == |store|
  {
    var rows := Rows(store);
    assert Listing.Selected(rows, toRow, []) == set x | x in rows;
    Listing.MatchingCount(rows, toRow, []);
    assert Listing.Matching(rows, toRow, []) == rows by {
      MatchingAll(rows, toRow);
    }
  }

  /** With no clause, every row matches, in table order. */
  lemma {:induction false} MatchingAll<T(!new)>(rows: seq<Keyed<T>>, toRow: Keyed<T> -> Row)
    ensures Listing.Matching(rows, toRow, []) == rows
    decreases |rows|
  {
    if |rows| > 0 {
      MatchingAll(rows[1..], toRow);
      assert rows == [rows[0]] + rows[1..];
    }
  }

  /** A page past the last one the count announces is empty. */
  lemma PagesBeyondAreEmpty<T(!new)>(store: Store<T>, toRow: Keyed<T> -> Row, clauses: seq<Clause>, p: Listing.Paging)
    requires p.page >= 1 && p.take >= 1
    requires ListTable(store, toRow, clauses, Listing.ApplyPagination(p)).Success?
    requires p.page > Listing.NumPages(ListTable(store, toRow, clauses, Listing.ApplyPagination(p)).value.count, p.take)
    ensures ListTable(store, toRow, clauses, Listing.ApplyPagination(p)).value.items == []
  {
    var pg := Listing.ApplyPagination(p);
    var rows := Rows(store);
    var r := ListTable(store, toRow, clauses, pg);
    Listing.MatchingCount(rows, toRow, clauses);
    assert r.value.count == |Listing.Matching(rows, toRow, clauses)|;
    Listing.BeyondLastPage(p, r.value.count);
    Listing.PageBeyondMatching(rows, toRow, clauses, pg);
  }
}
