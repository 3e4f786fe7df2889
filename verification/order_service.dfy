/** `orderService`: the order list query and the order CRUD operations over
    the `orders` table. The table has no unique column besides the key. */
module OrderService {
  import opened Wrappers
  import opened Query
  import opened KeyedStore
  import NumberFilter
  import OrderFilter
  import Listing
  import TableQuery

  /** `OrderStatus`; the column default is `unpaid`. */
  datatype OrderStatus = Unpaid | Paid | Canceled

  function StatusName(s: OrderStatus): string {
    match s
    case Unpaid => "unpaid"
    case Paid => "paid"
    case Canceled => "canceled"
  }

  /** An `orders` record without its `ID`; `Amount` is kept as an integer. */
  datatype Order = Order(userId: nat, amount: int, status: OrderStatus)

  type Orders = Store<Order>

  function OrderRow(o: Keyed<Order>): (row: Row)
    ensures row.Keys == {"id", "user_id", "amount", "status"}
    ensures row["user_id"] == Num(o.rec.userId) && row["amount"] == Num(o.rec.amount)
  {
    map["id" := Num(o.id), "user_id" := Num(o.rec.userId), "amount" := Num(o.rec.amount),
        "status" := Str(StatusName(o.rec.status))]
  }

  /** `FindManyOrders`: defaults, the `user_id` and `amount` clauses, the
      count, then the page. */
  function FindManyOrders(store: Orders, filter: OrderFilter.OrderFilterInput)
    : (r: Result<Listing.ListResult<Keyed<Order>>, Listing.ListError>)
    ensures r.Failure? <==> !AllAccepted(OrderFilter.ApplyFilter(OrderFilter.WithDefaults(filter)))
    ensures r.Failure? ==> r.error == Listing.QueryRejected
    ensures r.Success? ==> |r.value.items| <= OrderFilter.WithDefaults(filter).paging.take
    ensures r.Success? ==> forall x :: x in r.value.items ==> x.id in store && store[x.id] == x.rec
  {
    var f := OrderFilter.WithDefaults(filter);
    TableQuery.ListTable(store, OrderRow, OrderFilter.ApplyFilter(f), OrderFilter.ApplyPagination(f))
  }

  /** What the filter asks of an order, stated on its two numeric fields. */
  predicate OrderMeets(f: OrderFilter.OrderFilterInput, o: Keyed<Order>) {
    NumberFilter.FieldMeets("user_id", f.userId, OrderRow(o)) && NumberFilter.FieldMeets("amount", f.amount, OrderRow(o))
  }

  function Meeting(store: Orders, f: OrderFilter.OrderFilterInput): set<Keyed<Order>> {
    set x | x in TableQuery.Rows(store) && OrderMeets(f, x)
  }

  /** The count is the number of stored orders meeting the filter, whatever
      the page, and every listed order meets it. */
  lemma FindManyOrdersMeaning(store: Orders, filter: OrderFilter.OrderFilterInput)
    requires FindManyOrders(store, filter).Success?
    ensures var f := OrderFilter.WithDefaults(filter);
            var r := FindManyOrders(store, filter).value;
            && r.count == |Meeting(store, f)|
            && forall x :: x in r.items ==> OrderMeets(f, x)
  {
    var f := OrderFilter.WithDefaults(filter);
    SelectedAreMeeting(store, f);
    forall x | x in FindManyOrders(store, filter).value.items
      ensures OrderMeets(f, x)
    {
      OrderFilter.ApplyFilterMeaning(f, OrderRow(x));
    }
  }

  lemma SelectedAreMeeting(store: Orders, f: OrderFilter.OrderFilterInput)
    ensures Listing.Selected(TableQuery.Rows(store), OrderRow, OrderFilter.ApplyFilter(f)) == Meeting(store, f)
  {
    var rows := TableQuery.Rows(store);
    var clauses := OrderFilter.ApplyFilter(f);
    var sel := Listing.Selected(rows, OrderRow, clauses);
    var meet := Meeting(store, f);
    forall x | x in rows
      ensures AllHold(clauses, OrderRow(x)) <==> OrderMeets(f, x)
    {
      OrderFilter.ApplyFilterMeaning(f, OrderRow(x));
    }
    assert sel <= meet;
    assert meet <= sel;
  }

  /** The part of `OrderCreateInput` the model keeps: the user id. */
  datatype OrderCreateInput = OrderCreateInput(userId: nat)

  /** `CreateOrder`: the copied user id, a zero amount and the default
      status. No unique column can refuse it; the `user_id` foreign key
      is not part of this model. */
  function CreateOrder(store: Orders, input: OrderCreateInput): (s: Step<Order>)
    ensures s.result.Success?
    ensures s.result.value.id !in store && s.store == store[s.result.value.id := s.result.value.rec]
    ensures s.result.value.rec == Order(input.userId, 0, Unpaid)
  {
    Insert(store, Order(input.userId, 0, Unpaid))
  }
}
