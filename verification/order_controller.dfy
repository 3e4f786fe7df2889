/** `orderController`: the order endpoints' parameter handling and status
    mapping. Finding, updating and deleting one order are `Http.FindById`,
    `Http.UpdateById` and `Http.DeleteById` with the entity name "order". */
module OrderController {
  import opened Wrappers
  import opened Query
  import opened KeyedStore
  import opened Http
  import OrderFilter
  import OrderService
  import Listing
  import TableQuery

  /** `FindManyOrders`. `query` is the bound query string, `None` when
      binding fails. */
  function FindManyOrders(store: OrderService.Orders, query: Option<OrderFilter.OrderFilterInput>)
    : (r: Reply<seq<Keyed<OrderService.Order>>>)
    ensures r.Reply?
    ensures query.None? ==> r == InvalidParams()
    ensures query.Some? ==>
              var clauses := OrderFilter.ApplyFilter(OrderFilter.WithDefaults(query.value));
              && (r == ServerError() <==> !AllAccepted(clauses))
              && (r.status == StatusOK <==> AllAccepted(clauses))
    ensures r.status == StatusOK ==>
              var f := OrderFilter.WithDefaults(query.value);
              && r.data.Some? && r.meta.Some?
              && r.meta.value.numItems == |Listing.Selected(TableQuery.Rows(store), OrderService.OrderRow, OrderFilter.ApplyFilter(f))|
              && r.meta.value.page == f.paging.page && r.meta.value.take == f.paging.take
              && r.meta.value.numPages * r.meta.value.take >= r.meta.value.numItems
              && (r.meta.value.numPages > 0 ==> (r.meta.value.numPages - 1) * r.meta.value.take < r.meta.value.numItems)
              && |r.data.value| <= f.paging.take
              && forall x :: x in r.data.value ==> x.id in store && store[x.id] == x.rec
  {
    match query
    case None => InvalidParams()
    case Some(filter) =>
      var f := OrderFilter.WithDefaults(filter);
      assert OrderFilter.ApplyPagination(f) == Listing.ApplyPagination(f.paging);
      ListReply(OrderService.FindManyOrders(store, filter), f.paging)
  }

  /** `numItems` is the number of stored orders meeting the filter, every
      listed order meets it, and a page past `numPages` lists none. */
  lemma FindManyOrdersMeta(store: OrderService.Orders, query: Option<OrderFilter.OrderFilterInput>)
    requires FindManyOrders(store, query).status == StatusOK
    ensures var r := FindManyOrders(store, query);
            var f := OrderFilter.WithDefaults(query.value);
            && r.meta.value.numItems == |OrderService.Meeting(store, f)|
            && (forall x :: x in r.data.value ==> OrderService.OrderMeets(f, x))
            && (r.meta.value.page > r.meta.value.numPages ==> r.data.value == [])
  {
    var f := OrderFilter.WithDefaults(query.value);
    OrderService.FindManyOrdersMeaning(store, query.value);
    var r := FindManyOrders(store, query);
    if r.meta.value.page > r.meta.value.numPages {
      TableQuery.PagesBeyondAreEmpty(store, OrderService.OrderRow, OrderFilter.ApplyFilter(f), f.paging);
    }
  }

  /** `CreateOrder`: bind the body, create. The model has no failure after
      binding; the database's `user_id` foreign key is not part of it. */
  function CreateOrder(store: OrderService.Orders, body: Option<OrderService.OrderCreateInput>)
    : (x: Exchange<OrderService.Order, Keyed<OrderService.Order>>)
    ensures x.reply.Reply?
    ensures body.None? <==> x == Exchange(store, InvalidParams())
    ensures body.Some? ==>
              && x.reply.status == StatusCreated && x.reply.message == Text("Order created successfully")
              && x.reply.data.Some? && x.reply.data.value.id !in store
              && x.reply.data.value.rec == OrderService.Order(body.value.userId, 0, OrderService.Unpaid)
              && x.store == store[x.reply.data.value.id := x.reply.data.value.rec]
  {
    match body
    case None => Exchange(store, InvalidParams())
    case Some(input) => StepReply(OrderService.CreateOrder(store, input), StatusCreated, "Order created successfully")
  }
}
