/** Buyer cancellation of one line item (`cancelOrderItem`). Unlike a farmer's
    update it does not recompute the order status: the order becomes Cancelled
    when every item is, and otherwise keeps the status it had. */
module Cancellation {
  import opened Wrappers
  import opened Statuses
  import opened Domain
  import opened OrderSchema
  import opened Aggregation
  import opened Lists

  /** The item whose id is the requested one. */
  function HasId(id: ItemId): LineItem -> bool
  {
    (it: LineItem) => it.id == id
  }

  /** The statuses a buyer may still cancel from: anything but Shipped, Delivered, Cancelled. */
  predicate Cancellable(s: Status)
  {
    s !in {Shipped, Delivered, Cancelled}
  }

  /** o2 is o with item i cancelled at `now`, and the order status settled the cancel way. */
  predicate CancelledAt(o: Order, i: int, now: Time, o2: Order)
  {
    && 0 <= i < |o.items|
    && SameExceptStatus(o.items, o2.items)
    && o2.items[i].status == Cancelled && o2.items[i].cancelledAt == Some(now)
    && (forall j :: 0 <= j < |o.items| && j != i ==> o2.items[j] == o.items[j])
    && (AllAre(StatusesOf(o2.items), Cancelled) ==> o2.status == Cancelled)
    && (!AllAre(StatusesOf(o2.items), Cancelled) ==> o2.status == o.status)
    && o2 == o.(items := o2.items, status := o2.status)
  }

  /** `cancelOrderItem(orderId, itemId)`, stamping the cancellation with `now`. */
  function CancelOrderItem(orders: map<OrderId, Order>, orderId: OrderId, itemId: ItemId, now: Time): (r: Result<Order, Error>)
    ensures r == Err(OrderNotFound) <==> orderId !in orders
    ensures orderId in orders ==>
      (r == Err(ItemNotFound) <==> forall j :: 0 <= j < |orders[orderId].items| ==> orders[orderId].items[j].id != itemId)
    ensures r.Err? && r.error.CannotCancel? ==> !Cancellable(r.error.current)
    ensures orderId in orders ==> var o := orders[orderId]; var i := FirstIndex(o.items, HasId(itemId));
      0 <= i ==>
        && (r.Ok? <==> Cancellable(o.items[i].status))
        && (!Cancellable(o.items[i].status) ==> r == Err(CannotCancel(o.items[i].status)))
    ensures r.Ok? ==> orderId in orders
    ensures r.Ok? ==> var o := orders[orderId]; var i := FirstIndex(o.items, HasId(itemId));
      && 0 <= i && o.items[i].id == itemId && Cancellable(o.items[i].status)
      && CancelledAt(o, i, now, r.value)
  {
    if orderId !in orders then Err(OrderNotFound)
    else
      var o := orders[orderId];
      var i := FirstIndex(o.items, HasId(itemId));
      if i == -1 then Err(ItemNotFound)
      else if !Cancellable(o.items[i].status) then Err(CannotCancel(o.items[i].status))
      else
        var items := o.items[i := o.items[i].(status := Cancelled, cancelledAt := Some(now))];
        var status := if AllAre(StatusesOf(items), Cancelled) then Cancelled else o.status;
        Ok(o.(items := items, status := status))
  }

  /** On an existing item, the buyer's cancel succeeds exactly where the intended lifecycle
      allows a cancel: from Pending or Accepted. */
  lemma CancelFollowsLifecycle(orders: map<OrderId, Order>, orderId: OrderId, i: nat, now: Time)
    requires orderId in orders && i < |orders[orderId].items|
    requires DistinctIds(orders[orderId].items)
    ensures var it := orders[orderId].items[i];
      CancelOrderItem(orders, orderId, it.id, now).Ok? <==> Transition(it.status, Cancelled)
  {
    var o := orders[orderId];
    var k := FirstIndex(o.items, HasId(o.items[i].id));
    assert HasId(o.items[i].id)(o.items[i]);
    assert k == i;
  }

  /** The cancel path leaves a stale order status: with items Accepted and Pending, cancelling
      the accepted one leaves the order Accepted, where the farmer's recomputation gives Pending. */
  lemma CancelDoesNotRecompute()
    ensures var first := LineItem(ItemId("O", 0), "A", "F1", 1.0, 10.0, Accepted, None);
            var second := LineItem(ItemId("O", 1), "B", "F2", 1.0, 20.0, Pending, None);
            var o := Order("O", "U", [first, second], 30.0, CashOnDelivery, Accepted, "Road 1");
            var r := CancelOrderItem(map["O" := o], "O", ItemId("O", 0), 7);
      && r.Ok?
      && r.value.status == Accepted
      && Aggregate(StatusesOf(r.value.items)) == Pending
  {
    var first := LineItem(ItemId("O", 0), "A", "F1", 1.0, 10.0, Accepted, None);
    var second := LineItem(ItemId("O", 1), "B", "F2", 1.0, 20.0, Pending, None);
    var o := Order("O", "U", [first, second], 30.0, CashOnDelivery, Accepted, "Road 1");
    assert HasId(ItemId("O", 0))(o.items[0]);
    var r := CancelOrderItem(map["O" := o], "O", ItemId("O", 0), 7);
    assert r.value.items[1].status == Pending;
    assert StatusesOf(r.value.items)[1] == Pending;
  }
}
