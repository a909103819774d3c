/** The farmer side of fulfilment: the per-farmer order view (`getFarmerOrders`)
    and the item status update with order-status recomputation (`updateOrderStatus`). */
module FarmerOrders {
  import opened Wrappers
  import opened Statuses
  import opened Domain
  import opened OrderSchema
  import opened Aggregation
  import opened Lists
  import opened Cancellation

  /** An item that belongs to farmer f. */
  function IsFarmersItem(f: FarmerId): LineItem -> bool
  {
    (it: LineItem) => it.farmer == f
  }

  /** An order cut down to the caller's items. */
  function OwnView(o: Order, f: FarmerId): Order
  {
    o.(items := Filter(o.items, IsFarmersItem(f)))
  }

  /** Some item of the order belongs to farmer f. */
  predicate HasItemOf(o: Order, f: FarmerId)
  {
    exists j :: 0 <= j < |o.items| && o.items[j].farmer == f
  }

  /** `getFarmerOrders`: each order filtered to the caller's items, orders left empty dropped. */
  function FarmerView(orders: seq<Order>, f: FarmerId): (r: seq<Order>)
    ensures |r| <= |orders|
    ensures forall k :: 0 <= k < |r| ==>
              |r[k].items| > 0 && forall j :: 0 <= j < |r[k].items| ==> r[k].items[j].farmer == f
    ensures forall k :: 0 <= k < |orders| && HasItemOf(orders[k], f) ==> OwnView(orders[k], f) in r
    ensures forall k :: 0 <= k < |r| ==> exists m :: 0 <= m < |orders| && r[k] == OwnView(orders[m], f)
    decreases |orders|
  {
    if |orders| == 0 then []
    else
      var v := OwnView(orders[0], f);
      var rest := FarmerView(orders[1..], f);
      var r := if |v.items| > 0 then [v] + rest else rest;
      OwnViewKeepsOwned(orders[0], f);
      ViewStepCovers(orders, f, rest, r);
      ViewStepFromOrders(orders, f, rest, r);
      r
  }

  /** An order's view holds only f's items, and is non-empty when the order has one of them. */
  lemma OwnViewKeepsOwned(o: Order, f: FarmerId)
    ensures forall j :: 0 <= j < |OwnView(o, f).items| ==> OwnView(o, f).items[j].farmer == f
    ensures HasItemOf(o, f) ==> |OwnView(o, f).items| > 0
  {
    var v := OwnView(o, f);
    forall j | 0 <= j < |v.items| ensures v.items[j].farmer == f {
      assert IsFarmersItem(f)(v.items[j]);
    }
    if HasItemOf(o, f) {
      var j :| 0 <= j < |o.items| && o.items[j].farmer == f;
      assert IsFarmersItem(f)(o.items[j]);
    }
  }

  /** One step of the view keeps every order that has an item of f. */
  lemma ViewStepCovers(orders: seq<Order>, f: FarmerId, rest: seq<Order>, r: seq<Order>)
    requires |orders| > 0
    requires forall k :: 0 <= k < |orders[1..]| && HasItemOf(orders[1..][k], f) ==> OwnView(orders[1..][k], f) in rest
    requires HasItemOf(orders[0], f) ==> |OwnView(orders[0], f).items| > 0
    requires r == if |OwnView(orders[0], f).items| > 0 then [OwnView(orders[0], f)] + rest else rest
    ensures forall k :: 0 <= k < |orders| && HasItemOf(orders[k], f) ==> OwnView(orders[k], f) in r
  {
    forall k | 0 <= k < |orders| && HasItemOf(orders[k], f) ensures OwnView(orders[k], f) in r {
      if k > 0 {
        assert orders[k] == orders[1..][k - 1];
      }
    }
  }

  /** One step of the view adds nothing but views of the orders. */
  lemma ViewStepFromOrders(orders: seq<Order>, f: FarmerId, rest: seq<Order>, r: seq<Order>)
    requires |orders| > 0
    requires forall k :: 0 <= k < |rest| ==> exists m :: 0 <= m < |orders[1..]| && rest[k] == OwnView(orders[1..][m], f)
    requires r == if |OwnView(orders[0], f).items| > 0 then [OwnView(orders[0], f)] + rest else rest
    ensures forall k :: 0 <= k < |r| ==> exists m :: 0 <= m < |orders| && r[k] == OwnView(orders[m], f)
  {
    var v := OwnView(orders[0], f);
    forall k | 0 <= k < |r| ensures exists m :: 0 <= m < |orders| && r[k] == OwnView(orders[m], f) {
      if |v.items| > 0 && k == 0 {
        assert r[0] == OwnView(orders[0], f);
      } else {
        var kr := if |v.items| > 0 then k - 1 else k;
        assert r[k] == rest[kr];
        var m :| 0 <= m < |orders[1..]| && rest[kr] == OwnView(orders[1..][m], f);
        assert r[k] == OwnView(orders[m + 1], f);
      }
    }
  }

  /** The view of two lists is the two views in sequence: orders keep their relative order. */
  lemma {:induction false} FarmerViewAppend(a: seq<Order>, b: seq<Order>, f: FarmerId)
    ensures FarmerView(a + b, f) == FarmerView(a, f) + FarmerView(b, f)
    decreases |a|
  {
    if |a| == 0 {
      assert a + b == b;
    } else {
      assert (a + b)[0] == a[0];
      assert (a + b)[1..] == a[1..] + b;
      FarmerViewAppend(a[1..], b, f);
    }
  }

  /** Viewing a view changes nothing. */
  lemma {:induction false} FarmerViewIdempotent(orders: seq<Order>, f: FarmerId)
    ensures FarmerView(FarmerView(orders, f), f) == FarmerView(orders, f)
    decreases |orders|
  {
    if |orders| > 0 {
      var v := OwnView(orders[0], f);
      var rest := FarmerView(orders[1..], f);
      FarmerViewIdempotent(orders[1..], f);
      if |v.items| > 0 {
        FilterIdempotent(orders[0].items, IsFarmersItem(f));
        assert OwnView(v, f) == v;
        FarmerViewAppend([v], rest, f);
        assert FarmerView([v], f) == [v] by {
          assert [v][1..] == [];
        }
      }
    }
  }

  /** The item with the requested id, provided it belongs to farmer f. */
  function IsOwnedItem(id: ItemId, f: FarmerId): LineItem -> bool
  {
    (it: LineItem) => it.id == id && it.farmer == f
  }

  /** The order holds an item with this id that belongs to farmer f. */
  predicate OwnsItem(o: Order, id: ItemId, f: FarmerId)
  {
    exists j :: 0 <= j < |o.items| && o.items[j].id == id && o.items[j].farmer == f
  }

  /** o2 is o with item i set to s (stamped when s is Cancelled) and the order status recomputed. */
  predicate UpdatedAt(o: Order, i: int, s: Status, now: Time, o2: Order)
  {
    && 0 <= i < |o.items|
    && SameExceptStatus(o.items, o2.items)
    && o2.items[i].status == s
    && (s == Cancelled ==> o2.items[i].cancelledAt == Some(now))
    && (s != Cancelled ==> o2.items[i].cancelledAt == o.items[i].cancelledAt)
    && (forall j :: 0 <= j < |o.items| && j != i ==> o2.items[j] == o.items[j])
    && o2.status == Aggregate(StatusesOf(o2.items))
    && o2 == o.(items := o2.items, status := o2.status)
  }

  /** `updateOrderStatus`: validate the status, find the caller's item, set it, recompute. */
  function UpdateOrderStatus(orders: map<OrderId, Order>, orderId: OrderId, itemId: ItemId,
                             statusText: string, f: FarmerId, now: Time): (r: Result<Order, Error>)
    ensures r == Err(InvalidStatus) <==> Parse(statusText).None?
    ensures r == Err(OrderNotFound) <==> Parse(statusText).Some? && orderId !in orders
    ensures r == Err(NotAuthorizedForItem) <==>
              Parse(statusText).Some? && orderId in orders && !OwnsItem(orders[orderId], itemId, f)
    ensures r.Ok? <==> Parse(statusText).Some? && orderId in orders && OwnsItem(orders[orderId], itemId, f)
    ensures r.Ok? ==> var o := orders[orderId]; var i := FirstIndex(o.items, IsOwnedItem(itemId, f));
      && 0 <= i && o.items[i].id == itemId && o.items[i].farmer == f
      && UpdatedAt(o, i, Parse(statusText).value, now, r.value)
  {
    match Parse(statusText)
    case None => Err(InvalidStatus)
    case Some(s) =>
      if orderId !in orders then Err(OrderNotFound)
      else
        var o := orders[orderId];
        var i := FirstIndex(o.items, IsOwnedItem(itemId, f));
        if i == -1 then
          assert !OwnsItem(o, itemId, f) by {
            forall j | 0 <= j < |o.items| ensures !(o.items[j].id == itemId && o.items[j].farmer == f) {
              assert !IsOwnedItem(itemId, f)(o.items[j]);
            }
          }
          Err(NotAuthorizedForItem)
        else
          assert IsOwnedItem(itemId, f)(o.items[i]);
          var item := o.items[i].(status := s,
                                  cancelledAt := if s == Cancelled then Some(now) else o.items[i].cancelledAt);
          var items := o.items[i := item];
          Ok(o.(items := items, status := Aggregate(StatusesOf(items))))
  }

  /** Replaying an accepted update against the order it produced yields the same order. */
  lemma UpdateReplayIsIdempotent(orders: map<OrderId, Order>, orderId: OrderId, itemId: ItemId,
                                 statusText: string, f: FarmerId, now: Time)
    requires UpdateOrderStatus(orders, orderId, itemId, statusText, f, now).Ok?
    ensures var o2 := UpdateOrderStatus(orders, orderId, itemId, statusText, f, now).value;
      UpdateOrderStatus(orders[orderId := o2], orderId, itemId, statusText, f, now) == Ok(o2)
  {
    var o := orders[orderId];
    var o2 := UpdateOrderStatus(orders, orderId, itemId, statusText, f, now).value;
    var i := FirstIndex(o.items, IsOwnedItem(itemId, f));
    var i2 := FirstIndex(o2.items, IsOwnedItem(itemId, f));
    assert forall j :: 0 <= j < |o.items| ==> (IsOwnedItem(itemId, f)(o2.items[j]) <==> IsOwnedItem(itemId, f)(o.items[j]));
    assert i2 == i;
    var again := UpdateOrderStatus(orders[orderId := o2], orderId, itemId, statusText, f, now).value;
    assert again.items == o2.items;
  }

  /** A replay is a new request with its own clock. Whenever it runs, it is accepted, keeps
      every item status and the order status, and changes nothing but the updated item's
      `cancelledAt`, which a replayed Cancelled update stamps afresh. Any other status
      replays to the very same order. */
  lemma UpdateReplayAtAnyTime(orders: map<OrderId, Order>, orderId: OrderId, itemId: ItemId,
                              statusText: string, f: FarmerId, now: Time, later: Time)
    requires UpdateOrderStatus(orders, orderId, itemId, statusText, f, now).Ok?
    ensures var o2 := UpdateOrderStatus(orders, orderId, itemId, statusText, f, now).value;
            var r := UpdateOrderStatus(orders[orderId := o2], orderId, itemId, statusText, f, later);
            var i := FirstIndex(orders[orderId].items, IsOwnedItem(itemId, f));
      && r.Ok? && 0 <= i < |o2.items| && |r.value.items| == |o2.items|
      && StatusesOf(r.value.items) == StatusesOf(o2.items)
      && r.value.status == o2.status
      && (forall j :: 0 <= j < |o2.items| && j != i ==> r.value.items[j] == o2.items[j])
      && r.value.items[i] == o2.items[i].(cancelledAt := r.value.items[i].cancelledAt)
      && r.value == o2.(items := r.value.items)
      && (Parse(statusText).value == Cancelled ==> r.value.items[i].cancelledAt == Some(later))
      && (Parse(statusText).value != Cancelled ==> r.value == o2)
  {
    var o := orders[orderId];
    var o2 := UpdateOrderStatus(orders, orderId, itemId, statusText, f, now).value;
    var i := FirstIndex(o.items, IsOwnedItem(itemId, f));
    var i2 := FirstIndex(o2.items, IsOwnedItem(itemId, f));
    assert forall j :: 0 <= j < |o.items| ==> (IsOwnedItem(itemId, f)(o2.items[j]) <==> IsOwnedItem(itemId, f)(o.items[j]));
    assert i2 == i;
    var again := UpdateOrderStatus(orders[orderId := o2], orderId, itemId, statusText, f, later).value;
    assert StatusesOf(again.items) == StatusesOf(o2.items);
  }

  /** The server never reads the item's current status: any of the five statuses is accepted
      for an item the caller owns, whatever its status now, and the item takes it while the
      caller keeps an item in the order. */
  lemma UpdateAcceptsAnyStatus(orders: map<OrderId, Order>, orderId: OrderId, itemId: ItemId,
                               s: Status, f: FarmerId, now: Time)
    requires orderId in orders && OwnsItem(orders[orderId], itemId, f)
    ensures var r := UpdateOrderStatus(orders, orderId, itemId, Name(s), f, now);
            var i := FirstIndex(orders[orderId].items, IsOwnedItem(itemId, f));
      && r.Ok?
      && 0 <= i < |r.value.items| && r.value.items[i].status == s
      && HasItemOf(r.value, f)
  {
    ParseName(s);
    var r := UpdateOrderStatus(orders, orderId, itemId, Name(s), f, now);
    var i := FirstIndex(orders[orderId].items, IsOwnedItem(itemId, f));
    assert r.value.items[i].farmer == f;
  }

  /** The server checks no lifecycle: a farmer may move a delivered item back to Pending. */
  lemma DeliveredItemCanBeReopened()
    ensures var it := LineItem(ItemId("O", 0), "A", "F1", 1.0, 10.0, Delivered, None);
            var o := Order("O", "U", [it], 10.0, CashOnDelivery, Delivered, "Road 1");
            var r := UpdateOrderStatus(map["O" := o], "O", ItemId("O", 0), "Pending", "F1", 5);
      && r.Ok? && r.value.items[0].status == Pending && r.value.status == Pending
      && !Transition(Delivered, Pending)
  {
    var it := LineItem(ItemId("O", 0), "A", "F1", 1.0, 10.0, Delivered, None);
    assert IsOwnedItem(ItemId("O", 0), "F1")(it);
  }

  /** A status update and a cancellation change item statuses and stamps only: the order's
      items, prices and total stay as checkout made them. */
  lemma UpdatesKeepTheRecord(orders: map<OrderId, Order>, orderId: OrderId, itemId: ItemId,
                             statusText: string, f: FarmerId, now: Time)
    ensures var r := UpdateOrderStatus(orders, orderId, itemId, statusText, f, now);
      r.Ok? ==> && r.value.totalPrice == orders[orderId].totalPrice
                && r.value.address == orders[orderId].address
                && SameExceptStatus(orders[orderId].items, r.value.items)
    ensures var r := CancelOrderItem(orders, orderId, itemId, now);
      r.Ok? ==> && r.value.totalPrice == orders[orderId].totalPrice
                && r.value.address == orders[orderId].address
                && SameExceptStatus(orders[orderId].items, r.value.items)
  {
  }

  /** The two-farmer scenario: F1 accepts then ships its item while F2's stays Pending (order
      Accepted, then Shipped); the buyer then cancels F2's item and the order stays Shipped. */
  lemma TwoFarmerFulfilment()
    ensures var o := ScenarioOrder(Pending, Pending, Pending);
            var r1 := UpdateOrderStatus(map["O" := o], "O", ItemId("O", 0), "Accepted", "F1", 1);
            var r2 := UpdateOrderStatus(map["O" := r1.value], "O", ItemId("O", 0), "Shipped", "F1", 2);
            var r3 := CancelOrderItem(map["O" := r2.value], "O", ItemId("O", 1), 3);
      && r1.Ok? && r1.value.status == Accepted
      && r2.Ok? && r2.value.status == Shipped && r2.value.items[1].status == Pending
      && r3.Ok? && r3.value.status == Shipped
      && r3.value.items[1].status == Cancelled && r3.value.items[1].cancelledAt == Some(3)
      && r3.value.totalPrice == 130.0
  {
    var o := ScenarioOrder(Pending, Pending, Pending);
    ScenarioStep(Pending, Pending, Accepted, 1);
    assert UpdateOrderStatus(map["O" := o], "O", ItemId("O", 0), "Accepted", "F1", 1)
        == Ok(ScenarioOrder(Accepted, Pending, Accepted));
    ScenarioStep(Accepted, Accepted, Shipped, 2);
    assert UpdateOrderStatus(map["O" := ScenarioOrder(Accepted, Pending, Accepted)], "O", ItemId("O", 0), "Shipped", "F1", 2)
        == Ok(ScenarioOrder(Shipped, Pending, Shipped));
    var o2 := ScenarioOrder(Shipped, Pending, Shipped);
    assert HasId(ItemId("O", 1))(o2.items[1]);
    assert !HasId(ItemId("O", 1))(o2.items[0]);
    var r3 := CancelOrderItem(map["O" := o2], "O", ItemId("O", 1), 3);
    assert StatusesOf(r3.value.items)[0] == Shipped;
  }

  /** The scenario's order: F1's item (2 at 50) in status x, F2's item (1 at 30) in status y. */
  function ScenarioOrder(x: Status, y: Status, status: Status): Order
  {
    Order("O", "U", [LineItem(ItemId("O", 0), "A", "F1", 2.0, 50.0, x, None),
                     LineItem(ItemId("O", 1), "B", "F2", 1.0, 30.0, y, None)],
          130.0, CashOnDelivery, status, "Road 1")
  }

  /** F1 moving its item from x to a forward status s while F2's item stays Pending. */
  lemma ScenarioStep(x: Status, status: Status, s: Status, now: Time)
    requires s in {Accepted, Shipped}
    ensures UpdateOrderStatus(map["O" := ScenarioOrder(x, Pending, status)], "O", ItemId("O", 0), Name(s), "F1", now)
         == Ok(ScenarioOrder(s, Pending, s))
  {
    var o := ScenarioOrder(x, Pending, status);
    assert IsOwnedItem(ItemId("O", 0), "F1")(o.items[0]);
    var items := [o.items[0].(status := s), o.items[1]];
    assert StatusesOf(items)[0] == s;
    assert StatusesOf(items)[1] == Pending;
    assert o.items[FirstIndex(o.items, IsOwnedItem(ItemId("O", 0), "F1")) := o.items[0].(status := s)] == items;
  }
}
