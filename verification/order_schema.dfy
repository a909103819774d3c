/** The Order document: its embedded line items, their defaults and required fields. */
module OrderSchema {
  import opened Wrappers
  import opened Statuses
  import opened Domain

  /** A line item's identity: the order it was created in and its position there. */
  datatype ItemId = ItemId(order: OrderId, position: nat)

  datatype LineItem = LineItem(
    id: ItemId,
    product: ProductId,
    farmer: FarmerId,
    quantity: real,
    price: real,
    status: Status,
    cancelledAt: Option<Time>)

  datatype Order = Order(
    id: OrderId,
    user: UserId,
    items: seq<LineItem>,
    totalPrice: real,
    paymentMethod: string,
    status: Status,
    address: string)

  /** The schema's default payment method, and the only one checkout uses. */
  const CashOnDelivery: string := "COD"

  /** A line item as the schema builds it: quantity defaults to 1, status to Pending,
      and `cancelledAt` is absent until a cancellation stamps it. */
  function NewLineItem(id: ItemId, product: ProductId, farmer: FarmerId, quantity: Option<real>, price: real): (it: LineItem)
    ensures it.id == id && it.product == product && it.farmer == farmer && it.price == price
    ensures quantity.None? ==> it.quantity == 1.0
    ensures quantity.Some? ==> it.quantity == quantity.value
    ensures it.status == Pending && it.cancelledAt == None
  {
    LineItem(id, product, farmer, if quantity.Some? then quantity.value else 1.0, price, Pending, None)
  }

  /** `Order.create`: payment method defaults to COD and status to Pending; a missing
      user or an empty address fails the schema's `required` validation. */
  function NewOrder(id: OrderId, user: UserId, items: seq<LineItem>, totalPrice: real,
                    paymentMethod: Option<string>, status: Option<Status>, address: string): (r: Option<Order>)
    ensures r.None? <==> user == "" || address == ""
    ensures r.Some? ==> r.value.id == id && r.value.user == user && r.value.items == items
    ensures r.Some? ==> r.value.totalPrice == totalPrice && r.value.address == address
    ensures r.Some? && paymentMethod.None? ==> r.value.paymentMethod == CashOnDelivery
    ensures r.Some? && paymentMethod.Some? ==> r.value.paymentMethod == paymentMethod.value
    ensures r.Some? && status.None? ==> r.value.status == Pending
    ensures r.Some? && status.Some? ==> r.value.status == status.value
  {
    if user == "" || address == "" then None
    else
      Some(Order(id, user, items, totalPrice,
                 if paymentMethod.Some? then paymentMethod.value else CashOnDelivery,
                 if status.Some? then status.value else Pending,
                 address))
  }

  /** The items' statuses, in item order. */
  function StatusesOf(items: seq<LineItem>): (ss: seq<Status>)
    ensures |ss| == |items|
    ensures forall i :: 0 <= i < |items| ==> ss[i] == items[i].status
  {
    seq(|items|, i requires 0 <= i < |items| => items[i].status)
  }

  /** Item ids are pairwise distinct. */
  predicate DistinctIds(items: seq<LineItem>)
  {
    forall i, j :: 0 <= i < j < |items| ==> items[i].id != items[j].id
  }

  /** Two item lists that differ at most in status and cancellation stamp. */
  predicate SameExceptStatus(a: seq<LineItem>, b: seq<LineItem>)
  {
    && |a| == |b|
    && forall i :: 0 <= i < |a| ==>
         a[i].(status := b[i].status, cancelledAt := b[i].cancelledAt) == b[i]
  }
}
