/** Checkout (`placeOrder`): turn a buyer's cart into a cash-on-delivery order,
    decrementing stock entry by entry. Not atomic: a failure part-way through
    keeps the decrements already made. */
module Checkout {
  import opened Wrappers
  import opened Statuses
  import opened Domain
  import opened OrderSchema
  import opened Products
  import opened Carts

  /** The documents a checkout reads and writes. */
  datatype Store = Store(carts: CartStore, catalog: Catalog, orders: map<OrderId, Order>)

  /** A request's effect: the store afterwards, and the reply. */
  datatype Response = Response(store: Store, reply: Result<Order, Error>)

  /** What the loop snapshots of one cart entry. */
  datatype Line = Line(product: ProductId, farmer: FarmerId, quantity: real, price: real)

  /** The state of the stock loop when it stops: the catalog, the lines built, and why it stopped early. */
  datatype Walk = Walk(catalog: Catalog, lines: seq<Line>, failure: Option<Error>)

  /** b differs from a at most in stock levels. */
  predicate SameButStock(a: Catalog, b: Catalog)
  {
    && a.Keys == b.Keys
    && forall p :: p in a ==> b[p] == a[p].(quantity := b[p].quantity)
  }

  /** The line a cart entry is snapshotted as, at the catalog's current farmer and price. */
  function Snapshot(catalog: Catalog, e: CartEntry): Line
    requires e.product in catalog
  {
    Line(e.product, catalog[e.product].farmer, e.quantity, catalog[e.product].price)
  }

  /** The error the loop answers with for an entry it cannot serve: a product that no longer
      exists makes `product.quantity` throw (500); otherwise not enough stock (400). */
  function Shortfall(catalog: Catalog, e: CartEntry): Error
  {
    if e.product !in catalog then ServerError
    else InsufficientStock(catalog[e.product].name, catalog[e.product].quantity)
  }

  /** The checkout loop over the cart entries, in stored order: for each entry check the stock,
      decrement it and snapshot the line; stop at the first entry that cannot be served. */
  function TakeStock(catalog: Catalog, entries: seq<CartEntry>): (w: Walk)
    ensures SameButStock(catalog, w.catalog)
    ensures w.failure.None? ==> |w.lines| == |entries|
    ensures w.failure.None? ==> forall k :: 0 <= k < |entries| ==>
              entries[k].product in catalog && w.lines[k] == Snapshot(catalog, entries[k])
    ensures w.failure.Some? ==> w.failure.value == ServerError || w.failure.value.InsufficientStock?
    decreases |entries|
  {
    if |entries| == 0 then Walk(catalog, [], None)
    else
      var e := entries[0];
      if e.product !in catalog || e.quantity > catalog[e.product].quantity then
        Walk(catalog, [], Some(Shortfall(catalog, e)))
      else
        var next := Decrement(catalog, e);
        var rest := TakeStock(next, entries[1..]);
        var w := Walk(rest.catalog, [Snapshot(catalog, e)] + rest.lines, rest.failure);
        DecrementChangesStockOnly(catalog, e);
        SameButStockTrans(catalog, next, rest.catalog);
        assert w.failure.None? ==> forall k :: 0 <= k < |entries| ==>
                 entries[k].product in catalog && w.lines[k] == Snapshot(catalog, entries[k]) by {
          if w.failure.None? {
            forall k | 0 <= k < |entries|
              ensures entries[k].product in catalog && w.lines[k] == Snapshot(catalog, entries[k])
            {
              if k > 0 {
                assert entries[k] == entries[1..][k - 1];
                assert w.lines[k] == rest.lines[k - 1];
                SnapshotIgnoresStock(catalog, next, entries[k]);
              }
            }
          }
        }
        w
  }

  /** A decrement changes the stock level only. */
  lemma DecrementChangesStockOnly(a: Catalog, e: CartEntry)
    requires e.product in a
    ensures SameButStock(a, Decrement(a, e))
  {
  }

  /** Two stock-only changes in a row are a stock-only change. */
  lemma SameButStockTrans(a: Catalog, b: Catalog, c: Catalog)
    requires SameButStock(a, b) && SameButStock(b, c)
    ensures SameButStock(a, c)
  {
    forall p | p in a ensures c[p] == a[p].(quantity := c[p].quantity) {
      assert b[p] == a[p].(quantity := b[p].quantity);
    }
  }

  /** A snapshot reads the farmer and price, which a stock change leaves alone. */
  lemma SnapshotIgnoresStock(a: Catalog, b: Catalog, e: CartEntry)
    requires SameButStock(a, b) && e.product in b
    ensures e.product in a && Snapshot(b, e) == Snapshot(a, e)
  {
    assert b[e.product] == a[e.product].(quantity := b[e.product].quantity);
  }

  /** Lower a catalog product's stock by the quantity of a cart entry. */
  function Decrement(catalog: Catalog, e: CartEntry): Catalog
    requires e.product in catalog
  {
    catalog[e.product := catalog[e.product].(quantity := catalog[e.product].quantity - e.quantity)]
  }

  /** The loop touches no product outside the cart. */
  lemma {:induction false} TakeStockUntouched(catalog: Catalog, entries: seq<CartEntry>, p: ProductId)
    requires p in catalog && !Holds(entries, p)
    ensures TakeStock(catalog, entries).catalog[p] == catalog[p]
    decreases |entries|
  {
    if |entries| > 0 && Fits(catalog, entries[0]) {
      assert !Holds(entries[1..], p) by {
        forall j | 0 <= j < |entries[1..]| ensures entries[1..][j].product != p {
          assert entries[1..][j] == entries[j + 1];
        }
      }
      TakeStockUntouched(Decrement(catalog, entries[0]), entries[1..], p);
    }
  }

  /** The loop never drives a stock level it changed below zero. */
  lemma {:induction false} TakeStockNonNegative(catalog: Catalog, entries: seq<CartEntry>, p: ProductId)
    requires p in catalog
    ensures var after := TakeStock(catalog, entries).catalog;
      after[p] != catalog[p] ==> after[p].quantity >= 0.0
    decreases |entries|
  {
    if |entries| > 0 && Fits(catalog, entries[0]) {
      TakeStockNonNegative(Decrement(catalog, entries[0]), entries[1..], p);
    }
  }

  /** Entry e can be served from the catalog as it stands. */
  predicate Fits(catalog: Catalog, e: CartEntry)
  {
    e.product in catalog && e.quantity <= catalog[e.product].quantity
  }

  /** The position of the first entry the catalog cannot serve, or |entries| when all fit. */
  function FirstMisfit(catalog: Catalog, entries: seq<CartEntry>): (k: nat)
    ensures k <= |entries|
    ensures forall j :: 0 <= j < k ==> Fits(catalog, entries[j])
    ensures k < |entries| ==> !Fits(catalog, entries[k])
    decreases |entries|
  {
    if |entries| == 0 then 0
    else if !Fits(catalog, entries[0]) then 0
    else 1 + FirstMisfit(catalog, entries[1..])
  }

  /** Two catalogs that agree on the products of the entries agree on where the first misfit is. */
  lemma {:induction false} FirstMisfitAgrees(a: Catalog, b: Catalog, entries: seq<CartEntry>)
    requires forall j :: 0 <= j < |entries| ==>
               (entries[j].product in a <==> entries[j].product in b)
               && (entries[j].product in a ==> a[entries[j].product] == b[entries[j].product])
    ensures FirstMisfit(a, entries) == FirstMisfit(b, entries)
    decreases |entries|
  {
    if |entries| > 0 {
      assert forall j :: 0 <= j < |entries[1..]| ==> entries[1..][j] == entries[j + 1];
      FirstMisfitAgrees(a, b, entries[1..]);
    }
  }

  /** With one entry per product, the loop stops exactly at the first misfit, reports it,
      and leaves every entry before it decremented and every entry from it on untouched. */
  lemma {:induction false} TakeStockStopsAtFirstMisfit(catalog: Catalog, entries: seq<CartEntry>)
    requires UniqueProducts(entries)
    ensures var w := TakeStock(catalog, entries); var k := FirstMisfit(catalog, entries);
      && (w.failure.None? <==> k == |entries|)
      && (k < |entries| ==> w.failure == Some(Shortfall(catalog, entries[k])))
      && forall j :: 0 <= j < |entries| && entries[j].product in catalog ==>
           w.catalog[entries[j].product].quantity
             == catalog[entries[j].product].quantity - (if j < k then entries[j].quantity else 0.0)
    decreases |entries|
  {
    if |entries| > 0 && Fits(catalog, entries[0]) {
      var e := entries[0];
      var tail := entries[1..];
      var next := Decrement(catalog, e);
      assert UniqueProducts(tail) by {
        forall i, j | 0 <= i < j < |tail| ensures tail[i].product != tail[j].product {
          assert tail[i] == entries[i + 1] && tail[j] == entries[j + 1];
        }
      }
      assert !Holds(tail, e.product) by {
        forall j | 0 <= j < |tail| ensures tail[j].product != e.product {
          assert tail[j] == entries[j + 1];
        }
      }
      FirstMisfitAgrees(next, catalog, tail);
      TakeStockStopsAtFirstMisfit(next, tail);
      TakeStockUntouched(next, tail, e.product);
      var w := TakeStock(catalog, entries);
      var k := FirstMisfit(catalog, entries);
      assert w == Walk(TakeStock(next, tail).catalog, [Snapshot(catalog, e)] + TakeStock(next, tail).lines,
                       TakeStock(next, tail).failure);
      forall j | 0 <= j < |entries| && entries[j].product in catalog
        ensures w.catalog[entries[j].product].quantity
             == catalog[entries[j].product].quantity - (if j < k then entries[j].quantity else 0.0)
      {
        if j > 0 {
          assert entries[j] == tail[j - 1];
        }
      }
    }
  }

  /** The line items of the new order: ids by position, schema defaults for the rest. */
  function LineItems(orderId: OrderId, lines: seq<Line>): (items: seq<LineItem>)
    ensures |items| == |lines|
    ensures forall k :: 0 <= k < |lines| ==>
              items[k] == NewLineItem(ItemId(orderId, k), lines[k].product, lines[k].farmer,
                                      Some(lines[k].quantity), lines[k].price)
  {
    seq(|lines|, k requires 0 <= k < |lines| =>
      NewLineItem(ItemId(orderId, k), lines[k].product, lines[k].farmer, Some(lines[k].quantity), lines[k].price))
  }

  /** The order total: the sum over the items of price times quantity. */
  function Total(items: seq<LineItem>): real
    decreases |items|
  {
    if |items| == 0 then 0.0
    else Total(items[..|items| - 1]) + items[|items| - 1].price * items[|items| - 1].quantity
  }

  /** The value of a cart at the catalog's current prices. */
  function CartValue(catalog: Catalog, entries: seq<CartEntry>): real
    requires forall k :: 0 <= k < |entries| ==> entries[k].product in catalog
    decreases |entries|
  {
    if |entries| == 0 then 0.0
    else
      var last := entries[|entries| - 1];
      CartValue(catalog, entries[..|entries| - 1]) + catalog[last.product].price * last.quantity
  }

  /** Items that copy each entry's quantity and its product's price total to the cart's value. */
  lemma {:induction false} TotalIsCartValue(items: seq<LineItem>, catalog: Catalog, entries: seq<CartEntry>)
    requires |items| == |entries|
    requires forall k :: 0 <= k < |entries| ==>
               entries[k].product in catalog
               && items[k].price == catalog[entries[k].product].price
               && items[k].quantity == entries[k].quantity
    ensures Total(items) == CartValue(catalog, entries)
    decreases |items|
  {
    if |items| > 0 {
      var n := |items| - 1;
      TotalIsCartValue(items[..n], catalog, entries[..n]);
    }
  }

  /** What a successful checkout leaves behind, stated against the store it started from. */
  predicate Placed(st: Store, user: UserId, address: string, orderId: OrderId, after: Store, o: Order)
  {
    && user in st.carts
    && var cart := st.carts[user];
    && |cart| > 0
    && (forall k :: 0 <= k < |cart| ==> cart[k].product in st.catalog)
    && o.id == orderId && o.user == user && o.address == address
    && o.status == Pending && o.paymentMethod == CashOnDelivery
    && |o.items| == |cart|
    && (forall k :: 0 <= k < |cart| ==>
          o.items[k] == LineItem(ItemId(orderId, k), cart[k].product, st.catalog[cart[k].product].farmer,
                                 cart[k].quantity, st.catalog[cart[k].product].price, Pending, None))
    && o.totalPrice == CartValue(st.catalog, cart)
    && after.carts == st.carts[user := []]
    && after.orders == st.orders[orderId := o]
  }

  /** `placeOrder` for a buyer, a delivery address and the id the new order will get. */
  function PlaceOrder(st: Store, user: UserId, address: string, orderId: OrderId): (r: Response)
    requires orderId !in st.orders
    ensures r.reply == Err(CartEmpty) <==> user !in st.carts || |st.carts[user]| == 0
    ensures r.reply == Err(CartEmpty) ==> r.store == st
    ensures r.reply.Err? ==> r.store.carts == st.carts && r.store.orders == st.orders
    ensures SameButStock(st.catalog, r.store.catalog)
    ensures r.reply.Ok? ==> Placed(st, user, address, orderId, r.store, r.reply.value)
    ensures r.reply.Ok? ==> DistinctIds(r.reply.value.items)
  {
    if user !in st.carts || |st.carts[user]| == 0 then Response(st, Err(CartEmpty))
    else
      var cart := st.carts[user];
      var w := TakeStock(st.catalog, cart);
      if w.failure.Some? then Response(st.(catalog := w.catalog), Err(w.failure.value))
      else
        var items := LineItems(orderId, w.lines);
        match NewOrder(orderId, user, items, Total(items), Some(CashOnDelivery), Some(Pending), address)
        case None => Response(st.(catalog := w.catalog), Err(ServerError))
        case Some(o) =>
          CheckoutPlaces(st, user, address, orderId, o);
          Response(Store(st.carts[user := []], w.catalog, st.orders[orderId := o]), Ok(o))
  }

  /** The order a checkout that ran to the end creates is the one `Placed` describes. */
  lemma CheckoutPlaces(st: Store, user: UserId, address: string, orderId: OrderId, o: Order)
    requires user in st.carts && |st.carts[user]| > 0
    requires TakeStock(st.catalog, st.carts[user]).failure.None?
    requires var items := LineItems(orderId, TakeStock(st.catalog, st.carts[user]).lines);
      NewOrder(orderId, user, items, Total(items), Some(CashOnDelivery), Some(Pending), address) == Some(o)
    ensures Placed(st, user, address, orderId,
                   Store(st.carts[user := []], TakeStock(st.catalog, st.carts[user]).catalog, st.orders[orderId := o]), o)
    ensures DistinctIds(o.items)
  {
    var cart := st.carts[user];
    var w := TakeStock(st.catalog, cart);
    var items := LineItems(orderId, w.lines);
    forall k | 0 <= k < |cart|
      ensures items[k] == LineItem(ItemId(orderId, k), cart[k].product, st.catalog[cart[k].product].farmer,
                                   cart[k].quantity, st.catalog[cart[k].product].price, Pending, None)
    {
      assert w.lines[k] == Snapshot(st.catalog, cart[k]);
    }
    TotalIsCartValue(items, st.catalog, cart);
  }

  /** Every outcome of a checkout over a cart with one entry per product: stock is decremented
      for exactly the entries before the first misfit; the reply names that misfit, or is an
      order (or, with an empty address, a server error after every decrement). */
  lemma CheckoutOutcome(st: Store, user: UserId, address: string, orderId: OrderId)
    requires orderId !in st.orders
    requires user in st.carts && |st.carts[user]| > 0 && UniqueProducts(st.carts[user])
    ensures var r := PlaceOrder(st, user, address, orderId);
            var cart := st.carts[user]; var k := FirstMisfit(st.catalog, cart);
      && (k < |cart| ==> r.reply == Err(Shortfall(st.catalog, cart[k])))
      && (k == |cart| ==> (r.reply.Ok? <==> user != "" && address != ""))
      && (k == |cart| && address == "" ==> r.reply == Err(ServerError))
      && (forall j :: 0 <= j < |cart| && cart[j].product in st.catalog ==>
            r.store.catalog[cart[j].product].quantity
              == st.catalog[cart[j].product].quantity - (if j < k then cart[j].quantity else 0.0))
      && (forall p :: p in st.catalog && !Holds(cart, p) ==> r.store.catalog[p] == st.catalog[p])
  {
    var cart := st.carts[user];
    TakeStockStopsAtFirstMisfit(st.catalog, cart);
    forall p | p in st.catalog && !Holds(cart, p)
      ensures TakeStock(st.catalog, cart).catalog[p] == st.catalog[p]
    {
      TakeStockUntouched(st.catalog, cart, p);
    }
  }

  /** Whatever its outcome, a checkout leaves every stock level it changed at zero or above. */
  lemma CheckoutNeverOversells(st: Store, user: UserId, address: string, orderId: OrderId, p: ProductId)
    requires orderId !in st.orders
    requires p in st.catalog
    ensures var after := PlaceOrder(st, user, address, orderId).store.catalog;
      after[p] != st.catalog[p] ==> after[p].quantity >= 0.0
  {
    if user in st.carts && |st.carts[user]| > 0 {
      TakeStockNonNegative(st.catalog, st.carts[user], p);
    }
  }

  /** A successful checkout had stock for every entry and took exactly the ordered quantity. */
  lemma CheckoutSuccessTakesStock(st: Store, user: UserId, address: string, orderId: OrderId)
    requires orderId !in st.orders
    requires user in st.carts && UniqueProducts(st.carts[user])
    requires PlaceOrder(st, user, address, orderId).reply.Ok?
    ensures var r := PlaceOrder(st, user, address, orderId); var cart := st.carts[user];
      forall j :: 0 <= j < |cart| ==>
        && Fits(st.catalog, cart[j])
        && r.store.catalog[cart[j].product].quantity == st.catalog[cart[j].product].quantity - cart[j].quantity
        && r.store.catalog[cart[j].product].quantity >= 0.0
  {
    CheckoutOutcome(st, user, address, orderId);
  }

  /** The two-farmer example: 2 at 50 from one farmer and 1 at 30 from another make an order of 130. */
  lemma TwoFarmerCheckout()
    ensures var a := Product("Apples", "red", 50.0, 10.0, "Hill Farm", "Pune", ["a.jpg"], "F1");
            var b := Product("Beans", "green", 30.0, 5.0, "Vale Farm", "Nashik", ["b.jpg"], "F2");
            var st := Store(map["U" := [CartEntry("A", 2.0), CartEntry("B", 1.0)]],
                            map["A" := a, "B" := b], map[]);
            var r := PlaceOrder(st, "U", "12 Main Road", "O1");
      && r.reply.Ok?
      && r.reply.value.totalPrice == 130.0
      && |r.reply.value.items| == 2
      && r.reply.value.items[0].status == Pending && r.reply.value.items[1].status == Pending
      && r.store.carts["U"] == []
      && r.store.catalog["A"].quantity == 8.0 && r.store.catalog["B"].quantity == 4.0
  {
    var a := Product("Apples", "red", 50.0, 10.0, "Hill Farm", "Pune", ["a.jpg"], "F1");
    var b := Product("Beans", "green", 30.0, 5.0, "Vale Farm", "Nashik", ["b.jpg"], "F2");
    var cart := [CartEntry("A", 2.0), CartEntry("B", 1.0)];
    var st := Store(map["U" := cart], map["A" := a, "B" := b], map[]);
    assert cart[..1] == [CartEntry("A", 2.0)];
    assert cart[..1][..0] == [];
    assert CartValue(st.catalog, cart) == 130.0;
    assert UniqueProducts(cart);
    assert FirstMisfit(st.catalog, cart) == 2 by {
      assert cart[1..] == [CartEntry("B", 1.0)];
      assert cart[1..][1..] == [];
    }
    CheckoutOutcome(st, "U", "12 Main Road", "O1");
  }
}
