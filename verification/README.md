# Farmercart order fulfilment, modelled in Dafny

This project models the order-fulfilment core of the Farmercart marketplace backend, plus the one
client-side guard on item status changes. Farmercart is a marketplace where farmers sell produce
directly to buyers, and every order is cash on delivery.

The model covers these parts:

- **Cart operations** (`addToCart`, `updateCartQuantity`, `removeFromCart`, `clearCart`). Each
  buyer has an ordered list of (product, quantity) entries. The model reads that list as a bag
  (`Carts.QuantityOf`), so each operation is stated by what it does to the bag.
- **Checkout** (`placeOrder`). The loop walks the cart in stored order. For each entry it checks
  stock, decrements it, and snapshots product, farmer, quantity and price. It then sums the total,
  creates a Pending, COD order and empties the cart. The checkout is **not atomic**: if a later
  entry fails, the decrements already made stay in place. `Checkout.CheckoutOutcome` states the
  exact stock left behind for every outcome.
- **Farmer status update** (`updateOrderStatus`). The controller checks the status against the five
  valid values and checks that the calling farmer owns the item. It sets that one item's status
  and then recomputes the order status with the five-rule precedence chain (`Aggregation.Aggregate`).
  The server does not check the item's current status, so any valid status is accepted from any
  state.
- **Buyer cancellation** (`cancelOrderItem`). It refuses Shipped, Delivered and Cancelled items and
  stamps `cancelledAt`. The order becomes Cancelled only when every item is cancelled. Otherwise
  the order status is left as it was, with no recomputation.
- **Farmer order view** (`getFarmerOrders`). Each order is cut down to the caller's items, and
  orders left with no items are dropped.
- **Product creation and update** (`createProduct`, `updateProduct`). Creation checks that every
  required field is truthy. Update is allowed only to the product's owner and replaces a field
  only when the new value is truthy.
- **The farmer orders page** (`FarmerOrders.jsx`). It enables status buttons only for the current
  step and the next one, and offers cancel only for Pending and Accepted items. After an update it
  replaces the order in its list. This page is the only place the one-step lifecycle is enforced.
  `StatusGuard.GuardIsLifecycle` proves that it offers exactly the intended lifecycle
  (`Statuses.Transition`), plus re-sending the current status.

Every request is a pure function from the stored documents to a reply. A `Result` carries either
the produced document or the error the handler answers with. Checkout also returns the store it
leaves behind, because a failed checkout still changes stock. Quantities and prices are exact
`real`s, since quantities can be fractional kilograms. Item and order ids are parameters, as the
database would assign them. So is the clock (`now`), which stamps `cancelledAt`.

In five places the code does something a reader might not expect, and the model follows the code:

- **Delivered + Cancelled.** One might expect an order whose items were each either delivered or
  cancelled to read Delivered. No rule of the chain covers that mix, so it gives Pending
  (`Aggregation.DeliveredAndCancelledGivePending`).
- **Shipped + Accepted.** One might expect an order with an item still only Accepted to read
  Accepted. The chain checks Shipped before Accepted, so [Shipped, Accepted] gives Shipped
  (`Aggregation.ShippedDominates`).
- **Status transitions.** The page allows only the next step or the current one
  (FarmerOrders.jsx:119). The server does not check this: it accepts any of the five statuses from
  any state (`FarmerOrders.DeliveredItemCanBeReopened`).
- **Checkout atomicity.** One might expect a failed checkout to change nothing. The code keeps the
  stock decrements it already saved when a later entry fails (`Checkout.CheckoutOutcome`).
- **Order status after a cancel.** A farmer's update recomputes the order status from all items
  (farmerController.js:184-190). A buyer's cancel only sets Cancelled when every item is cancelled
  and otherwise leaves the status as it was (`Cancellation.CancelDoesNotRecompute`).

## Model

| member | source | states |
|---|---|---|
| `Lists.FirstIndex` | backend/controllers/userController.js:55 | `findIndex` returns the first position whose element satisfies the predicate, or -1 exactly when no element does |
| `Lists.Filter` | backend/controllers/userController.js:101 | `filter` keeps exactly the elements that satisfy the predicate, and nothing that was not in the input |
| `Lists.FilterAppend` | backend/controllers/farmerController.js:134-137 | filtering distributes over concatenation, so the kept elements stay in their original relative order |
| `Lists.FilterIdempotent` | backend/controllers/farmerController.js:134-137 | filtering an already filtered list changes nothing |
| `Statuses.Parse` | backend/controllers/farmerController.js:159-162 | a status string is accepted exactly when it names one of Pending, Accepted, Shipped, Delivered, Cancelled, and it parses back to the name it came from |
| `Aggregation.Aggregate` | backend/controllers/farmerController.js:185-190 | the order is Cancelled iff every item is; Delivered iff it has items and all are Delivered; Shipped iff any item is Shipped; Accepted iff none is Shipped and some is Accepted; Pending only when none is Shipped or Accepted and some item is Pending or the items mix Delivered with Cancelled |
| `Aggregation.AggregateIsMultisetFunction` | backend/controllers/farmerController.js:185-190 | the precedence chain equals an independent rule stated on the multiset of item statuses |
| `Aggregation.AggregatePermutationInvariant` | backend/controllers/farmerController.js:185-190 | reordering the items never changes the recomputed order status |
| `Aggregation.DeliveredAndCancelledGivePending` | backend/controllers/farmerController.js:186-190 | items [Delivered, Cancelled] give order status Pending, since no rule covers that mix |
| `Aggregation.ShippedDominates` | backend/controllers/farmerController.js:188 | [Shipped, Pending] and [Shipped, Accepted] both give Shipped |
| `OrderSchema.NewLineItem` | backend/models/Order.js:8-15 | a new line item has status Pending and no `cancelledAt`, and its quantity is 1 when none is given |
| `OrderSchema.NewOrder` | backend/models/Order.js:4-21 | order creation fails exactly when the required user or address is missing; payment defaults to COD and status to Pending |
| `Products.CreateProduct` | backend/controllers/farmerController.js:11-35 | creation is refused with the missing-fields error exactly when some required field is falsy or there is no image; on success only the new product is added, with the caller as farmer and, for request bodies with numeric price and quantity, non-zero price and quantity |
| `Products.CreateRejectsZero` | backend/controllers/farmerController.js:14-15 | a request body whose price or quantity is the number 0 is rejected as missing |
| `Products.CreateKeepsListing` | backend/controllers/farmerController.js:11-35 | for request bodies with numeric price and quantity, creation keeps every product in the catalog with its text fields and price set and at least one image, and the new product is the caller's |
| `Products.UpdateKeepsDescription` | backend/controllers/farmerController.js:95-101 | for request bodies with a numeric price, an update keeps every product's text fields and price set, since a field is replaced only by a truthy value |
| `Products.UpdateCanDropImages` | backend/controllers/farmerController.js:101 | an update with an empty image list leaves a product with no image, so the catalog no longer meets what creation insisted on |
| `Products.UpdateProduct` | backend/controllers/farmerController.js:85-101 | a missing product gives not-found and a non-owner gives not-authorized; otherwise only that product changes, its farmer is kept, and each field takes the supplied value exactly when that value is truthy (an empty image list is truthy) |
| `Products.UpdateProductIdempotent` | backend/controllers/farmerController.js:95-101 | applying the same update twice has the effect of applying it once |
| `Products.UpdateCannotZeroStock` | backend/controllers/farmerController.js:98 | a request body whose quantity is the number 0 leaves the stock as it was |
| `Carts.AddEntry` | backend/controllers/userController.js:55-60 | adding to a cart raises that product's bag quantity by the amount and leaves every other product's alone; the first entry of a held product grows in place and every other entry is unchanged; a product not held gets a new entry at the end; uniqueness of products is kept |
| `Carts.AddToCart` | backend/controllers/userController.js:52-60 | a missing cart is created holding just the new entry of `quantity or 1`; in an existing cart every entry keeps its position, the first entry of the product grows by `quantity or 1` in place and every other entry is unchanged, and a product not yet held is appended at the end; the product's bag quantity rises by that amount and other products' stay; other buyers' carts are untouched |
| `Carts.UpdateCartQuantity` | backend/controllers/userController.js:126-132 | a missing cart or product gives the matching not-found error; otherwise only entries of that product change, and in a cart with unique products its quantity becomes q when q > 0 and 1 otherwise |
| `Carts.RemoveFromCart` | backend/controllers/userController.js:99-112 | a missing cart gives not-found; otherwise every entry of the product is dropped and every other entry is kept in its original order (the filter of the cart), so other products' quantities are unchanged |
| `Carts.ClearCart` | backend/controllers/userController.js:152-157 | an existing cart is left with no entries; a missing cart is not created |
| `Carts.CartOperationsKeepUnique` | backend/controllers/userController.js:55-60 | all four cart operations keep at most one entry per product in every cart |
| `Checkout.TakeStock` | backend/controllers/userController.js:382-402 | the stock loop changes stock levels only; when it runs to the end it has one line per entry, in cart order, with the entry's quantity and the product's farmer and price; when it stops early it is a server error or insufficient stock |
| `Checkout.DecrementChangesStockOnly` | backend/controllers/userController.js:393 | decrementing a product's stock leaves the catalog's keys and every product's other fields as they were |
| `Checkout.TakeStockUntouched` | backend/controllers/userController.js:382-394 | products not in the cart keep their stock |
| `Checkout.TakeStockNonNegative` | backend/controllers/userController.js:386-394 | a stock level the loop changes is never left below zero |
| `Checkout.FirstMisfit` | backend/controllers/userController.js:386-390 | identifies the first entry the catalog cannot serve: all before it fit, and it does not |
| `Checkout.TakeStockStopsAtFirstMisfit` | backend/controllers/userController.js:382-394 | with one entry per product, the loop fails iff some entry misfits; it reports `Shortfall` of the first misfit (a server error when its product no longer exists, otherwise insufficient stock with its name and available quantity); entries before it are decremented and later ones untouched |
| `Checkout.TotalIsCartValue` | backend/controllers/userController.js:405-408 | the order total, summed over the line items, equals the value of the cart at the catalog's prices |
| `Checkout.PlaceOrder` | backend/controllers/userController.js:370-422 | a missing or empty cart gives "Cart is empty" with nothing changed; any failure leaves carts and orders unchanged; success yields one Pending line item per entry in cart order with snapshotted product, farmer, quantity and price, a total equal to the cart's value, status Pending, payment COD, an emptied cart and the order stored |
| `Checkout.CheckoutOutcome` | backend/controllers/userController.js:382-422 | every checkout outcome on a cart with unique products: the first misfit is reported; without a misfit the order is created unless the address is empty (a server error after every decrement); stock drops by exactly the quantities before the first misfit |
| `Checkout.CheckoutSuccessTakesStock` | backend/controllers/userController.js:386-394 | on a cart with one entry per product, after a successful checkout every entry fitted, and each product's stock fell by exactly its entry's quantity and stays at zero or above |
| `Checkout.CheckoutNeverOversells` | backend/controllers/userController.js:386-394 | whatever the outcome, no stock level the checkout changed is below zero |
| `Checkout.TwoFarmerCheckout` | backend/controllers/userController.js:370-422 | 2 at 50 from one farmer plus 1 at 30 from another give an order of 130 with two Pending items, an empty cart and stocks reduced by 2 and 1 |
| `Cancellation.CancelOrderItem` | backend/controllers/userController.js:537-561 | a missing order or item gives not-found; an existing item is cancelled exactly when it is not Shipped, Delivered or Cancelled, and otherwise refused with its status; otherwise only that item becomes Cancelled with `cancelledAt` set; the order becomes Cancelled when all items are and otherwise keeps its status; nothing else changes |
| `Cancellation.CancelFollowsLifecycle` | backend/controllers/userController.js:546-549 | on an existing item, the buyer's cancel succeeds exactly when the lifecycle allows a cancel, that is from Pending or Accepted |
| `Cancellation.CancelDoesNotRecompute` | backend/controllers/userController.js:555-559 | cancelling the Accepted item of an [Accepted, Pending] order leaves the order Accepted, while the precedence chain would give Pending |
| `FarmerOrders.FarmerView` | backend/controllers/farmerController.js:129-140 | every order in the view is non-empty and holds only the caller's items; every order with an item of the caller appears, cut down to those items; nothing else appears |
| `FarmerOrders.FarmerViewAppend` | backend/controllers/farmerController.js:129-140 | the view keeps the orders in their original relative order |
| `FarmerOrders.FarmerViewIdempotent` | backend/controllers/farmerController.js:129-140 | the view of a view is the same view |
| `FarmerOrders.UpdateOrderStatus` | backend/controllers/farmerController.js:151-192 | an unknown status is refused before anything else; a missing order gives not-found; no item with that id and farmer gives not-authorized; the update succeeds exactly when none of these applies, whatever the item's current status; then only that item's status changes, `cancelledAt` is stamped exactly when the new status is Cancelled, and the order status becomes the precedence chain over the items |
| `FarmerOrders.UpdateReplayIsIdempotent` | backend/controllers/farmerController.js:178-190 | replaying an accepted update, with the same clock, against the order it produced yields the same order |
| `FarmerOrders.UpdateReplayAtAnyTime` | backend/controllers/farmerController.js:178-190 | a replay at any later time is accepted and keeps every item status and the order status; only the updated item's `cancelledAt` can move, to the replay's time when the status is Cancelled, and any other status replays to the same order |
| `FarmerOrders.UpdateAcceptsAnyStatus` | backend/controllers/farmerController.js:159-182 | for every order and every item the caller owns, whatever its current status, each of the five statuses is accepted and set on that item, and the caller still has an item in the order |
| `FarmerOrders.DeliveredItemCanBeReopened` | backend/controllers/farmerController.js:178-182 | the server accepts moving a Delivered item back to Pending, which the lifecycle forbids |
| `FarmerOrders.UpdatesKeepTheRecord` | backend/controllers/farmerController.js:178-190 | status updates and cancellations change item statuses and stamps only, so items, prices, address and total stay as checkout made them |
| `FarmerOrders.TwoFarmerFulfilment` | backend/controllers/farmerController.js:178-190 | one farmer accepting then shipping its item makes the order Accepted, then Shipped; the buyer then cancelling the other farmer's Pending item leaves it Shipped, with the total unchanged |
| `StatusGuard.StepsAreNames` | frontend/src/pages/FarmerOrders.jsx:5 | the page lists the statuses as Pending, Accepted, Shipped, Delivered, Cancelled, in that index order |
| `StatusGuard.IndexOf` | frontend/src/pages/FarmerOrders.jsx:95 | a status the page knows gets its position in the list, and an unknown one gets -1 |
| `StatusGuard.EnabledButtons` | frontend/src/pages/FarmerOrders.jsx:95-134 | for a known status, the enabled buttons are the current step and the next one, and there are none for Delivered or Cancelled |
| `StatusGuard.TerminalItemsOfferNothing` | frontend/src/pages/FarmerOrders.jsx:96-146 | a Delivered or Cancelled item has no enabled status button and no cancel button |
| `StatusGuard.UnknownStatusOffersPending` | frontend/src/pages/FarmerOrders.jsx:95-119 | an unknown status has index -1, so only the Pending button is enabled, and no cancel is offered |
| `StatusGuard.GuardIsLifecycle` | frontend/src/pages/FarmerOrders.jsx:96-152 | the page offers target t for status s exactly when the lifecycle allows s to t (one step forward, or cancel from Pending or Accepted), or when t is s and s is not Delivered or Cancelled |
| `StatusGuard.ReplaceOrder` | frontend/src/pages/FarmerOrders.jsx:41-45 | after an update, orders with the matching id are replaced by the reply and every other order is untouched |
| `StatusGuard.ReplaceCommutesWithView` | frontend/src/pages/FarmerOrders.jsx:41-45 | folding a reply that holds only the farmer's items into the farmer's page gives the farmer's view of the list with the reply stored in it |
| `StatusGuard.ReplacedPageShowsReply` | frontend/src/pages/FarmerOrders.jsx:41-45 | when the page shows the order, a folded reply holding another farmer's item makes the page differ from the farmer's view |
| `StatusGuard.ReplacedPageIsViewIff` | frontend/src/pages/FarmerOrders.jsx:41-45 | after an accepted update, the page after the fold equals the farmer's view of the updated orders exactly when the order holds no other farmer's item |
| `StatusGuard.ReplacedOrderIsUnfiltered` | frontend/src/pages/FarmerOrders.jsx:41-45 | the reply is the whole order, so after a farmer's update the page shows another farmer's item that the farmer's view of the stored order does not contain |

Some helpers have no row of their own. Each is stated through the row of the member that uses it:

- `Checkout.Shortfall` (userController.js:386-389): through `Checkout.TakeStockStopsAtFirstMisfit`.
- `Checkout.Fits` (userController.js:386): through `Checkout.FirstMisfit`,
  `Checkout.TakeStockStopsAtFirstMisfit` and `Checkout.CheckoutSuccessTakesStock`.
- `Checkout.Snapshot` (userController.js:396-401): through `Checkout.TakeStock` and
  `Checkout.PlaceOrder`.
- `Domain.Truthy` (farmerController.js:14-15, 97-98; userController.js:57, 59): through
  `Products.CreateProduct`, `Products.CreateRejectsZero`, `Products.UpdateProduct`,
  `Products.UpdateCannotZeroStock` and `Carts.AddToCart`.
- `Carts.IsProduct` (userController.js:55, 129): through `Carts.AddEntry`, `Carts.AddToCart` and
  `Carts.UpdateCartQuantity`.
- `Carts.IsNotProduct` (userController.js:101): through `Carts.RemoveFromCart`.
- `FarmerOrders.IsFarmersItem` (farmerController.js:134-137): through `FarmerOrders.FarmerView`.
- `Aggregation.AllAre` and `Aggregation.AnyIs` (farmerController.js:186-189): through
  `Aggregation.Aggregate` and `Aggregation.AggregateIsMultisetFunction`.
- `Statuses.Name` (farmerController.js:159): through `Statuses.Parse`.
- `Checkout.Decrement` (userController.js:393): through `Checkout.DecrementChangesStockOnly`,
  `Checkout.TakeStockUntouched` and `Checkout.CheckoutSuccessTakesStock`.
- `Checkout.Total` (userController.js:405-408): through `Checkout.TotalIsCartValue`.
- `Products.Merge` (farmerController.js:95-101): through `Products.UpdateProduct` and
  `Products.UpdateProductIdempotent`.
- `Cancellation.Cancellable` (userController.js:547): through `Cancellation.CancelOrderItem` and
  `Cancellation.CancelFollowsLifecycle`.
- `StatusGuard.ButtonEnabled`, `StatusGuard.CancelOffered` and `StatusGuard.Offers`
  (FarmerOrders.jsx:119, 134, 146): through `StatusGuard.EnabledButtons` and
  `StatusGuard.GuardIsLifecycle`.
- `StatusGuard.CanUpdate` (FarmerOrders.jsx:96) and `StatusGuard.IsAllowed`
  (FarmerOrders.jsx:119): through `StatusGuard.EnabledButtons`,
  `StatusGuard.TerminalItemsOfferNothing` and `StatusGuard.GuardIsLifecycle`.
- `Carts.AddAmount` (userController.js:57, 59) and `Carts.EntriesOf` (userController.js:52-53):
  through `Carts.AddToCart`.
- `Carts.SetAmount` (userController.js:132): through `Carts.UpdateCartQuantity`.
- `Products.Complete` (farmerController.js:13-22): through `Products.CreateProduct` and
  `Products.CreateRejectsZero`.
- `Products.OrText`, `Products.OrNumber` and `Products.OrImages` (farmerController.js:95-101):
  through `Products.UpdateProduct`, `Products.UpdateProductIdempotent` and
  `Products.UpdateCanDropImages`.
- `Checkout.LineItems` (userController.js:396-401, with Order.js:8-15): through
  `Checkout.PlaceOrder`.
- `FarmerOrders.OwnView` (farmerController.js:131-139): through `FarmerOrders.FarmerView`.
- `FarmerOrders.IsOwnedItem` (farmerController.js:169-172): through
  `FarmerOrders.UpdateOrderStatus` and `FarmerOrders.UpdateAcceptsAnyStatus`.
- `Cancellation.HasId` (userController.js:543): through `Cancellation.CancelOrderItem`.
- `OrderSchema.StatusesOf` (farmerController.js:185): through `Aggregation.Aggregate` and
  `FarmerOrders.UpdateOrderStatus`.

## Left out

- E-mail (order confirmation, farmer notifications, status-update mails). Every send is best
  effort and its failure is caught, so it is modelled as a no-op.
- Socket.IO pushes after an update or a cancel. These are network output with no effect on the
  stored documents.
- Mongoose persistence, `populate` and the response shapes. Each request is one atomic step over
  the stored carts, products and orders. Database failures that the handlers turn into a 500 are
  not modelled, except the two that the modelled data can cause: a cart entry whose product no
  longer exists, and an order whose required field is empty.
- Concurrency between requests, such as two checkouts racing on one product or two updates of one
  order. Requests are modelled as sequential steps.
- Authentication, farmer verification, and the buyer routes that carry no auth check. There is no
  ownership check on cancel or checkout to model. The caller's farmer id is a parameter.
- backend/models/Cart.js is not part of this model. The cart's shape (a buyer and a list of
  product and quantity entries) follows from how the controller uses it.
- Products.CreateRejectsZero: request bodies are modelled with numeric price and quantity. The
  product pages send form values as strings (AddProduct.jsx:17, 46-48), and the string "0" is
  truthy, so a price or stock of "0" from the page passes the check at farmerController.js:14-15.
- Products.CreateProduct: its non-zero price and quantity hold only for numeric request bodies.
  A price or quantity of "0" sent as a string by AddProduct.jsx:68-69 is truthy, passes
  farmerController.js:14-15 and is stored as the number 0.
- Products.CreateKeepsListing: the price part of the listing invariant holds only for numeric
  request bodies, for the same reason.
- Products.UpdateKeepsDescription: the price part holds only for numeric request bodies. The edit
  form (MyProducts.jsx:104-107) can send price "0" as a string, which is truthy and sets the
  price to 0 at farmerController.js:97.
- Products.UpdateCannotZeroStock: for the same reason, the edit form (MyProducts.jsx:39-42, 58-59)
  sends quantity "0" as a string, which is truthy and sets the stock to 0 at
  farmerController.js:98. The lemma holds only for the number 0.
- JavaScript value semantics beyond truthiness: string quantities that `+=` would concatenate,
  NaN, and a missing `userId` in a request body. Quantities and prices are exact reals, and ids
  are always present.
- The sort by creation time in `getFarmerOrders`. The model takes the fetched orders as a list
  and keeps their order. An item whose farmer document no longer exists is treated by its stored
  farmer id.
- Mongoose's per-element validation of product image URLs, product reviews, and the rest of the
  product and profile CRUD (delete, search, reviews, profile edits, admin approval).
- The schema stores a status as any string. The model stores one of the five statuses, because
  every write in the modelled core writes one of them: the defaults, checkout, the validated
  update and the cancel. The page's guard works on the status string, so an unknown status is
  modelled there.
- The `required` flags on an item's product, farmer and price and on the order's total. The
  types make these always present; only the user and the address can be empty.
- The page's colours, confirm dialog and alerts. Only which buttons are enabled and what they
  send is modelled.
- Checkout.CheckoutOutcome: stated only for carts with one entry per product, which every cart
  operation keeps (`Carts.CartOperationsKeepUnique`). The stock loop itself handles duplicates
  like the source: a second entry for a product is checked against the stock the first entry
  already lowered. But the lemma's formula describes one entry per product. It finds the first
  misfit against the starting catalog and subtracts a single entry's quantity, which is false
  when entries repeat a product.
- Checkout.TakeStockStopsAtFirstMisfit: stated only for carts with one entry per product, for
  the same reason.
- Checkout.CheckoutSuccessTakesStock: stated only for carts with one entry per product, for the
  same reason.
- Carts.UpdateCartQuantity: the new quantity of the product is stated only for carts with one
  entry per product. With duplicates, only the first entry changes.
