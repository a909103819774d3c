/** Identifiers, time, request numbers and the error replies shared by the controllers. */
module Domain {
  import opened Wrappers
  import opened Statuses

  type UserId = string
  type ProductId = string
  type FarmerId = string
  type OrderId = string

  /** A timestamp; the handlers read the clock, the model takes it as a parameter. */
  type Time = int

  /** JavaScript truthiness of a numeric request field: absent and 0 are falsy. */
  predicate Truthy(x: Option<real>)
  {
    x.Some? && x.value != 0.0
  }

  /** The error replies of the modelled handlers (HTTP status in the comment). */
  datatype Error =
    | CartNotFound                                        // 404 "Cart not found"
    | ItemNotInCart                                       // 404 "Item not found in cart"
    | CartEmpty                                           // 400 "Cart is empty"
    | InsufficientStock(productName: string, available: real)  // 400 "Not enough stock for product"
    | ServerError                                         // 500: an exception reached the handler's catch
    | OrderNotFound                                       // 404 "Order not found"
    | ItemNotFound                                        // 404 "Item not found"
    | CannotCancel(current: Status)                       // 400 "Cannot cancel item with status"
    | InvalidStatus                                       // 400 "Invalid status"
    | NotAuthorizedForItem                                // 403 "Not authorized to update this item or item not found"
    | ProductNotFound                                     // 404 "Product not found"
    | NotProductOwner                                     // 403 "Not authorized"
    | MissingFields                                       // 400 "All fields are required, including at least one image"
}
