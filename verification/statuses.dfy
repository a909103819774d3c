/** The five fulfilment statuses of a line item, their wire names, and the
    intended lifecycle: one step forward at a time, and cancel only before shipping. */
module Statuses {
  import opened Wrappers

  datatype Status = Pending | Accepted | Shipped | Delivered | Cancelled

  /** The status list, in the index order both the controller and the farmer page use. */
  const Steps: seq<Status> := [Pending, Accepted, Shipped, Delivered, Cancelled]

  /** The string a status is stored and sent as. */
  function Name(s: Status): string
  {
    match s
    case Pending => "Pending"
    case Accepted => "Accepted"
    case Shipped => "Shipped"
    case Delivered => "Delivered"
    case Cancelled => "Cancelled"
  }

  /** The controller's `validStatuses.includes(status)` check, returning the status it names. */
  function Parse(text: string): (r: Option<Status>)
    ensures r.Some? ==> Name(r.value) == text
    ensures r.None? <==> forall s :: Name(s) != text
  {
    if text == "Pending" then Some(Pending)
    else if text == "Accepted" then Some(Accepted)
    else if text == "Shipped" then Some(Shipped)
    else if text == "Delivered" then Some(Delivered)
    else if text == "Cancelled" then Some(Cancelled)
    else None
  }

  /** Every status survives the trip to its wire name and back. */
  lemma ParseName(s: Status)
    ensures Parse(Name(s)) == Some(s)
  {
  }

  /** The position of a status in `Steps`. */
  function Index(s: Status): (i: nat)
    ensures i < |Steps| && Steps[i] == s
  {
    match s
    case Pending => 0
    case Accepted => 1
    case Shipped => 2
    case Delivered => 3
    case Cancelled => 4
  }

  /** The next step on the happy path Pending, Accepted, Shipped, Delivered. */
  function Next(s: Status): (r: Option<Status>)
    ensures r.Some? <==> s in {Pending, Accepted, Shipped}
    ensures r.Some? ==> Index(r.value) == Index(s) + 1
  {
    match s
    case Pending => Some(Accepted)
    case Accepted => Some(Shipped)
    case Shipped => Some(Delivered)
    case _ => None
  }

  /** The intended item lifecycle: advance one step, or cancel while Pending or Accepted.
      Only the farmer page enforces it; the server accepts any status from any state. */
  predicate Transition(from: Status, to: Status)
  {
    Next(from) == Some(to) || (to == Cancelled && from in {Pending, Accepted})
  }
}
