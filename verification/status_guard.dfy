/** The farmer orders page: which status buttons it enables for an item, when it
    offers the cancel button, and how it folds the server's reply into its list.
    This page is the only place the one-step-forward lifecycle is enforced. */
module StatusGuard {
  import opened Wrappers
  import opened Statuses
  import opened Domain
  import opened OrderSchema
  import opened Lists
  import opened FarmerOrders

  /** The page's status list, as the strings it compares item statuses with. */
  const StatusSteps: seq<string> := ["Pending", "Accepted", "Shipped", "Delivered", "Cancelled"]

  /** The page's list is the status list, by name. */
  lemma StepsAreNames()
    ensures |StatusSteps| == |Steps|
    ensures forall k :: 0 <= k < |Steps| ==> StatusSteps[k] == Name(Steps[k])
  {
  }

  function IsText(s: string): string -> bool
  {
    (x: string) => x == s
  }

  /** The position of a status in the page's step list, or -1 for a status the page does not know. */
  function IndexOf(s: string): (i: int)
    ensures -1 <= i < |StatusSteps|
    ensures i == -1 <==> s !in StatusSteps
    ensures 0 <= i ==> StatusSteps[i] == s
  {
    var i := FirstIndex(StatusSteps, IsText(s));
    assert s in StatusSteps ==> IsText(s)(StatusSteps[IndexOfIn(s)]);
    i
  }

  /** A witness position for a known status name. */
  function IndexOfIn(s: string): (k: nat)
    requires s in StatusSteps
    ensures k < |StatusSteps| && StatusSteps[k] == s
  {
    if s == "Pending" then 0 else if s == "Accepted" then 1 else if s == "Shipped" then 2
    else if s == "Delivered" then 3 else 4
  }

  /** `canUpdate`: anything but Delivered and Cancelled. */
  predicate CanUpdate(s: string)
  {
    s != "Delivered" && s != "Cancelled"
  }

  /** `isAllowed` for the button at `index`: the next step or the current one. */
  predicate IsAllowed(s: string, index: nat)
    requires index < |StatusSteps|
  {
    index == IndexOf(s) + 1 || s == StatusSteps[index]
  }

  /** A status button is enabled when it is allowed and the item can still be updated. */
  predicate ButtonEnabled(s: string, index: nat)
    requires index < |StatusSteps|
  {
    IsAllowed(s, index) && CanUpdate(s)
  }

  /** The cancel button is shown for Pending and Accepted items only. */
  predicate CancelOffered(s: string)
  {
    CanUpdate(s) && (s == "Pending" || s == "Accepted")
  }

  /** The page lets the farmer request `target` for an item in status `current`. */
  predicate Offers(current: string, target: string)
  {
    || (exists k :: 0 <= k < |StatusSteps| && StatusSteps[k] == target && ButtonEnabled(current, k))
    || (target == "Cancelled" && CancelOffered(current))
  }

  /** For a known status, the enabled buttons are the current status and the next one,
      unless the item is Delivered or Cancelled. */
  lemma EnabledButtons(st: Status, k: nat)
    requires k < |Steps|
    ensures ButtonEnabled(Name(st), k)
        <==> st !in {Delivered, Cancelled} && (Steps[k] == st || Next(st) == Some(Steps[k]))
  {
    assert IndexOf(Name(st)) == Index(st);
  }

  /** Delivered and Cancelled items get no status button and no cancel button. */
  lemma TerminalItemsOfferNothing(s: string, target: string)
    requires s == "Delivered" || s == "Cancelled"
    ensures forall k :: 0 <= k < |StatusSteps| ==> !ButtonEnabled(s, k)
    ensures !Offers(s, target)
  {
  }

  /** A status the page does not know has index -1, so only Pending (index 0) is enabled. */
  lemma UnknownStatusOffersPending(s: string)
    requires s !in StatusSteps
    ensures forall k :: 0 <= k < |StatusSteps| ==> (ButtonEnabled(s, k) <==> k == 0)
    ensures !CancelOffered(s)
  {
  }

  /** The page offers exactly the intended lifecycle's transitions, plus re-sending the
      current status of an item that is not yet Delivered or Cancelled. */
  lemma GuardIsLifecycle(st: Status, t: Status)
    ensures Offers(Name(st), Name(t)) <==> (t == st && st !in {Delivered, Cancelled}) || Transition(st, t)
  {
    ButtonFor(st, t);
    EnabledButtons(st, Index(t));
    var button := ButtonEnabled(Name(st), Index(t));
    assert button <==> st !in {Delivered, Cancelled} && (t == st || Next(st) == Some(t));
    var cancel := Name(t) == "Cancelled" && CancelOffered(Name(st));
    assert cancel <==> t == Cancelled && st in {Pending, Accepted} by {
      assert CancelOffered(Name(st)) <==> st in {Pending, Accepted};
      assert Name(t) == "Cancelled" <==> t == Cancelled;
    }
    assert Offers(Name(st), Name(t)) <==> button || cancel;
  }

  /** Some button for t is enabled exactly when the one at t's index is. */
  lemma ButtonFor(st: Status, t: Status)
    ensures (exists k :: 0 <= k < |StatusSteps| && StatusSteps[k] == Name(t) && ButtonEnabled(Name(st), k))
        <==> ButtonEnabled(Name(st), Index(t))
  {
    StepsAreNames();
    assert StatusSteps[Index(t)] == Name(t);
    forall k | 0 <= k < |StatusSteps| && StatusSteps[k] == Name(t) ensures k == Index(t) {
      assert Name(Steps[k]) == Name(t);
      ParseName(Steps[k]);
      ParseName(t);
    }
  }

  /** The page's list after an update: every order with the updated id is replaced by the server's reply. */
  function ReplaceOrder(list: seq<Order>, id: OrderId, updated: Order): (r: seq<Order>)
    ensures |r| == |list|
    ensures forall k :: 0 <= k < |list| && list[k].id != id ==> r[k] == list[k]
    ensures forall k :: 0 <= k < |list| && list[k].id == id ==> r[k] == updated
    decreases |list|
  {
    if |list| == 0 then []
    else [if list[0].id == id then updated else list[0]] + ReplaceOrder(list[1..], id, updated)
  }

  /** Every item of the order belongs to farmer f. */
  predicate OnlyItemsOf(o: Order, f: FarmerId)
  {
    forall j :: 0 <= j < |o.items| ==> o.items[j].farmer == f
  }

  /** Folding a reply that holds only f's items into f's page gives f's view of the list
      with the reply stored in it. */
  lemma {:induction false} ReplaceCommutesWithView(list: seq<Order>, f: FarmerId, id: OrderId, u: Order)
    requires HasItemOf(u, f) && OnlyItemsOf(u, f)
    requires forall k :: 0 <= k < |list| && list[k].id == id ==> HasItemOf(list[k], f)
    ensures ReplaceOrder(FarmerView(list, f), id, u) == FarmerView(ReplaceOrder(list, id, u), f)
    decreases |list|
  {
    if |list| > 0 {
      var v := OwnView(list[0], f);
      var rest := FarmerView(list[1..], f);
      var x := if list[0].id == id then u else list[0];
      assert ReplaceOrder(list, id, u) == [x] + ReplaceOrder(list[1..], id, u);
      assert ([x] + ReplaceOrder(list[1..], id, u))[1..] == ReplaceOrder(list[1..], id, u);
      assert forall k :: 1 <= k < |list| ==> list[1..][k - 1] == list[k];
      ReplaceCommutesWithView(list[1..], f, id, u);
      if list[0].id == id {
        var j :| 0 <= j < |list[0].items| && list[0].items[j].farmer == f;
        assert IsFarmersItem(f)(list[0].items[j]);
        assert |v.items| > 0;
        assert forall j :: 0 <= j < |u.items| ==> IsFarmersItem(f)(u.items[j]);
        FilterKeepsAll(u.items, IsFarmersItem(f));
        assert OwnView(u, f) == u;
        assert ([v] + rest)[1..] == rest;
      } else if |v.items| > 0 {
        assert ([v] + rest)[1..] == rest;
      }
    }
  }

  /** If the reply carries an item of another farmer, the page after the fold is not f's
      view of the stored list: it shows that item. */
  lemma {:induction false} ReplacedPageShowsReply(list: seq<Order>, f: FarmerId, id: OrderId, u: Order)
    requires exists k :: 0 <= k < |list| && list[k].id == id && HasItemOf(list[k], f)
    ensures ReplaceOrder(FarmerView(list, f), id, u) == FarmerView(ReplaceOrder(list, id, u), f)
            ==> OnlyItemsOf(u, f)
  {
    var k :| 0 <= k < |list| && list[k].id == id && HasItemOf(list[k], f);
    var page := FarmerView(list, f);
    assert OwnView(list[k], f) in page;
    var m :| 0 <= m < |page| && page[m] == OwnView(list[k], f);
    assert ReplaceOrder(page, id, u)[m] == u;
  }

  /** After a farmer's accepted update, folding the reply into the farmer's page gives the
      farmer's view of the updated orders exactly when the order holds no other farmer's item. */
  lemma {:induction false} ReplacedPageIsViewIff(orders: map<OrderId, Order>, list: seq<Order>, orderId: OrderId,
                              itemId: ItemId, statusText: string, f: FarmerId, now: Time)
    requires UpdateOrderStatus(orders, orderId, itemId, statusText, f, now).Ok?
    requires forall k :: 0 <= k < |list| && list[k].id == orderId ==> list[k] == orders[orderId]
    requires exists k :: 0 <= k < |list| && list[k].id == orderId
    ensures var u := UpdateOrderStatus(orders, orderId, itemId, statusText, f, now).value;
      ReplaceOrder(FarmerView(list, f), orderId, u) == FarmerView(ReplaceOrder(list, orderId, u), f)
      <==> OnlyItemsOf(u, f)
  {
    var o := orders[orderId];
    var u := UpdateOrderStatus(orders, orderId, itemId, statusText, f, now).value;
    var i := FirstIndex(o.items, IsOwnedItem(itemId, f));
    assert u.items[i].farmer == f;
    assert HasItemOf(u, f);
    assert HasItemOf(o, f) by {
      assert o.items[i].farmer == f;
    }
    ReplacedPageShowsReply(list, f, orderId, u);
    if OnlyItemsOf(u, f) {
      ReplaceCommutesWithView(list, f, orderId, u);
    }
  }

  /** The server replies with the whole order, so after F1 accepts its item the page shows
      F2's item of the same order too, although F1's view of the stored order has none. */
  lemma ReplacedOrderIsUnfiltered()
    ensures var o := ScenarioOrder(Pending, Pending, Pending);
            var page := FarmerView([o], "F1");
            var r := UpdateOrderStatus(map["O" := o], "O", ItemId("O", 0), "Accepted", "F1", 1);
      && r.Ok?
      && |page| == 1 && |page[0].items| == 1
      && |ReplaceOrder(page, "O", r.value)[0].items| == 2
      && ReplaceOrder(page, "O", r.value)[0].items[1].farmer == "F2"
      && forall k, j :: 0 <= k < |FarmerView([r.value], "F1")| && 0 <= j < |FarmerView([r.value], "F1")[k].items|
           ==> FarmerView([r.value], "F1")[k].items[j].farmer == "F1"
  {
    var o := ScenarioOrder(Pending, Pending, Pending);
    ScenarioStep(Pending, Pending, Accepted, 1);
    var mine := Filter(o.items, IsFarmersItem("F1"));
    assert o.items[1..] == [o.items[1]];
    assert o.items[1..][1..] == [];
    assert mine == [o.items[0]];
    var page := FarmerView([o], "F1");
    assert [o][1..] == [];
    assert page == [OwnView(o, "F1")];
  }
}
