/** The order-level status as a function of the item statuses: the five-rule
    precedence chain recomputed after a farmer's item update. */
module Aggregation {
  import opened Statuses

  /** Every status in the list is target (vacuously so for an empty list). */
  predicate AllAre(ss: seq<Status>, target: Status)
  {
    forall i :: 0 <= i < |ss| ==> ss[i] == target
  }

  /** At least one status in the list is target. */
  predicate AnyIs(ss: seq<Status>, target: Status)
  {
    exists i :: 0 <= i < |ss| && ss[i] == target
  }

  /** The precedence chain, rule by rule, in the order the controller evaluates it. */
  function Aggregate(ss: seq<Status>): (r: Status)
    ensures r == Cancelled <==> AllAre(ss, Cancelled)
    ensures r == Delivered <==> |ss| > 0 && AllAre(ss, Delivered)
    ensures r == Shipped <==> AnyIs(ss, Shipped)
    ensures r == Accepted <==> !AnyIs(ss, Shipped) && AnyIs(ss, Accepted)
    ensures r == Pending ==> |ss| > 0 && !AnyIs(ss, Shipped) && !AnyIs(ss, Accepted)
    ensures r == Pending ==> AnyIs(ss, Pending) || (AnyIs(ss, Delivered) && AnyIs(ss, Cancelled))
  {
    if AllAre(ss, Cancelled) then
      assert |ss| > 0 ==> ss[0] != Delivered;
      Cancelled
    else if AllAre(ss, Delivered) then Delivered
    else if AnyIs(ss, Shipped) then Shipped
    else if AnyIs(ss, Accepted) then Accepted
    else Pending
  }

  /** An independent statement of the same rule over the multiset of item statuses. */
  function AggregateOf(m: multiset<Status>): Status
  {
    if m[Cancelled] == |m| then Cancelled
    else if m[Delivered] == |m| then Delivered
    else if m[Shipped] > 0 then Shipped
    else if m[Accepted] > 0 then Accepted
    else Pending
  }

  /** "Every item has status t" is "t occurs as often as there are items". */
  lemma {:induction false} AllAreCount(ss: seq<Status>, t: Status)
    ensures multiset(ss)[t] <= |ss|
    ensures AllAre(ss, t) <==> multiset(ss)[t] == |ss|
    decreases |ss|
  {
    if |ss| > 0 {
      assert ss == [ss[0]] + ss[1..];
      assert multiset(ss) == multiset{ss[0]} + multiset(ss[1..]);
      AllAreCount(ss[1..], t);
      if AllAre(ss[1..], t) && ss[0] == t {
        assert AllAre(ss, t) by {
          forall i | 0 <= i < |ss| ensures ss[i] == t {
            if i > 0 { assert ss[i] == ss[1..][i - 1]; }
          }
        }
      } else if ss[0] != t {
        assert !AllAre(ss, t);
      } else {
        var i :| 0 <= i < |ss[1..]| && ss[1..][i] != t;
        assert ss[i + 1] != t;
      }
    }
  }

  /** "Some item has status t" is "t occurs at least once". */
  lemma AnyIsCount(ss: seq<Status>, t: Status)
    ensures AnyIs(ss, t) <==> multiset(ss)[t] > 0
  {
    if multiset(ss)[t] > 0 {
      assert t in ss;
      var i :| 0 <= i < |ss| && ss[i] == t;
    }
  }

  /** The chain depends on the items only through their multiset of statuses. */
  lemma AggregateIsMultisetFunction(ss: seq<Status>)
    ensures Aggregate(ss) == AggregateOf(multiset(ss))
  {
    AllAreCount(ss, Cancelled);
    AllAreCount(ss, Delivered);
    AnyIsCount(ss, Shipped);
    AnyIsCount(ss, Accepted);
  }

  /** Reordering the items does not change the order status. */
  lemma AggregatePermutationInvariant(ss: seq<Status>, tt: seq<Status>)
    requires multiset(ss) == multiset(tt)
    ensures Aggregate(ss) == Aggregate(tt)
  {
    AggregateIsMultisetFunction(ss);
    AggregateIsMultisetFunction(tt);
  }

  /** One delivered and one cancelled item leave the order Pending: the chain has no
      rule for a mix of the two terminal statuses. */
  lemma DeliveredAndCancelledGivePending()
    ensures Aggregate([Delivered, Cancelled]) == Pending
  {
    assert [Delivered, Cancelled][0] == Delivered;
    assert [Delivered, Cancelled][1] == Cancelled;
  }

  /** Any shipped item outranks a pending or accepted one. */
  lemma ShippedDominates()
    ensures Aggregate([Shipped, Pending]) == Shipped
    ensures Aggregate([Shipped, Accepted]) == Shipped
  {
    assert [Shipped, Pending][0] == Shipped;
    assert [Shipped, Accepted][0] == Shipped;
  }
}
