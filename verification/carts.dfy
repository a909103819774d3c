/** The buyer's cart: an ordered list of (product, quantity) entries per buyer,
    edited by add, update-quantity, remove and clear. */
module Carts {
  import opened Wrappers
  import opened Domain
  import opened Lists

  datatype CartEntry = CartEntry(product: ProductId, quantity: real)

  /** The stored carts, by buyer; a buyer without a key has no cart document. */
  type CartStore = map<UserId, seq<CartEntry>>

  /** An entry for product p. */
  function IsProduct(p: ProductId): CartEntry -> bool
  {
    (e: CartEntry) => e.product == p
  }

  /** An entry for any product other than p. */
  function IsNotProduct(p: ProductId): CartEntry -> bool
  {
    (e: CartEntry) => e.product != p
  }

  /** The cart keeps at most one entry per product. */
  predicate UniqueProducts(items: seq<CartEntry>)
  {
    forall i, j :: 0 <= i < j < |items| ==> items[i].product != items[j].product
  }

  /** Some entry of the cart is for product p. */
  predicate Holds(items: seq<CartEntry>, p: ProductId)
  {
    exists i :: 0 <= i < |items| && items[i].product == p
  }

  /** The cart read as a bag: the total quantity requested of product p. */
  function QuantityOf(items: seq<CartEntry>, p: ProductId): real
    decreases |items|
  {
    if |items| == 0 then 0.0
    else (if items[0].product == p then items[0].quantity else 0.0) + QuantityOf(items[1..], p)
  }

  /** A cart that does not hold p asks for none of it. */
  lemma {:induction false} QuantityOfAbsent(items: seq<CartEntry>, p: ProductId)
    requires !Holds(items, p)
    ensures QuantityOf(items, p) == 0.0
    decreases |items|
  {
    if |items| > 0 {
      assert !Holds(items[1..], p) by {
        forall i | 0 <= i < |items[1..]| ensures items[1..][i].product != p {
          assert items[1..][i] == items[i + 1];
        }
      }
      QuantityOfAbsent(items[1..], p);
    }
  }

  /** Appending an entry adds its quantity to its own product only. */
  lemma {:induction false} QuantityOfAppend(items: seq<CartEntry>, e: CartEntry, p: ProductId)
    ensures QuantityOf(items + [e], p) == QuantityOf(items, p) + (if e.product == p then e.quantity else 0.0)
    decreases |items|
  {
    if |items| == 0 {
      assert (items + [e])[1..] == [];
    } else {
      assert (items + [e])[1..] == items[1..] + [e];
      QuantityOfAppend(items[1..], e, p);
    }
  }

  /** Replacing the entry at position i moves the bag by the difference of the two entries. */
  lemma {:induction false} QuantityOfReplace(items: seq<CartEntry>, i: nat, e: CartEntry, p: ProductId)
    requires i < |items|
    ensures QuantityOf(items[i := e], p)
         == QuantityOf(items, p)
            - (if items[i].product == p then items[i].quantity else 0.0)
            + (if e.product == p then e.quantity else 0.0)
    decreases i
  {
    if i == 0 {
      assert items[i := e][1..] == items[1..];
    } else {
      assert items[i := e][1..] == items[1..][i - 1 := e];
      QuantityOfReplace(items[1..], i - 1, e, p);
    }
  }

  /** Dropping every entry of product x empties x from the bag and leaves the rest. */
  lemma {:induction false} QuantityOfRemoved(items: seq<CartEntry>, x: ProductId, p: ProductId)
    ensures QuantityOf(Filter(items, IsNotProduct(x)), p) == if p == x then 0.0 else QuantityOf(items, p)
    decreases |items|
  {
    if |items| > 0 {
      QuantityOfRemoved(items[1..], x, p);
      var rest := Filter(items[1..], IsNotProduct(x));
      if IsNotProduct(x)(items[0]) {
        assert Filter(items, IsNotProduct(x)) == [items[0]] + rest;
        assert ([items[0]] + rest)[1..] == rest;
      }
    }
  }

  /** The amount an add contributes: the requested quantity when it is truthy, otherwise 1. */
  function AddAmount(quantity: Option<real>): real
  {
    if Truthy(quantity) then quantity.value else 1.0
  }

  /** The buyer's entries, or the empty list a missing cart is created with. */
  function EntriesOf(carts: CartStore, user: UserId): seq<CartEntry>
  {
    if user in carts then carts[user] else []
  }

  /** Increment the first entry for p, or append a new entry when there is none. */
  function AddEntry(items: seq<CartEntry>, p: ProductId, amount: real): (r: seq<CartEntry>)
    ensures |r| == if Holds(items, p) then |items| else |items| + 1
    ensures forall j :: 0 <= j < |items| ==> r[j].product == items[j].product
    ensures !Holds(items, p) ==> r == items + [CartEntry(p, amount)]
    ensures Holds(items, p) ==> forall j :: 0 <= j < |items| ==>
              r[j] == if j == FirstIndex(items, IsProduct(p)) then CartEntry(p, items[j].quantity + amount) else items[j]
    ensures Holds(r, p)
    ensures QuantityOf(r, p) == QuantityOf(items, p) + amount
    ensures forall q :: q != p ==> QuantityOf(r, q) == QuantityOf(items, q)
    ensures UniqueProducts(items) ==> UniqueProducts(r)
  {
    var i := FirstIndex(items, IsProduct(p));
    if i == -1 then
      var r := items + [CartEntry(p, amount)];
      assert r[|items|].product == p;
      QuantityOfAppend(items, CartEntry(p, amount), p);
      assert forall q :: q != p ==> QuantityOf(r, q) == QuantityOf(items, q) by {
        forall q | q != p ensures QuantityOf(r, q) == QuantityOf(items, q) {
          QuantityOfAppend(items, CartEntry(p, amount), q);
        }
      }
      r
    else
      var r := items[i := items[i].(quantity := items[i].quantity + amount)];
      QuantityOfReplace(items, i, r[i], p);
      assert forall q :: q != p ==> QuantityOf(r, q) == QuantityOf(items, q) by {
        forall q | q != p ensures QuantityOf(r, q) == QuantityOf(items, q) {
          QuantityOfReplace(items, i, r[i], q);
        }
      }
      r
  }

  /** `addToCart`: create the cart if missing, then add the requested quantity of the product, or 1 when none is truthy. */
  function AddToCart(carts: CartStore, user: UserId, p: ProductId, quantity: Option<real>): (r: CartStore)
    ensures r.Keys == carts.Keys + {user}
    ensures forall u :: u in carts && u != user ==> r[u] == carts[u]
    ensures user !in carts ==> r[user] == [CartEntry(p, AddAmount(quantity))]
    ensures Holds(r[user], p)
    ensures QuantityOf(r[user], p) == QuantityOf(EntriesOf(carts, user), p) + AddAmount(quantity)
    ensures forall q :: q != p ==> QuantityOf(r[user], q) == QuantityOf(EntriesOf(carts, user), q)
    ensures |r[user]| == if Holds(EntriesOf(carts, user), p) then |EntriesOf(carts, user)| else |EntriesOf(carts, user)| + 1
    ensures forall j :: 0 <= j < |EntriesOf(carts, user)| ==> r[user][j].product == EntriesOf(carts, user)[j].product
    ensures Holds(EntriesOf(carts, user), p) ==> forall j :: 0 <= j < |EntriesOf(carts, user)| ==>
              r[user][j] == if j == FirstIndex(EntriesOf(carts, user), IsProduct(p))
                            then CartEntry(p, EntriesOf(carts, user)[j].quantity + AddAmount(quantity))
                            else EntriesOf(carts, user)[j]
    ensures !Holds(EntriesOf(carts, user), p) ==> r[user] == EntriesOf(carts, user) + [CartEntry(p, AddAmount(quantity))]
    ensures UniqueProducts(EntriesOf(carts, user)) ==> UniqueProducts(r[user])
  {
    carts[user := AddEntry(EntriesOf(carts, user), p, AddAmount(quantity))]
  }

  /** The quantity an update sets: a positive request is kept, a missing or non-positive one becomes 1. */
  function SetAmount(quantity: Option<real>): (q: real)
    ensures q > 0.0
  {
    if quantity.Some? && quantity.value > 0.0 then quantity.value else 1.0
  }

  /** `updateCartQuantity`: set the matching entry's quantity; nothing changes on not-found. */
  function UpdateCartQuantity(carts: CartStore, user: UserId, p: ProductId, quantity: Option<real>): (r: Result<CartStore, Error>)
    ensures r == Err(CartNotFound) <==> user !in carts
    ensures r == Err(ItemNotInCart) <==> user in carts && !Holds(carts[user], p)
    ensures r.Ok? <==> user in carts && Holds(carts[user], p)
    ensures r.Ok? ==> r.value.Keys == carts.Keys
    ensures r.Ok? ==> forall u :: u in carts && u != user ==> r.value[u] == carts[u]
    ensures r.Ok? ==> var before := carts[user]; var after := r.value[user];
      && |after| == |before|
      && (forall j :: 0 <= j < |before| ==> after[j].product == before[j].product)
      && (forall j :: 0 <= j < |before| && before[j].product != p ==> after[j] == before[j])
      && (UniqueProducts(before) ==> UniqueProducts(after))
      && (UniqueProducts(before) ==> QuantityOf(after, p) == SetAmount(quantity))
      && (forall q :: q != p ==> QuantityOf(after, q) == QuantityOf(before, q))
  {
    if user !in carts then Err(CartNotFound)
    else
      var items := carts[user];
      var i := FirstIndex(items, IsProduct(p));
      if i == -1 then Err(ItemNotInCart)
      else
        var after := items[i := CartEntry(p, SetAmount(quantity))];
        assert forall q :: q != p ==> QuantityOf(after, q) == QuantityOf(items, q) by {
          forall q | q != p ensures QuantityOf(after, q) == QuantityOf(items, q) {
            QuantityOfReplace(items, i, after[i], q);
          }
        }
        if UniqueProducts(items) then
          QuantityOfReplace(items, i, after[i], p);
          SoleEntry(items, i);
          assert QuantityOf(after, p) == SetAmount(quantity);
          Ok(carts[user := after])
        else
          Ok(carts[user := after])
  }

  /** In a cart with unique products, the entry at i carries all of that product's quantity. */
  lemma SoleEntry(items: seq<CartEntry>, i: nat)
    requires i < |items| && UniqueProducts(items)
    ensures QuantityOf(items, items[i].product) == items[i].quantity
  {
    var p := items[i].product;
    var before, after := items[..i], items[i + 1..];
    assert items == before + [items[i]] + after;
    assert !Holds(before, p) by {
      forall j | 0 <= j < |before| ensures before[j].product != p {
        assert before[j] == items[j];
      }
    }
    assert !Holds(after, p) by {
      forall j | 0 <= j < |after| ensures after[j].product != p {
        assert after[j] == items[i + 1 + j];
      }
    }
    QuantityOfAbsent(before, p);
    QuantityOfAbsent(after, p);
    QuantityOfAppend(before, items[i], p);
    QuantityOfConcat(before + [items[i]], after, p);
  }

  /** The bag of a concatenation is the sum of the bags. */
  lemma {:induction false} QuantityOfConcat(a: seq<CartEntry>, b: seq<CartEntry>, p: ProductId)
    ensures QuantityOf(a + b, p) == QuantityOf(a, p) + QuantityOf(b, p)
    decreases |a|
  {
    if |a| == 0 {
      assert a + b == b;
    } else {
      assert (a + b)[1..] == a[1..] + b;
      QuantityOfConcat(a[1..], b, p);
    }
  }

  /** `removeFromCart`: drop every entry of the product, keep the others in order. */
  function RemoveFromCart(carts: CartStore, user: UserId, p: ProductId): (r: Result<CartStore, Error>)
    ensures r.Err? <==> user !in carts
    ensures r.Err? ==> r.error == CartNotFound
    ensures r.Ok? ==> r.value.Keys == carts.Keys
    ensures r.Ok? ==> forall u :: u in carts && u != user ==> r.value[u] == carts[u]
    ensures r.Ok? ==> var before := carts[user]; var after := r.value[user];
      && !Holds(after, p)
      && (forall j :: 0 <= j < |after| ==> after[j] in before)
      && (forall j :: 0 <= j < |before| && before[j].product != p ==> before[j] in after)
      && QuantityOf(after, p) == 0.0
      && (forall q :: q != p ==> QuantityOf(after, q) == QuantityOf(before, q))
      && (UniqueProducts(before) ==> UniqueProducts(after))
    ensures r.Ok? ==> r.value[user] == Filter(carts[user], IsNotProduct(p))
  {
    if user !in carts then Err(CartNotFound)
    else
      var before := carts[user];
      var after := Filter(before, IsNotProduct(p));
      QuantityOfRemoved(before, p, p);
      assert forall q :: q != p ==> QuantityOf(after, q) == QuantityOf(before, q) by {
        forall q | q != p ensures QuantityOf(after, q) == QuantityOf(before, q) {
          QuantityOfRemoved(before, p, q);
        }
      }
      if UniqueProducts(before) then
        FilterUnique(before, IsNotProduct(p));
        Ok(carts[user := after])
      else
        Ok(carts[user := after])
  }

  /** Filtering a cart with unique products keeps them unique. */
  lemma {:induction false} FilterUnique(items: seq<CartEntry>, keep: CartEntry -> bool)
    requires UniqueProducts(items)
    ensures UniqueProducts(Filter(items, keep))
    decreases |items|
  {
    if |items| > 0 {
      var tail := items[1..];
      UniqueSplit(items);
      FilterUnique(tail, keep);
      if keep(items[0]) {
        var rest := Filter(tail, keep);
        var r := [items[0]] + rest;
        assert Filter(items, keep) == r;
        FilterAvoids(tail, keep, items[0].product);
        forall i, j | 0 <= i < j < |r| ensures r[i].product != r[j].product {
          assert r[j] == rest[j - 1];
          if i > 0 {
            assert r[i] == rest[i - 1];
          }
        }
      }
    }
  }

  /** A cart with unique products splits into a head whose product the tail does not hold
      and a tail with unique products. */
  lemma UniqueSplit(items: seq<CartEntry>)
    requires UniqueProducts(items) && |items| > 0
    ensures UniqueProducts(items[1..])
    ensures forall k :: 0 <= k < |items[1..]| ==> items[1..][k].product != items[0].product
  {
    var tail := items[1..];
    forall i, j | 0 <= i < j < |tail| ensures tail[i].product != tail[j].product {
      assert tail[i] == items[i + 1] && tail[j] == items[j + 1];
    }
    forall k | 0 <= k < |tail| ensures tail[k].product != items[0].product {
      assert tail[k] == items[k + 1];
    }
  }

  /** Filtering a cart with no entry for product x yields none either. */
  lemma FilterAvoids(items: seq<CartEntry>, keep: CartEntry -> bool, x: ProductId)
    requires forall k :: 0 <= k < |items| ==> items[k].product != x
    ensures forall j :: 0 <= j < |Filter(items, keep)| ==> Filter(items, keep)[j].product != x
  {
    var r := Filter(items, keep);
    forall j | 0 <= j < |r| ensures r[j].product != x {
      assert r[j] in items;
    }
  }

  /** `clearCart`: empty an existing cart; a missing cart is not created. */
  function ClearCart(carts: CartStore, user: UserId): (r: CartStore)
    ensures user !in carts ==> r == carts
    ensures user in carts ==> r.Keys == carts.Keys && r[user] == []
    ensures forall u :: u in carts && u != user ==> r[u] == carts[u]
  {
    if user !in carts then carts else carts[user := []]
  }

  /** Every cart operation keeps at most one entry per product. */
  lemma CartOperationsKeepUnique(carts: CartStore, user: UserId, p: ProductId, quantity: Option<real>)
    requires forall u :: u in carts ==> UniqueProducts(carts[u])
    ensures var r := AddToCart(carts, user, p, quantity); forall u :: u in r ==> UniqueProducts(r[u])
    ensures var r := UpdateCartQuantity(carts, user, p, quantity);
      r.Ok? ==> forall u :: u in r.value ==> UniqueProducts(r.value[u])
    ensures var r := RemoveFromCart(carts, user, p);
      r.Ok? ==> forall u :: u in r.value ==> UniqueProducts(r.value[u])
    ensures var r := ClearCart(carts, user); forall u :: u in r ==> UniqueProducts(r[u])
  {
    assert UniqueProducts(EntriesOf(carts, user));
    AddToCartKeepsUnique(carts, user, p, quantity);
    UpdateAndRemoveKeepUnique(carts, user, p, quantity);
  }

  /** Setting a quantity and removing a product keep every cart free of duplicate products. */
  lemma UpdateAndRemoveKeepUnique(carts: CartStore, user: UserId, p: ProductId, quantity: Option<real>)
    requires forall u :: u in carts ==> UniqueProducts(carts[u])
    ensures var r := UpdateCartQuantity(carts, user, p, quantity);
      r.Ok? ==> forall u :: u in r.value ==> UniqueProducts(r.value[u])
    ensures var r := RemoveFromCart(carts, user, p);
      r.Ok? ==> forall u :: u in r.value ==> UniqueProducts(r.value[u])
  {
    assert UniqueProducts(EntriesOf(carts, user));
  }

  /** Adding to a cart keeps every cart free of duplicate products. */
  lemma AddToCartKeepsUnique(carts: CartStore, user: UserId, p: ProductId, quantity: Option<real>)
    requires forall u :: u in carts ==> UniqueProducts(carts[u])
    ensures var r := AddToCart(carts, user, p, quantity); forall u :: u in r ==> UniqueProducts(r[u])
  {
    var r := AddToCart(carts, user, p, quantity);
    assert UniqueProducts(EntriesOf(carts, user));
    assert UniqueProducts(r[user]);
  }
}
