/** The storefront's client-side state: the cart map edited by the product
    pages and the optimistically updated wishlist. */
module AppContext {
  import opened Wrappers
  import opened Carts
  import opened Catalog
  import Seqs
  import Wishlist

  /** `addToCart`: one more of a present, nonzero entry; otherwise exactly one. */
  function AddToCart(c: Cart, id: string): (r: Cart)
    ensures Get(r, id) == Some(if QuantityOr0(c, id) != 0 then QuantityOr0(c, id) + 1 else 1)
    ensures forall k :: k != id ==> Get(r, k) == Get(c, k)
    ensures WellFormed(c) ==> WellFormed(r)
    ensures Count(r) == Count(c) + 1
  {
    var q := QuantityOr0(c, id);
    var v := if q != 0 then q + 1 else 1;
    CountPut(c, id, v);
    Put(c, id, v)
  }

  /** `updateCartItem`: the entry becomes exactly `q`, kept even when `q` is 0. */
  function UpdateCartItem(c: Cart, id: string, q: int): (r: Cart)
    ensures Get(r, id) == Some(q)
    ensures forall k :: k != id ==> Get(r, k) == Get(c, k)
    ensures WellFormed(c) ==> WellFormed(r)
  {
    Put(c, id, q)
  }

  /** `removeFromCart`: decrements a present, nonzero entry and drops the key
      when it reaches 0; an absent or zero entry leaves the cart as it was. */
  function RemoveFromCart(c: Cart, id: string): (r: Cart)
    ensures QuantityOr0(c, id) == 0 ==> r == c
    ensures QuantityOr0(c, id) == 1 ==> Get(r, id).None?
    ensures QuantityOr0(c, id) !in {0, 1} ==> Get(r, id) == Some(QuantityOr0(c, id) - 1)
    ensures forall k :: k != id ==> Get(r, k) == Get(c, k)
    ensures WellFormed(c) ==> WellFormed(r)
  {
    var q := QuantityOr0(c, id);
    if q == 0 then c
    else if q - 1 == 0 then Delete(c, id)
    else Put(c, id, q - 1)
  }

  /** Removing takes exactly one from the count of a well-formed cart, unless
      the entry is absent or zero. */
  lemma RemoveFromCartCount(c: Cart, id: string)
    requires WellFormed(c)
    ensures Count(RemoveFromCart(c, id)) == Count(c) - (if QuantityOr0(c, id) != 0 then 1 else 0)
  {
    var q := QuantityOr0(c, id);
    if q == 1 {
      CountDelete(c, id);
    } else if q != 0 {
      CountPut(c, id, q - 1);
    }
  }

  /** Adding an item and removing it again restores the cart exactly when the
      entry was not 0 or -1 beforehand. */
  lemma RemoveUndoesAdd(c: Cart, id: string)
    ensures RemoveFromCart(AddToCart(c, id), id) == c <==> Get(c, id) !in {Some(0), Some(-1)}
  {
    match Get(c, id)
    case None =>
      DeleteAfterPutNew(c, id, 1);
    case Some(q) =>
      if q != 0 && q != -1 {
        PutPut(c, id, q + 1, q);
        PutSame(c, id, q);
      } else {
        assert Get(RemoveFromCart(AddToCart(c, id), id), id) != Get(c, id);
      }
  }

  /** All quantities are positive, as they are when only the product pages edit the cart. */
  predicate AllPositive(c: Cart)
  {
    forall i :: 0 <= i < |c| ==> c[i].quantity >= 1
  }

  /** In a cart of positive quantities, removing after adding is the identity. */
  lemma RemoveUndoesAddPositive(c: Cart, id: string)
    requires AllPositive(c)
    ensures RemoveFromCart(AddToCart(c, id), id) == c
  {
    GetPositive(c, id);
    RemoveUndoesAdd(c, id);
  }

  lemma {:induction false} GetPositive(c: Cart, id: string)
    requires AllPositive(c)
    ensures Get(c, id).Some? ==> Get(c, id).value >= 1
  {
    if |c| > 0 && c[0].id != id {
      GetPositive(c[1..], id);
    }
  }

  /** `getCartCount`: the loop over the cart's keys. */
  method GetCartCount(c: Cart) returns (total: int)
    ensures total == Count(c)
  {
    total := 0;
    for i := 0 to |c|
      invariant total + Count(c[i..]) == Count(c)
    {
      assert c[i..][1..] == c[i + 1..];
      total := total + c[i].quantity;
    }
    assert c[|c|..] == [];
  }

  /** What one cart line contributes to the amount: nothing for an unknown
      product or a non-positive quantity. */
  function LineAmount(line: CartLine, products: seq<Product>): int
  {
    match FindProduct(products, line.id)
    case Some(p) => if line.quantity > 0 then p.offerPrice * line.quantity else 0
    case None => 0
  }

  /** The cart's value at offer prices. */
  function CartAmount(c: Cart, products: seq<Product>): (r: int)
    ensures (forall i :: 0 <= i < |products| ==> products[i].offerPrice >= 0) ==> r >= 0
    ensures (forall i :: 0 <= i < |c| ==> FindProduct(products, c[i].id).None?) ==> r == 0
  {
    if |c| == 0 then 0 else LineAmount(c[0], products) + CartAmount(c[1..], products)
  }

  /** `getCartAmount`: the loop over the cart's keys, in whole currency units. */
  method GetCartAmount(c: Cart, products: seq<Product>) returns (total: int)
    ensures total == CartAmount(c, products)
  {
    total := 0;
    for i := 0 to |c|
      invariant total + CartAmount(c[i..], products) == CartAmount(c, products)
    {
      assert c[i..][1..] == c[i + 1..];
      total := total + LineAmount(c[i], products);
    }
    assert c[|c|..] == [];
  }

  /** A new cart line adds its own contribution and leaves the rest of the amount alone. */
  lemma {:induction false} CartAmountPut(c: Cart, products: seq<Product>, id: string, q: int)
    requires WellFormed(c) && Get(c, id).None?
    ensures CartAmount(Put(c, id, q), products) == CartAmount(c, products) + LineAmount(CartLine(id, q), products)
  {
    CartAmountAppend(c, [CartLine(id, q)], products);
  }

  lemma {:induction false} CartAmountAppend(a: Cart, b: Cart, products: seq<Product>)
    ensures CartAmount(a + b, products) == CartAmount(a, products) + CartAmount(b, products)
  {
    if |a| > 0 {
      assert (a + b)[1..] == a[1..] + b;
      CartAmountAppend(a[1..], b, products);
    } else {
      assert a + b == b;
    }
  }

  /** `toggleWishlist` on the client. Logged out, nothing changes. Otherwise the
      list is updated at once and restored when the server does not accept
      the toggle (`serverAccepted` is false on `success: false` and on a failed request). */
  function ToggleWishlist(loggedIn: bool, w: seq<string>, productId: string, serverAccepted: bool): (r: seq<string>)
    ensures !loggedIn || !serverAccepted ==> r == w
    ensures loggedIn && serverAccepted ==> (productId in r <==> productId !in w)
    ensures loggedIn && serverAccepted ==> forall x :: x != productId ==> (x in r <==> x in w)
  {
    if !loggedIn then w
    else
      var optimistic := if productId in w then Seqs.Filter(w, id => id != productId) else w + [productId];
      if serverAccepted then optimistic else w
  }

  /** When the server accepts, the client's list is the one the server stored. */
  lemma ClientAgreesWithServer(w: seq<string>, productId: string)
    ensures ToggleWishlist(true, w, productId, true) == Wishlist.Toggled(w, productId)
  {
    if productId in w {
      Seqs.FilterExtensional(w, id => id != productId, id => id != productId);
    }
  }

  /** A wishlist entry whose product still exists. */
  function Populated(): Option<string> -> bool
  {
    (e: Option<string>) => e.Some?
  }

  /** The populated wishlist entries, ids or `null` for a deleted product:
      the id of every non-null entry, in order, duplicates kept. */
  function NonNullIds(entries: seq<Option<string>>): (r: seq<string>)
    ensures |r| == |Seqs.Filter(entries, Populated())|
    ensures forall i :: 0 <= i < |r| ==> Seqs.Filter(entries, Populated())[i] == Some(r[i])
    ensures forall id :: id in r <==> Some(id) in entries
  {
    var r := IdsOf(Seqs.Filter(entries, Populated()));
    forall id ensures id in r <==> Some(id) in entries {
      if id in r {
        var i :| 0 <= i < |r| && r[i] == id;
      }
      if Some(id) in entries {
        var kept := Seqs.Filter(entries, Populated());
        assert Some(id) in kept;
        var i :| 0 <= i < |kept| && kept[i] == Some(id);
        assert r[i] == id;
      }
    }
    r
  }

  /** The ids carried by entries that are all populated, in order. */
  function IdsOf(kept: seq<Option<string>>): (r: seq<string>)
    requires forall i :: 0 <= i < |kept| ==> kept[i].Some?
    ensures |r| == |kept|
    ensures forall i :: 0 <= i < |r| ==> kept[i] == Some(r[i])
  {
    if |kept| == 0 then [] else [kept[0].value] + IdsOf(kept[1..])
  }

  /** `fetchWishlist`: empty when logged out; unchanged when the request fails
      (`fetched` is None); otherwise the ids of the entries that are not null. */
  function FetchWishlist(loggedIn: bool, fetched: Option<seq<Option<string>>>, current: seq<string>): (r: seq<string>)
    ensures !loggedIn ==> r == []
    ensures loggedIn && fetched.None? ==> r == current
    ensures loggedIn && fetched.Some? ==>
      |r| <= |fetched.value| && forall id :: id in r <==> Some(id) in fetched.value
    ensures loggedIn && fetched.Some? ==>
      |r| == |Seqs.Filter(fetched.value, Populated())| &&
      forall i :: 0 <= i < |r| ==> Seqs.Filter(fetched.value, Populated())[i] == Some(r[i])
  {
    if !loggedIn then []
    else match fetched
      case None => current
      case Some(entries) => NonNullIds(entries)
  }
}
