/** The cart page: the cart as a list of products, the order request it
    sends, the quantity selector and the summary figures. */
module CartPage {
  import opened Wrappers
  import opened Constants
  import opened Carts
  import opened Catalog
  import opened Orders
  import AppContext
  import Seqs

  /** A product of the catalog with the cart's quantity attached. */
  datatype CartEntry = CartEntry(product: Product, quantity: int)

  /** A cart line whose key names a product of the catalog. */
  function KnownIn(products: seq<Product>): CartLine -> bool
  {
    (line: CartLine) => FindProduct(products, line.id).Some?
  }

  /** `getCart`: one entry per cart key naming a known product, in cart order.
      Zero quantities are kept. */
  function GetCart(c: Cart, products: seq<Product>): (r: seq<CartEntry>)
    ensures |r| <= |c|
    ensures |r| == |Seqs.Filter(c, KnownIn(products))|
    ensures forall i :: 0 <= i < |r| ==>
      var line := Seqs.Filter(c, KnownIn(products))[i];
      FindProduct(products, line.id).Some? && r[i] == CartEntry(FindProduct(products, line.id).value, line.quantity)
    ensures forall line :: line in c && FindProduct(products, line.id).Some? ==>
      CartEntry(FindProduct(products, line.id).value, line.quantity) in r
    ensures forall e :: e in r ==>
      CartLine(e.product.id, e.quantity) in c && FindProduct(products, e.product.id) == Some(e.product)
  {
    var known := Seqs.Filter(c, KnownIn(products));
    var r := EntriesOf(known, products);
    forall line | line in c && FindProduct(products, line.id).Some?
      ensures CartEntry(FindProduct(products, line.id).value, line.quantity) in r
    {
      assert KnownIn(products)(line);
      assert line in known;
      var i :| 0 <= i < |known| && known[i] == line;
      assert r[i] == CartEntry(FindProduct(products, line.id).value, line.quantity);
    }
    forall e | e in r
      ensures CartLine(e.product.id, e.quantity) in c && FindProduct(products, e.product.id) == Some(e.product)
    {
      var i :| 0 <= i < |r| && r[i] == e;
      assert known[i] in c;
    }
    r
  }

  /** The entries for cart lines that all name known products, line by line. */
  function EntriesOf(known: seq<CartLine>, products: seq<Product>): (r: seq<CartEntry>)
    requires forall i :: 0 <= i < |known| ==> FindProduct(products, known[i].id).Some?
    ensures |r| == |known|
    ensures forall i :: 0 <= i < |r| ==> r[i] == CartEntry(FindProduct(products, known[i].id).value, known[i].quantity)
  {
    if |known| == 0 then []
    else [CartEntry(FindProduct(products, known[0].id).value, known[0].quantity)] + EntriesOf(known[1..], products)
  }

  /** What the summary's subtotal adds up over the entries. */
  function EntriesAmount(entries: seq<CartEntry>): int
  {
    if |entries| == 0 then 0
    else (if entries[0].quantity > 0 then entries[0].product.offerPrice * entries[0].quantity else 0)
         + EntriesAmount(entries[1..])
  }

  /** The cart amount is the amount of the listed entries: the entries drop
      exactly the lines the amount ignores for an unknown product. */
  lemma {:induction false} CartAmountOverEntries(c: Cart, products: seq<Product>)
    ensures AppContext.CartAmount(c, products) == EntriesAmount(GetCart(c, products))
  {
    if |c| > 0 {
      CartAmountOverEntries(c[1..], products);
      match FindProduct(products, c[0].id)
      case None =>
      case Some(p) =>
        var rest := GetCart(c[1..], products);
        assert ([CartEntry(p, c[0].quantity)] + rest)[1..] == rest;
    }
  }

  /** The request `placeOrder` sends. */
  datatype OrderRequest = OrderRequest(endpoint: string, items: seq<OrderItem>, address: string)

  /** `placeOrder`: nothing is sent without a selected address; otherwise the
      entries go, as product id and quantity, to the COD or the Stripe route. */
  function PlaceOrderRequest(selectedAddress: Option<string>, paymentOption: string, entries: seq<CartEntry>): (r: Option<OrderRequest>)
    ensures r.None? <==> selectedAddress.None?
    ensures r.Some? ==> r.value.address == selectedAddress.value
    ensures r.Some? ==> r.value.endpoint == (if paymentOption == "COD" then "/api/order/cod" else "/api/order/stripe")
    ensures r.Some? ==> |r.value.items| == |entries|
    ensures r.Some? ==> forall i :: 0 <= i < |entries| ==>
      r.value.items[i].product == entries[i].product.id && r.value.items[i].quantity == entries[i].quantity
  {
    match selectedAddress
    case None => None
    case Some(address) =>
      var items := seq(|entries|, i requires 0 <= i < |entries| => OrderItem(entries[i].product.id, entries[i].quantity));
      Some(OrderRequest(if paymentOption == "COD" then "/api/order/cod" else "/api/order/stripe", items, address))
  }

  /** The cart after `placeOrder`: emptied by a successful COD order, and
      otherwise kept (a Stripe order is emptied server-side once paid). */
  function CartAfterOrder(c: Cart, paymentOption: string, accepted: bool): (r: Cart)
    ensures r == [] <==> (paymentOption == "COD" && accepted) || c == []
    ensures r != [] ==> r == c
  {
    if paymentOption == "COD" && accepted then [] else c
  }

  /** When every quantity is positive, the server prices the submitted items
      at the subtotal the page showed (both read the same catalog). */
  lemma {:induction false} ServerSubtotalMatchesCart(c: Cart, products: seq<Product>, address: string, option: string)
    requires AppContext.AllPositive(c)
    ensures
      var req := PlaceOrderRequest(Some(address), option, GetCart(c, products)).value;
      Subtotal(req.items, products) == AppContext.CartAmount(c, products)
  {
    var entries := GetCart(c, products);
    var req := PlaceOrderRequest(Some(address), option, entries).value;
    EntriesSubtotal(entries, req.items, products);
    CartAmountOverEntries(c, products);
  }

  lemma {:induction false} EntriesSubtotal(entries: seq<CartEntry>, items: seq<OrderItem>, products: seq<Product>)
    requires |items| == |entries|
    requires forall i :: 0 <= i < |entries| ==>
      items[i] == OrderItem(entries[i].product.id, entries[i].quantity) &&
      entries[i].quantity > 0 && FindProduct(products, entries[i].product.id) == Some(entries[i].product)
    ensures Subtotal(items, products) == EntriesAmount(entries)
  {
    if |entries| > 0 {
      EntriesSubtotal(entries[1..], items[1..], products);
    }
  }

  /** The quantity selector: 1 up to the larger of 9 and the current quantity. */
  function QuantityOptions(current: int): (r: seq<int>)
    ensures |r| == if current > 9 then current else 9
    ensures forall i :: 0 <= i < |r| ==> r[i] == i + 1
    ensures forall q :: 1 <= q <= 9 || 1 <= q <= current ==> q in r
  {
    var n := if current > 9 then current else 9;
    var r := seq(n, i requires 0 <= i < n => i + 1);
    assert forall q | 1 <= q <= n :: q in r by {
      forall q | 1 <= q <= n ensures q in r {
        assert r[q - 1] == q;
      }
    }
    r
  }

  /** The summary's tax, `Math.floor(amount * 0.02 * 100) / 100`, in paise:
      the exact 2 %, kept to two decimals. */
  function DisplayedTaxPaise(amount: int): int
  {
    TAX_PERCENT * amount
  }

  /** The summary's total in paise. */
  function DisplayedTotalPaise(amount: int): (t: int)
    ensures t == 102 * amount
  {
    100 * amount + DisplayedTaxPaise(amount)
  }

  /** The page shows more than the server stores by the dropped fraction of the
      tax, and the two agree exactly when the subtotal is a multiple of 50. */
  lemma DisplayedTotalVersusStored(amount: int)
    ensures DisplayedTotalPaise(amount) - 100 * OrderAmount(amount) == (2 * amount) % 100
    ensures DisplayedTotalPaise(amount) == 100 * OrderAmount(amount) <==> amount % 50 == 0
  {
  }

  /** The empty-cart view is shown when the count is 0. */
  predicate ShowsEmptyCart(c: Cart)
  {
    Count(c) == 0
  }

  /** With positive quantities the empty view is shown exactly for the empty cart. */
  lemma {:induction false} EmptyViewIffNoLines(c: Cart)
    requires AppContext.AllPositive(c)
    ensures ShowsEmptyCart(c) <==> c == []
  {
    if |c| > 0 {
      EmptyViewIffNoLines(c[1..]);
      CountPositive(c[1..]);
    }
  }

  lemma {:induction false} CountPositive(c: Cart)
    requires AppContext.AllPositive(c)
    ensures Count(c) >= |c|
  {
    if |c| > 0 {
      CountPositive(c[1..]);
    }
  }

  /** A cart whose only entry was set to 0 shows the empty view although it holds a key. */
  lemma ZeroEntryLooksEmpty()
    ensures ShowsEmptyCart([CartLine("p", 0)])
  {
  }
}
