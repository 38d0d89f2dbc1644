/** The product record and the lookup every component uses on it
    (`Product.findById` on the server, `products.find` on the client). */
module Catalog {
  import opened Wrappers
  import opened Text
  import Sorting

  /** A catalog item. Prices are whole currency units. */
  datatype Product = Product(
    id: string,
    name: string,
    category: string,
    description: seq<string>,
    price: int,
    offerPrice: int,
    image: seq<string>,
    inStock: bool,
    createdAt: int)

  /** The first product with the given id, if any. */
  function FindProduct(products: seq<Product>, id: string): (r: Option<Product>)
    ensures r.Some? ==> r.value in products && r.value.id == id
    ensures r.None? <==> forall i :: 0 <= i < |products| ==> products[i].id != id
  {
    if |products| == 0 then None
    else if products[0].id == id then Some(products[0])
    else FindProduct(products[1..], id)
  }

  /** The order each sort option asks for, as "may come first": the same map
      in the listing page's `switch` and in the search endpoint's sort
      object. Any other option means newest first. */
  function ListingOrder(sort: string): (Product, Product) -> bool
  {
    if sort == "price_low" then (a: Product, b: Product) => a.offerPrice <= b.offerPrice
    else if sort == "price_high" then (a: Product, b: Product) => a.offerPrice >= b.offerPrice
    else if sort == "name_asc" then (a: Product, b: Product) => StrLe(a.name, b.name)
    else if sort == "name_desc" then (a: Product, b: Product) => StrLe(b.name, a.name)
    else (a: Product, b: Product) => a.createdAt >= b.createdAt
  }

  lemma ListingOrderTotal(sort: string)
    ensures Sorting.Total(ListingOrder(sort))
  {
    forall a: Product, b: Product ensures ListingOrder(sort)(a, b) || ListingOrder(sort)(b, a) {
      StrLeTotal(a.name, b.name);
    }
  }

  /** Price sorting orders by offer price in the chosen direction; any
      option other than the four named ones sorts newest first. */
  lemma SortOptions(s: seq<Product>, sort: string)
    requires Sorting.SortedBy(s, ListingOrder(sort))
    ensures sort == "price_low" ==> forall i :: 0 < i < |s| ==> s[i - 1].offerPrice <= s[i].offerPrice
    ensures sort == "price_high" ==> forall i :: 0 < i < |s| ==> s[i - 1].offerPrice >= s[i].offerPrice
    ensures sort == "name_asc" ==> forall i :: 0 < i < |s| ==> StrLe(s[i - 1].name, s[i].name)
    ensures sort == "name_desc" ==> forall i :: 0 < i < |s| ==> StrLe(s[i].name, s[i - 1].name)
    ensures sort !in {"price_low", "price_high", "name_asc", "name_desc"} ==>
      forall i :: 0 < i < |s| ==> s[i - 1].createdAt >= s[i].createdAt
  {
  }
}
