/** The seller's product endpoints and the public search endpoint. The
    legacy product controller has the same guards, messages and statuses as
    the current one, so the members here model both. */
module Products {
  import opened Wrappers
  import opened Catalog
  import opened Text
  import Seqs
  import Sorting
  import Paging
  import ProductFilters

  datatype CatalogOutcome<T> = CatalogOutcome(reply: Reply<T>, products: seq<Product>)

  const INVALID_PRODUCT_DATA: string := "Invalid product data format"
  const IMAGE_REQUIRED: string := "At least one product image is required"
  const ID_REQUIRED: string := "Product ID is required"
  const PRODUCT_NOT_FOUND: string := "Product not found"

  /** `addProduct`. `productData` is None when the submitted JSON does not
      parse; `files` are the uploaded file paths and `upload` gives the URL
      the image host returns for each; `newId` and `now` are what the
      database assigns. */
  function AddProduct(products: seq<Product>, productData: Option<Product>, files: seq<string>,
                      upload: string -> string, newId: string, now: int): (r: CatalogOutcome<Product>)
    ensures productData.None? ==> r == CatalogOutcome(Err(400, INVALID_PRODUCT_DATA), products)
    ensures productData.Some? && |files| == 0 ==> r == CatalogOutcome(Err(400, IMAGE_REQUIRED), products)
    ensures r.reply.Ok? <==> productData.Some? && |files| > 0
    ensures r.reply.Ok? ==> r.reply.status == 201 && r.products == products + [r.reply.value]
    ensures r.reply.Ok? ==> |r.reply.value.image| == |files|
    ensures r.reply.Ok? ==> forall i :: 0 <= i < |files| ==> r.reply.value.image[i] == upload(files[i])
  {
    if productData.None? then CatalogOutcome(Err(400, INVALID_PRODUCT_DATA), products)
    else if |files| == 0 then CatalogOutcome(Err(400, IMAGE_REQUIRED), products)
    else
      var urls := seq(|files|, i requires 0 <= i < |files| => upload(files[i]));
      var p := productData.value.(id := newId, image := urls, createdAt := now);
      CatalogOutcome(Ok(201, "Product added successfully", p), products + [p])
  }

  /** Apart from the images and what the database assigns, the stored
      product is the submitted data. */
  lemma AddProductKeepsData(products: seq<Product>, data: Product, files: seq<string>,
                            upload: string -> string, newId: string, now: int)
    requires |files| > 0
    ensures var p := AddProduct(products, Some(data), files, upload, newId, now).reply.value;
      p.(image := data.image, id := data.id, createdAt := data.createdAt) == data
  {
  }

  /** `productList`: every product, newest first. */
  function ProductList(products: seq<Product>): (r: seq<Product>)
    ensures multiset(r) == multiset(products)
    ensures forall i :: 0 < i < |r| ==> r[i - 1].createdAt >= r[i].createdAt
  {
    ListingOrderTotal("newest");
    var r := Sorting.SortBy(products, ListingOrder("newest"));
    SortOptions(r, "newest");
    r
  }

  /** `getCategories`: each category in use, once. The database returns them
      in its own order; this model lists them by first appearance. */
  function Categories(products: seq<Product>): (r: seq<string>)
    ensures forall c :: c in r <==> exists i :: 0 <= i < |products| && products[i].category == c
    ensures forall i, j :: 0 <= i < j < |r| ==> r[i] != r[j]
  {
    if |products| == 0 then []
    else
      var init := products[..|products| - 1];
      var rest := Categories(init);
      var c := products[|products| - 1].category;
      assert forall i :: 0 <= i < |init| ==> init[i] == products[i];
      if c in rest then rest else rest + [c]
  }

  /** `productById`. */
  function ProductById(products: seq<Product>, id: string): (r: Reply<Product>)
    ensures id == "" <==> r == Err(400, ID_REQUIRED)
    ensures r.Ok? ==> r.status == 200 && r.value in products && r.value.id == id
    ensures id != "" && (forall i :: 0 <= i < |products| ==> products[i].id != id) ==> r == Err(404, PRODUCT_NOT_FOUND)
    ensures id != "" && FindProduct(products, id).Some? ==>
      r == Ok(200, "Product fetched successfully", FindProduct(products, id).value)
  {
    if id == "" then Err(400, ID_REQUIRED)
    else match FindProduct(products, id)
      case None => Err(404, PRODUCT_NOT_FOUND)
      case Some(p) => Ok(200, "Product fetched successfully", p)
  }

  /** The catalog with the first product of the given id set to `inStock`. */
  function SetStock(products: seq<Product>, id: string, inStock: bool): (r: seq<Product>)
    ensures |r| == |products|
    ensures forall i :: 0 <= i < |r| ==> r[i] == products[i] || (products[i].id == id && r[i] == products[i].(inStock := inStock))
    ensures forall i :: 0 <= i < |r| ==> r[i].id == products[i].id
    ensures FindProduct(products, id).None? ==> r == products
    ensures FindProduct(products, id).Some? ==> FindProduct(r, id) == Some(FindProduct(products, id).value.(inStock := inStock))
  {
    if |products| == 0 then []
    else if products[0].id == id then [products[0].(inStock := inStock)] + products[1..]
    else [products[0]] + SetStock(products[1..], id, inStock)
  }

  /** `changeStock`: only `inStock` of the product with that id changes. */
  function ChangeStock(products: seq<Product>, id: string, inStock: bool): (r: CatalogOutcome<Product>)
    ensures id == "" ==> r == CatalogOutcome(Err(400, ID_REQUIRED), products)
    ensures id != "" && FindProduct(products, id).None? ==> r == CatalogOutcome(Err(404, PRODUCT_NOT_FOUND), products)
    ensures r.reply.Ok? <==> id != "" && FindProduct(products, id).Some?
    ensures r.reply.Ok? ==> r.reply.status == 200 && r.reply.value == FindProduct(products, id).value.(inStock := inStock)
    ensures r.reply.Ok? ==> FindProduct(r.products, id) == Some(r.reply.value)
    ensures |r.products| == |products|
    ensures forall i :: 0 <= i < |products| ==> r.products[i].(inStock := products[i].inStock) == products[i]
    ensures forall i :: 0 <= i < |products| && products[i].id != id ==> r.products[i] == products[i]
  {
    if id == "" then CatalogOutcome(Err(400, ID_REQUIRED), products)
    else match FindProduct(products, id)
      case None => CatalogOutcome(Err(404, PRODUCT_NOT_FOUND), products)
      case Some(p) =>
        var updated := SetStock(products, id, inStock);
        CatalogOutcome(Ok(200, "Stock updated successfully", p.(inStock := inStock)), updated)
  }

  /** Setting the same stock flag twice is setting it once. */
  lemma {:induction false} SetStockTwice(products: seq<Product>, id: string, inStock: bool)
    ensures SetStock(SetStock(products, id, inStock), id, inStock) == SetStock(products, id, inStock)
  {
    if |products| > 0 && products[0].id != id {
      SetStockTwice(products[1..], id, inStock);
    }
  }

  /** A stock change is visible to the next lookup. */
  lemma ChangeStockThenFetch(products: seq<Product>, id: string, inStock: bool)
    requires ChangeStock(products, id, inStock).reply.Ok?
    ensures var r := ChangeStock(products, id, inStock);
      ProductById(r.products, id) == Ok(200, "Product fetched successfully", r.reply.value)
  {
  }

  /** What the search endpoint receives. Empty strings stand for absent
      parameters; a price bound is None when absent or empty. */
  datatype SearchRequest = SearchRequest(
    q: string, category: string, minPrice: Option<int>, maxPrice: Option<int>,
    sort: string, inStock: string, page: int, limit: int)

  /** The database filter the endpoint builds. Each field is None when the
      request leaves it out. */
  datatype Query = Query(
    nameOrCategory: Option<string>, categoryPattern: Option<string>,
    minPrice: Option<int>, maxPrice: Option<int>, inStockOnly: bool)

  /** The filter built from the request. */
  function BuildQuery(req: SearchRequest): Query
  {
    Query(
      if req.q != "" then Some(req.q) else None,
      if req.category != "" && req.category != "all" then Some(req.category) else None,
      req.minPrice,
      req.maxPrice,
      req.inStock == "true")
  }

  /** Whether a product matches the database filter. `matches(pattern, text)`
      is the database's case-insensitive regular-expression test. */
  predicate Satisfies(p: Product, query: Query, matches: (string, string) -> bool)
  {
    && (query.nameOrCategory.None? || matches(query.nameOrCategory.value, p.name) || matches(query.nameOrCategory.value, p.category))
    && (query.categoryPattern.None? || matches(query.categoryPattern.value, p.category))
    && (query.minPrice.None? || p.offerPrice >= query.minPrice.value)
    && (query.maxPrice.None? || p.offerPrice <= query.maxPrice.value)
    && (!query.inStockOnly || p.inStock)
  }

  /** The products a search request asks for, read off the request itself. */
  ghost predicate Wanted(p: Product, req: SearchRequest, matches: (string, string) -> bool)
  {
    && (req.q == "" || matches(req.q, p.name) || matches(req.q, p.category))
    && (req.category in {"", "all"} || matches(req.category, p.category))
    && (forall lo | req.minPrice == Some(lo) :: p.offerPrice >= lo)
    && (forall hi | req.maxPrice == Some(hi) :: p.offerPrice <= hi)
    && (req.inStock == "true" ==> p.inStock)
  }

  /** The built filter keeps exactly the products the request asks for. */
  lemma QueryMeansRequest(p: Product, req: SearchRequest, matches: (string, string) -> bool)
    ensures Satisfies(p, BuildQuery(req), matches) <==> Wanted(p, req, matches)
  {
  }

  function SatisfiesFor(query: Query, matches: (string, string) -> bool): Product -> bool
  {
    (p: Product) => Satisfies(p, query, matches)
  }

  datatype Pagination = Pagination(currentPage: int, totalPages: nat, totalProducts: nat, hasMore: bool)
  datatype SearchResult = SearchResult(products: seq<Product>, pagination: Pagination)

  /** `searchProducts`: filter, sort, skip and limit, and the page summary. */
  function SearchProducts(catalog: seq<Product>, req: SearchRequest, matches: (string, string) -> bool): (r: Reply<SearchResult>)
    requires req.page >= 1 && req.limit >= 1
    ensures r.Ok? && r.status == 200
    ensures forall p :: p in r.value.products ==> p in catalog && Wanted(p, req, matches)
    ensures |r.value.products| <= req.limit
    ensures Sorting.SortedBy(r.value.products, ListingOrder(req.sort))
    ensures r.value.pagination.totalProducts == |Seqs.Filter(catalog, SatisfiesFor(BuildQuery(req), matches))|
    ensures r.value.pagination.currentPage == req.page
    ensures r.value.pagination.hasMore <==> req.page < r.value.pagination.totalPages
    ensures r.value.pagination.totalPages * req.limit >= r.value.pagination.totalProducts
    ensures r.value.pagination.totalPages == Paging.TotalPages(r.value.pagination.totalProducts, req.limit)
    ensures r.value.products == Paging.Page(Sorted(catalog, req, matches), req.page, req.limit)
  {
    var sorted := Sorted(catalog, req, matches);
    var page := Paging.Page(sorted, req.page, req.limit);
    SearchPageFacts(catalog, req, matches);
    Paging.HasMoreIffNotLastPage(sorted, req.page, req.limit);
    var total := |sorted|;
    Ok(200, "Products fetched successfully",
       SearchResult(page, Pagination(req.page, Paging.TotalPages(total, req.limit), total, Paging.Skip(req.page, req.limit) + |page| < total)))
  }

  /** Paging loses no match: a catalog product the query selects is shown on
      some page of the same search. */
  lemma EveryMatchIsOnSomePage(catalog: seq<Product>, req: SearchRequest, matches: (string, string) -> bool, p: Product)
    requires req.limit >= 1
    requires p in catalog && Satisfies(p, BuildQuery(req), matches)
    ensures exists n :: n >= 1 && p in SearchProducts(catalog, req.(page := n), matches).value.products
  {
    MatchIsSorted(catalog, req, matches, p);
    Paging.OnSomePage(Sorted(catalog, req, matches), p, req.limit);
    var n :| n >= 1 && p in Paging.Page(Sorted(catalog, req, matches), n, req.limit);
    OnSortedPageIsShown(catalog, req, matches, n, p);
  }

  /** A catalog product the query selects is among the sorted matches. */
  lemma MatchIsSorted(catalog: seq<Product>, req: SearchRequest, matches: (string, string) -> bool, p: Product)
    requires p in catalog && Satisfies(p, BuildQuery(req), matches)
    ensures p in Sorted(catalog, req, matches)
  {
    var found := Seqs.Filter(catalog, SatisfiesFor(BuildQuery(req), matches));
    assert SatisfiesFor(BuildQuery(req), matches)(p);
    assert p in found;
    assert p in multiset(found);
  }

  /** What lies on page `n` of the sorted matches is what the search for page `n` shows. */
  lemma OnSortedPageIsShown(catalog: seq<Product>, req: SearchRequest, matches: (string, string) -> bool, n: int, p: Product)
    requires n >= 1 && req.limit >= 1
    requires p in Paging.Page(Sorted(catalog, req, matches), n, req.limit)
    ensures p in SearchProducts(catalog, req.(page := n), matches).value.products
  {
    PageIgnoresPageNumber(catalog, req, matches, n);
  }

  /** The page number plays no part in which products match or how they sort. */
  lemma PageIgnoresPageNumber(catalog: seq<Product>, req: SearchRequest, matches: (string, string) -> bool, n: int)
    ensures Sorted(catalog, req.(page := n), matches) == Sorted(catalog, req, matches)
  {
    assert BuildQuery(req.(page := n)) == BuildQuery(req);
  }

  /** Every matching product, in the requested order: `find(query).sort(sortOption)`. */
  function Sorted(catalog: seq<Product>, req: SearchRequest, matches: (string, string) -> bool): (r: seq<Product>)
    ensures |r| == |Seqs.Filter(catalog, SatisfiesFor(BuildQuery(req), matches))|
    ensures multiset(r) == multiset(Seqs.Filter(catalog, SatisfiesFor(BuildQuery(req), matches)))
    ensures Sorting.SortedBy(r, ListingOrder(req.sort))
  {
    ListingOrderTotal(req.sort);
    Sorting.SortBy(Seqs.Filter(catalog, SatisfiesFor(BuildQuery(req), matches)), ListingOrder(req.sort))
  }

  /** The page the search returns is sorted and holds only wanted products. */
  lemma SearchPageFacts(catalog: seq<Product>, req: SearchRequest, matches: (string, string) -> bool)
    requires req.page >= 1 && req.limit >= 1
    ensures var page := Paging.Page(Sorted(catalog, req, matches), req.page, req.limit);
      Sorting.SortedBy(page, ListingOrder(req.sort)) && forall p :: p in page ==> p in catalog && Wanted(p, req, matches)
  {
    var found := Seqs.Filter(catalog, SatisfiesFor(BuildQuery(req), matches));
    var sorted := Sorted(catalog, req, matches);
    var page := Paging.Page(sorted, req.page, req.limit);
    Paging.PageKeepsOrder(sorted, req.page, req.limit, ListingOrder(req.sort));
    forall p | p in page ensures p in catalog && Wanted(p, req, matches) {
      assert p in multiset(sorted);
      assert p in found;
      QueryMeansRequest(p, req, matches);
    }
  }

  /** The request the listing page's filters correspond to. */
  function RequestFor(query: string, f: ProductFilters.Filters): SearchRequest
  {
    SearchRequest(query, f.category, f.minPrice, f.maxPrice, f.sort, if f.inStock then "true" else "", 1, 12)
  }

  /** With the database's pattern test read as a case-insensitive substring
      test, every product the listing page keeps is also one the search
      endpoint returns for the same filters. */
  lemma ClientKeepsWithinServer(p: Product, query: string, f: ProductFilters.Filters, matches: (string, string) -> bool)
    requires forall pattern, text :: matches(pattern, text) == IncludesIgnoreCase(text, pattern)
    requires ProductFilters.Keep(p, query, f)
    ensures Wanted(p, RequestFor(query, f), matches)
  {
    if f.category != "all" && f.category != "" {
      var s := ToLower(p.category);
      assert StartsWith(s, s);
      assert matches(f.category, p.category);
    }
  }

  /** The converse fails: the endpoint's category test is a partial match,
      so "fruits" also finds the "Dry Fruits" aisle, which the listing
      page's exact comparison drops. */
  lemma PartialCategoryMatch(p: Product, matches: (string, string) -> bool)
    requires forall pattern, text :: matches(pattern, text) == IncludesIgnoreCase(text, pattern)
    requires p.category == "Dry Fruits"
    ensures var f := ProductFilters.Filters("fruits", None, None, "newest", false);
      Wanted(p, RequestFor("", f), matches) && !ProductFilters.Keep(p, "", f)
  {
    var lower := ToLower(p.category);
    assert lower == "dry fruits";
    assert ToLower("fruits") == "fruits";
    assert lower[4..] == "fruits";
    assert StartsWith(lower[4..], "fruits");
    assert Contains(lower[3..], "fruits");
    assert Contains(lower[2..], "fruits");
    assert Contains(lower[1..], "fruits");
    assert Contains(lower, "fruits");
  }
}
