/** The product listing page's filter-and-sort pipeline. */
module ProductFilters {
  import opened Wrappers
  import opened Catalog
  import opened Text
  import Seqs
  import Sorting

  /** The sidebar state; an empty price field is None. */
  datatype Filters = Filters(category: string, minPrice: Option<int>, maxPrice: Option<int>, sort: string, inStock: bool)

  predicate MatchesSearch(p: Product, query: string)
  {
    IncludesIgnoreCase(p.name, query) || IncludesIgnoreCase(p.category, query)
  }

  /** Each stage as a test, and whether the stage runs. */
  function SearchStage(query: string): Product -> bool { (p: Product) => query == "" || MatchesSearch(p, query) }
  function CategoryStage(category: string): Product -> bool { (p: Product) => category == "all" || EqualsIgnoreCase(p.category, category) }
  function MinStage(minPrice: Option<int>): Product -> bool { (p: Product) => minPrice.None? || p.offerPrice >= minPrice.value }
  function MaxStage(maxPrice: Option<int>): Product -> bool { (p: Product) => maxPrice.None? || p.offerPrice <= maxPrice.value }
  function StockStage(inStock: bool): Product -> bool { (p: Product) => !inStock || p.inStock }

  /** One optional stage: the filter runs only when its field is set. */
  function Stage(s: seq<Product>, run: bool, test: Product -> bool): seq<Product>
  {
    if run then Seqs.Filter(s, test) else s
  }

  /** Whether stage n (1 to 5) runs, and its test. */
  predicate Runs(n: nat, query: string, f: Filters)
  {
    if n == 1 then query != ""
    else if n == 2 then f.category != "all"
    else if n == 3 then f.minPrice.Some?
    else if n == 4 then f.maxPrice.Some?
    else f.inStock
  }

  function StageTest(n: nat, query: string, f: Filters): Product -> bool
  {
    if n == 1 then SearchStage(query)
    else if n == 2 then CategoryStage(f.category)
    else if n == 3 then MinStage(f.minPrice)
    else if n == 4 then MaxStage(f.maxPrice)
    else StockStage(f.inStock)
  }

  /** The first n stages, one filter after another as the page applies them. */
  function StagedUpTo(products: seq<Product>, n: nat, query: string, f: Filters): (r: seq<Product>)
    ensures forall p :: p in r ==> p in products
  {
    if n == 0 then products
    else Stage(StagedUpTo(products, n - 1, query, f), Runs(n, query, f), StageTest(n, query, f))
  }

  /** Steps 1 to 4 of the listing page: search, category, price range, stock. */
  function Staged(products: seq<Product>, query: string, f: Filters): (r: seq<Product>)
    ensures forall p :: p in r ==> p in products
  {
    StagedUpTo(products, 5, query, f)
  }

  /** The single test a product must pass to be listed. */
  predicate Keep(p: Product, query: string, f: Filters)
  {
    && (query == "" || MatchesSearch(p, query))
    && (f.category == "all" || EqualsIgnoreCase(p.category, f.category))
    && (f.minPrice.None? || p.offerPrice >= f.minPrice.value)
    && (f.maxPrice.None? || p.offerPrice <= f.maxPrice.value)
    && (!f.inStock || p.inStock)
  }

  function KeepFor(query: string, f: Filters): Product -> bool
  {
    (p: Product) => Keep(p, query, f)
  }

  /** The tests of the first n stages together. */
  function KeepUpTo(n: nat, query: string, f: Filters): Product -> bool
  {
    (p: Product) =>
      && (n < 1 || SearchStage(query)(p))
      && (n < 2 || CategoryStage(f.category)(p))
      && (n < 3 || MinStage(f.minPrice)(p))
      && (n < 4 || MaxStage(f.maxPrice)(p))
      && (n < 5 || StockStage(f.inStock)(p))
  }

  /** A skipped stage is a stage whose test passes everything. */
  lemma StageIsFilter(s: seq<Product>, run: bool, test: Product -> bool)
    requires !run ==> forall p :: test(p)
    ensures Stage(s, run, test) == Seqs.Filter(s, test)
  {
    if !run {
      Seqs.FilterKeepsAll(s, test);
    }
  }

  /** Running one more stage after the earlier ones keeps the products
      passing all of them. */
  lemma StageStep(s: seq<Product>, acc: Product -> bool, run: bool, test: Product -> bool, next: Product -> bool)
    requires !run ==> forall p :: test(p)
    requires forall p :: next(p) == (acc(p) && test(p))
    ensures Stage(Seqs.Filter(s, acc), run, test) == Seqs.Filter(s, next)
  {
    StageIsFilter(Seqs.Filter(s, acc), run, test);
    Seqs.FilterFilter(s, acc, test);
    Seqs.FilterExtensional(s, x => acc(x) && test(x), next);
  }

  /** Stage n's test is what KeepUpTo adds to the stages before it, and a
      stage that does not run passes everything. */
  lemma StageTestAdds(n: nat, query: string, f: Filters)
    requires 1 <= n <= 5
    ensures !Runs(n, query, f) ==> forall p :: StageTest(n, query, f)(p)
    ensures forall p :: KeepUpTo(n, query, f)(p) == (KeepUpTo(n - 1, query, f)(p) && StageTest(n, query, f)(p))
  {
  }

  /** The first n stages keep exactly the products passing their tests, in order. */
  lemma {:induction false} StagedUpToIsOneFilter(products: seq<Product>, n: nat, query: string, f: Filters)
    requires n <= 5
    ensures StagedUpTo(products, n, query, f) == Seqs.Filter(products, KeepUpTo(n, query, f))
  {
    if n == 0 {
      Seqs.FilterKeepsAll(products, KeepUpTo(0, query, f));
    } else {
      StagedUpToIsOneFilter(products, n - 1, query, f);
      StageTestAdds(n, query, f);
      StageStep(products, KeepUpTo(n - 1, query, f), Runs(n, query, f), StageTest(n, query, f), KeepUpTo(n, query, f));
    }
  }

  /** The staged filters keep exactly the products passing the single test, in order. */
  lemma StagedIsOneFilter(products: seq<Product>, query: string, f: Filters)
    ensures Staged(products, query, f) == Seqs.Filter(products, KeepFor(query, f))
  {
    StagedUpToIsOneFilter(products, 5, query, f);
    Seqs.FilterExtensional(products, KeepUpTo(5, query, f), KeepFor(query, f));
  }

  /** `applyFilters`: the kept products, sorted by the chosen option. */
  function ApplyFilters(products: seq<Product>, query: string, f: Filters): (r: seq<Product>)
    ensures multiset(r) == multiset(Seqs.Filter(products, KeepFor(query, f)))
    ensures forall p :: p in r <==> p in products && Keep(p, query, f)
    ensures Sorting.SortedBy(r, ListingOrder(f.sort))
  {
    ListingOrderTotal(f.sort);
    StagedIsOneFilter(products, query, f);
    var kept := Staged(products, query, f);
    Sorting.SortKeepsMembers(kept, ListingOrder(f.sort));
    Sorting.SortBy(kept, ListingOrder(f.sort))
  }
}
