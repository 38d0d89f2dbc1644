/** The related-products strip on a product page: up to four other products
    of the same category, in catalog order. */
module RelatedProducts {
  import opened Catalog
  import opened Text
  import Seqs

  const MAX_RELATED: nat := 4

  /** Same category ignoring case, and not the product on display. */
  predicate IsRelated(p: Product, currentId: string, category: string)
  {
    EqualsIgnoreCase(p.category, category) && p.id != currentId
  }

  function RelatedTo(currentId: string, category: string): Product -> bool
  {
    (p: Product) => IsRelated(p, currentId, category)
  }

  /** The effect's new state. With no products loaded or no category the
      previous selection stays. */
  function SelectRelated(previous: seq<Product>, products: seq<Product>, currentId: string, category: string): (r: seq<Product>)
    ensures |products| == 0 || category == "" ==> r == previous
    ensures |products| > 0 && category != "" ==>
      && |r| <= MAX_RELATED
      && (forall p :: p in r ==> p in products && IsRelated(p, currentId, category))
      && |r| <= |Seqs.Filter(products, RelatedTo(currentId, category))|
      && r == Seqs.Filter(products, RelatedTo(currentId, category))[..|r|]
      && Seqs.IsSubsequence(r, products)
  {
    if |products| == 0 || category == "" then previous
    else
      var matching := Seqs.Filter(products, RelatedTo(currentId, category));
      var r := Seqs.Take(matching, MAX_RELATED);
      Seqs.PrefixIsSubsequence(matching, |r|);
      Seqs.SubsequenceTransitive(r, matching, products);
      r
  }

  /** When at most four products qualify, every one of them is shown. */
  lemma AllShownWhenFew(previous: seq<Product>, products: seq<Product>, currentId: string, category: string)
    requires |products| > 0 && category != ""
    requires |Seqs.Filter(products, RelatedTo(currentId, category))| <= MAX_RELATED
    ensures forall p :: p in SelectRelated(previous, products, currentId, category) <==>
      p in products && IsRelated(p, currentId, category)
  {
    var matching := Seqs.Filter(products, RelatedTo(currentId, category));
    assert matching[..|matching|] == matching;
  }

  /** With more than four, exactly four are shown. */
  lemma FourShownWhenMany(previous: seq<Product>, products: seq<Product>, currentId: string, category: string)
    requires |products| > 0 && category != ""
    requires |Seqs.Filter(products, RelatedTo(currentId, category))| > MAX_RELATED
    ensures |SelectRelated(previous, products, currentId, category)| == MAX_RELATED
  {
  }
}
