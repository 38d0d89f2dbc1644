/** The recently-viewed list kept in the browser's storage: most recent
    first, one entry per product, at most eight entries. */
module RecentlyViewed {
  import opened Wrappers
  import opened Catalog
  import Seqs

  const MAX_ITEMS: nat := 8

  /** What is stored of a viewed product. `image` is the first image, absent
      when the product has none. */
  datatype Snapshot = Snapshot(id: string, name: string, image: Option<string>, offerPrice: int, price: int, category: string)

  function SnapshotOf(p: Product): (s: Snapshot)
    ensures s.id == p.id && s.name == p.name && s.offerPrice == p.offerPrice && s.price == p.price && s.category == p.category
    ensures s.image == if |p.image| > 0 then Some(p.image[0]) else None
  {
    Snapshot(p.id, p.name, if |p.image| > 0 then Some(p.image[0]) else None, p.offerPrice, p.price, p.category)
  }

  predicate DistinctIds(items: seq<Snapshot>)
  {
    forall i, j :: 0 <= i < j < |items| ==> items[i].id != items[j].id
  }

  function OtherThan(id: string): Snapshot -> bool
  {
    (s: Snapshot) => s.id != id
  }

  /** `addToRecentlyViewed`: a product without an id changes nothing; otherwise
      its older entry is dropped, its snapshot goes first, and the list is cut to eight. */
  function AddToRecentlyViewed(items: seq<Snapshot>, p: Product): (r: seq<Snapshot>)
    ensures p.id == "" ==> r == items
    ensures p.id != "" ==> |r| >= 1 && r[0] == SnapshotOf(p) && |r| <= MAX_ITEMS
    ensures p.id != "" ==> forall x :: x in r[1..] ==> x in items && x.id != p.id
    ensures p.id != "" ==> Seqs.IsSubsequence(r[1..], items)
    ensures p.id != "" ==> r[1..] == Seqs.Take(Seqs.Filter(items, OtherThan(p.id)), MAX_ITEMS - 1)
  {
    if p.id == "" then items
    else
      var rest := Seqs.Filter(items, OtherThan(p.id));
      var r := Seqs.Take([SnapshotOf(p)] + rest, MAX_ITEMS);
      assert r[1..] == rest[..|r| - 1];
      assert r[1..] == Seqs.Take(rest, MAX_ITEMS - 1);
      Seqs.PrefixIsSubsequence(rest, |r| - 1);
      Seqs.SubsequenceTransitive(r[1..], rest, items);
      Seqs.SubsequenceMembership(r[1..], items);
      r
  }

  /** While the other products fit in the seven places behind the new
      snapshot, every earlier view of another product is kept. */
  lemma EarlierViewsKeptWhileRoom(items: seq<Snapshot>, p: Product, x: Snapshot)
    requires p.id != "" && x in items && x.id != p.id
    requires |Seqs.Filter(items, OtherThan(p.id))| < MAX_ITEMS
    ensures x in AddToRecentlyViewed(items, p)
  {
    var rest := Seqs.Filter(items, OtherThan(p.id));
    var r := AddToRecentlyViewed(items, p);
    assert OtherThan(p.id)(x);
    assert x in rest;
    assert r[1..] == rest;
    assert x in r[1..];
  }

  /** The list never holds two entries for the same product. */
  lemma AddKeepsDistinct(items: seq<Snapshot>, p: Product)
    requires DistinctIds(items)
    ensures DistinctIds(AddToRecentlyViewed(items, p))
  {
    if p.id != "" {
      var rest := Seqs.Filter(items, OtherThan(p.id));
      var r := AddToRecentlyViewed(items, p);
      FilterKeepsDistinct(items, OtherThan(p.id));
      assert r == Seqs.Take([SnapshotOf(p)] + rest, MAX_ITEMS);
      forall i, j | 0 <= i < j < |r| ensures r[i].id != r[j].id {
        assert r[j] == rest[j - 1];
        if i > 0 {
          assert r[i] == rest[i - 1];
        }
      }
    }
  }

  lemma {:induction false} FilterKeepsDistinct(items: seq<Snapshot>, keep: Snapshot -> bool)
    requires DistinctIds(items)
    ensures DistinctIds(Seqs.Filter(items, keep))
  {
    if |items| > 0 {
      var tail := items[1..];
      assert DistinctIds(tail) by {
        forall i, j | 0 <= i < j < |tail| ensures tail[i].id != tail[j].id {
          assert tail[i] == items[i + 1] && tail[j] == items[j + 1];
        }
      }
      FilterKeepsDistinct(tail, keep);
      var ft := Seqs.Filter(tail, keep);
      if keep(items[0]) {
        assert Seqs.Filter(items, keep) == [items[0]] + ft;
        forall x | x in ft ensures x.id != items[0].id {
          assert x in tail;
          var k :| 0 <= k < |tail| && tail[k] == x;
          assert items[k + 1] == x;
        }
      }
    }
  }

  /** Viewing the same product twice in a row leaves the list as one view does. */
  lemma AddTwice(items: seq<Snapshot>, p: Product)
    ensures AddToRecentlyViewed(AddToRecentlyViewed(items, p), p) == AddToRecentlyViewed(items, p)
  {
    if p.id != "" {
      var keep := OtherThan(p.id);
      var rest := Seqs.Filter(items, keep);
      var once := AddToRecentlyViewed(items, p);
      var tail := once[1..];
      assert once == [SnapshotOf(p)] + tail;
      Seqs.FilterAppend([SnapshotOf(p)], tail, keep);
      Seqs.FilterDropsAll([SnapshotOf(p)], keep);
      Seqs.FilterKeepsAll(tail, keep);
      assert Seqs.Filter(once, keep) == tail;
    }
  }

  /** `clearRecentlyViewed` removes the stored list; reading it back gives []. */
  function ClearRecentlyViewed(items: seq<Snapshot>): (r: seq<Snapshot>)
    ensures |r| == 0
  {
    []
  }
}
