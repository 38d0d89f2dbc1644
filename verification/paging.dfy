/** Page arithmetic shared by product search and review listing:
    `skip = (page - 1) * limit`, `totalPages = Math.ceil(total / limit)`. */
module Paging {
  import Sorting

  function Skip(page: int, limit: int): int
  {
    (page - 1) * limit
  }

  /** `Math.ceil(total / limit)`: the fewest pages of `limit` items that hold `total` items. */
  function TotalPages(total: nat, limit: int): (r: nat)
    requires limit > 0
    ensures r * limit >= total
    ensures r == 0 || (r - 1) * limit < total
  {
    var r := (total + limit - 1) / limit;
    var m := (total + limit - 1) % limit;
    assert total + limit - 1 == r * limit + m && 0 <= m < limit;
    assert (r - 1) * limit == r * limit - limit;
    r
  }

  /** `.skip(skip).limit(limit)` applied to an already sorted result. */
  function Page<T>(s: seq<T>, page: int, limit: int): (r: seq<T>)
    requires page >= 1 && limit >= 1
    ensures |r| <= limit
    ensures Skip(page, limit) >= |s| ==> r == []
    ensures Skip(page, limit) < |s| ==>
      r == s[Skip(page, limit)..if Skip(page, limit) + limit < |s| then Skip(page, limit) + limit else |s|]
  {
    var skip := Skip(page, limit);
    assert skip >= 0 by {
      assert page - 1 >= 0;
    }
    if skip >= |s| then []
    else if skip + limit < |s| then s[skip..skip + limit]
    else s[skip..]
  }

  /** Paging loses nothing: the item at position `k` of the full result is
      item `k % limit` of page `k / limit + 1`. */
  lemma ItemOnItsPage<T>(s: seq<T>, k: int, limit: int)
    requires 0 <= k < |s| && limit >= 1
    ensures k % limit < |Page(s, k / limit + 1, limit)|
    ensures Page(s, k / limit + 1, limit)[k % limit] == s[k]
    ensures s[k] in Page(s, k / limit + 1, limit)
  {
    var q, m := k / limit, k % limit;
    assert k == q * limit + m && 0 <= m < limit;
    assert Skip(q + 1, limit) == q * limit;
  }

  /** Every member of the full result is on some page. */
  lemma OnSomePage<T>(s: seq<T>, x: T, limit: int)
    requires x in s && limit >= 1
    ensures exists n :: n >= 1 && x in Page(s, n, limit)
  {
    var k :| 0 <= k < |s| && s[k] == x;
    assert k / limit >= 0;
    ItemOnItsPage(s, k, limit);
  }

  /** A page cut from a sorted list is sorted, and holds members of the list. */
  lemma PageKeepsOrder<T>(s: seq<T>, page: int, limit: int, le: (T, T) -> bool)
    requires page >= 1 && limit >= 1
    requires Sorting.SortedBy(s, le)
    ensures Sorting.SortedBy(Page(s, page, limit), le)
    ensures forall x :: x in Page(s, page, limit) ==> x in s
  {
    var skip := Skip(page, limit);
    if skip < |s| {
      var end := if skip + limit < |s| then skip + limit else |s|;
      assert Page(s, page, limit) == s[skip..end];
      SliceKeepsOrder(s, skip, end, le);
    }
  }

  lemma SliceKeepsOrder<T>(s: seq<T>, lo: int, hi: int, le: (T, T) -> bool)
    requires 0 <= lo <= hi <= |s|
    requires Sorting.SortedBy(s, le)
    ensures Sorting.SortedBy(s[lo..hi], le)
    ensures forall x :: x in s[lo..hi] ==> x in s
  {
    var r := s[lo..hi];
    forall k | 0 < k < |r| ensures le(r[k - 1], r[k]) {
      assert r[k - 1] == s[lo + k - 1];
      assert r[k] == s[lo + k];
    }
    forall x | x in r ensures x in s {
      var k :| 0 <= k < |r| && r[k] == x;
      assert r[k] == s[lo + k];
    }
  }

  lemma MulMonotone(a: int, b: int, c: int)
    requires a <= b && c > 0
    ensures a * c <= b * c
  {
  }

  lemma MulStrictInverse(a: int, b: int, c: int)
    requires a * c < b * c && c > 0
    ensures a < b
  {
    if a >= b {
      MulMonotone(b, a, c);
    }
  }

  /** `hasMore = skip + returned < total` holds exactly when the page is not the last one. */
  lemma {:induction false} HasMoreIffNotLastPage<T>(s: seq<T>, page: int, limit: int)
    requires page >= 1 && limit >= 1
    ensures Skip(page, limit) + |Page(s, page, limit)| < |s| <==> page < TotalPages(|s|, limit)
  {
    var skip := Skip(page, limit);
    var tp := TotalPages(|s|, limit);
    var r := Page(s, page, limit);
    assert page * limit == skip + limit;
    if skip >= |s| {
      if tp > 0 {
        assert (tp - 1) * limit < (page - 1) * limit;
        MulStrictInverse(tp - 1, page - 1, limit);
      }
    } else if skip + limit < |s| {
      assert |r| == limit;
      if page < tp {
        MulMonotone(page, tp - 1, limit);
      } else {
        MulMonotone(tp, page, limit);
      }
    } else {
      assert |r| == |s| - skip;
      if page < tp {
        MulMonotone(page, tp - 1, limit);
      }
    }
  }
}
