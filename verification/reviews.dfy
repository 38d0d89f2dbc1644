/** Product reviews: adding one per user and product, the listing with its
    rating aggregate, and author-only deletion. */
module Reviews {
  import opened Wrappers
  import opened Constants
  import Seqs
  import Sorting
  import Paging
  import Orders
  import ErrorHandler

  /** A stored review. Ratings are numbers, not necessarily whole. */
  datatype Review = Review(
    id: string,
    userId: string,
    productId: string,
    rating: real,
    title: string,
    comment: string,
    isVerifiedPurchase: bool,
    createdAt: int)

  const MAX_TITLE: int := 100
  const MAX_COMMENT: int := 500

  /** The schema's constraints on one review. */
  predicate ValidReview(r: Review)
  {
    && r.userId != "" && r.productId != ""
    && 1.0 <= r.rating <= 5.0
    && |r.title| <= MAX_TITLE
    && r.comment != "" && |r.comment| <= MAX_COMMENT
  }

  /** The compound unique index: one review per (user, product). */
  predicate UniquePairs(reviews: seq<Review>)
  {
    forall i, j :: 0 <= i < j < |reviews| ==>
      reviews[i].userId != reviews[j].userId || reviews[i].productId != reviews[j].productId
  }

  predicate ReviewStoreInvariant(reviews: seq<Review>)
  {
    UniquePairs(reviews) && forall i :: 0 <= i < |reviews| ==> ValidReview(reviews[i])
  }

  /** The request body. A missing or zero rating is 0.0; a missing string is "". */
  datatype ReviewRequest = ReviewRequest(productId: string, rating: real, title: string, comment: string)

  datatype ReviewOutcome<T> = ReviewOutcome(reply: Reply<T>, reviews: seq<Review>)

  const MISSING_REVIEW_FIELDS: string := "Product ID, rating, and comment are required"
  const RATING_RANGE: string := "Rating must be between 1 and 5"
  const ALREADY_REVIEWED: string := "You have already reviewed this product"

  predicate HasReviewed(reviews: seq<Review>, userId: string, productId: string)
  {
    exists r | r in reviews :: r.userId == userId && r.productId == productId
  }

  /** Some paid order by the user lists the product. */
  predicate HasPurchased(orders: seq<Orders.Order>, userId: string, productId: string)
  {
    exists o | o in orders :: o.userId == userId && o.isPaid && exists it | it in o.items :: it.product == productId
  }

  /** `addReview` for the signed-in user `userId`; `newId` and `now` are
      what the database assigns. */
  function AddReview(reviews: seq<Review>, orders: seq<Orders.Order>, userId: string, req: ReviewRequest,
                     newId: string, now: int): (r: ReviewOutcome<Review>)
    ensures req.productId == "" || req.rating == 0.0 || req.comment == "" ==>
      r == ReviewOutcome(Err(BAD_REQUEST, MISSING_REVIEW_FIELDS), reviews)
    ensures req.productId != "" && req.rating != 0.0 && req.comment != "" && (req.rating < 1.0 || req.rating > 5.0) ==>
      r == ReviewOutcome(Err(BAD_REQUEST, RATING_RANGE), reviews)
    ensures req.productId != "" && req.comment != "" && 1.0 <= req.rating <= 5.0 && HasReviewed(reviews, userId, req.productId) ==>
      r == ReviewOutcome(Err(CONFLICT, ALREADY_REVIEWED), reviews)
    ensures req.productId != "" && req.comment != "" && 1.0 <= req.rating <= 5.0 && !HasReviewed(reviews, userId, req.productId) &&
            (|req.title| > MAX_TITLE || |req.comment| > MAX_COMMENT) ==>
      r == ReviewOutcome(Err(BAD_REQUEST, ErrorHandler.VALIDATION_ERROR), reviews)
    ensures r.reply.Ok? ==> r.reply.message == "Review added successfully"
    ensures r.reply.Ok? <==>
      && req.productId != "" && req.comment != ""
      && 1.0 <= req.rating <= 5.0
      && !HasReviewed(reviews, userId, req.productId)
      && |req.title| <= MAX_TITLE && |req.comment| <= MAX_COMMENT
    ensures r.reply.Err? ==> r.reviews == reviews
    ensures r.reply.Err? && r.reply.status == CONFLICT ==> HasReviewed(reviews, userId, req.productId)
    ensures r.reply.Ok? ==> r.reply.status == CREATED && r.reviews == reviews + [r.reply.value]
    ensures r.reply.Ok? ==> r.reply.value.isVerifiedPurchase == HasPurchased(orders, userId, req.productId)
    ensures r.reply.Ok? ==> r.reply.value.userId == userId && r.reply.value.productId == req.productId
    ensures r.reply.Ok? ==> r.reply.value.rating == req.rating && r.reply.value.comment == req.comment && r.reply.value.title == req.title
  {
    if req.productId == "" || req.rating == 0.0 || req.comment == "" then
      ReviewOutcome(Err(BAD_REQUEST, MISSING_REVIEW_FIELDS), reviews)
    else if req.rating < 1.0 || req.rating > 5.0 then
      ReviewOutcome(Err(BAD_REQUEST, RATING_RANGE), reviews)
    else if HasReviewed(reviews, userId, req.productId) then
      ReviewOutcome(Err(CONFLICT, ALREADY_REVIEWED), reviews)
    else if |req.title| > MAX_TITLE || |req.comment| > MAX_COMMENT then
      ReviewOutcome(Err(BAD_REQUEST, ErrorHandler.VALIDATION_ERROR), reviews)
    else
      var review := Review(newId, userId, req.productId, req.rating, req.title, req.comment,
                           HasPurchased(orders, userId, req.productId), now);
      ReviewOutcome(Ok(CREATED, "Review added successfully", review), reviews + [review])
  }

  /** Adding keeps every stored review valid and at most one per user and
      product, for any signed-in user. */
  lemma AddReviewKeepsInvariant(reviews: seq<Review>, orders: seq<Orders.Order>, userId: string, req: ReviewRequest,
                                newId: string, now: int)
    requires ReviewStoreInvariant(reviews)
    requires userId != ""
    ensures ReviewStoreInvariant(AddReview(reviews, orders, userId, req, newId, now).reviews)
  {
    var r := AddReview(reviews, orders, userId, req, newId, now);
    if r.reply.Ok? {
      var s := r.reviews;
      forall i, j | 0 <= i < j < |s| ensures s[i].userId != s[j].userId || s[i].productId != s[j].productId {
        if j == |reviews| {
          assert s[i] in reviews;
        } else {
          assert s[i] == reviews[i] && s[j] == reviews[j];
        }
      }
      forall i | 0 <= i < |s| ensures ValidReview(s[i]) {
        if i < |reviews| { assert s[i] == reviews[i]; }
      }
    }
  }

  /** A second review of the same product by the same user is refused. */
  lemma SecondReviewConflicts(reviews: seq<Review>, orders: seq<Orders.Order>, userId: string, req: ReviewRequest,
                              newId: string, newId2: string, now: int, later: int)
    requires AddReview(reviews, orders, userId, req, newId, now).reply.Ok?
    ensures var after := AddReview(reviews, orders, userId, req, newId, now).reviews;
      AddReview(after, orders, userId, req, newId2, later).reply == Err(CONFLICT, ALREADY_REVIEWED)
  {
    var after := AddReview(reviews, orders, userId, req, newId, now).reviews;
    assert after[|after| - 1] in after;
  }

  /** The sum of the ratings. */
  function RatingSum(rs: seq<Review>): real
  {
    if |rs| == 0 then 0.0 else rs[0].rating + RatingSum(rs[1..])
  }

  /** How many ratings equal `star` exactly (the `$eq` bucket). */
  function StarCount(rs: seq<Review>, star: real): (n: nat)
    ensures n <= |rs|
  {
    if |rs| == 0 then 0 else (if rs[0].rating == star then 1 else 0) + StarCount(rs[1..], star)
  }

  /** The aggregate: `{averageRating: 0, totalReviews: 0}` when the product
      has no reviews, otherwise the average, the count and five buckets. */
  datatype Stats =
    | NoStats
    | RatingStats(averageRating: real, totalReviews: nat, fiveStar: nat, fourStar: nat, threeStar: nat, twoStar: nat, oneStar: nat)
  {
    function Average(): real { if NoStats? then 0.0 else averageRating }
    function Count(): nat { if NoStats? then 0 else totalReviews }
  }

  function ComputeStats(rs: seq<Review>): (s: Stats)
    ensures s.Count() == |rs|
    ensures s.Average() * (|rs| as real) == RatingSum(rs)
    ensures s.RatingStats? <==> |rs| > 0
  {
    if |rs| == 0 then NoStats
    else
      RatingStats(RatingSum(rs) / (|rs| as real), |rs|,
                  StarCount(rs, 5.0), StarCount(rs, 4.0), StarCount(rs, 3.0), StarCount(rs, 2.0), StarCount(rs, 1.0))
  }

  predicate Whole(x: real)
  {
    x.Floor as real == x
  }

  function BucketTotal(s: Stats): nat
  {
    if s.NoStats? then 0 else s.fiveStar + s.fourStar + s.threeStar + s.twoStar + s.oneStar
  }

  /** The five buckets of a list of ratings add up. */
  lemma {:induction false} BucketsAdd(rs: seq<Review>)
    ensures StarCount(rs, 5.0) + StarCount(rs, 4.0) + StarCount(rs, 3.0) + StarCount(rs, 2.0) + StarCount(rs, 1.0)
      == |Seqs.Filter(rs, (r: Review) => r.rating in {1.0, 2.0, 3.0, 4.0, 5.0})|
  {
    if |rs| > 0 {
      BucketsAdd(rs[1..]);
    }
  }

  /** The buckets account for every review exactly when every rating is a
      whole number, ratings lying between 1 and 5. */
  lemma BucketsCoverIffWhole(rs: seq<Review>)
    requires forall i :: 0 <= i < |rs| ==> 1.0 <= rs[i].rating <= 5.0
    requires |rs| > 0
    ensures BucketTotal(ComputeStats(rs)) == ComputeStats(rs).Count() <==> forall i :: 0 <= i < |rs| ==> Whole(rs[i].rating)
  {
    var p := (r: Review) => r.rating in {1.0, 2.0, 3.0, 4.0, 5.0};
    BucketsAdd(rs);
    forall i | 0 <= i < |rs| ensures p(rs[i]) <==> Whole(rs[i].rating) {
      var x := rs[i].rating;
      if Whole(x) {
        assert 1 <= x.Floor <= 5;
      }
    }
    if forall i :: 0 <= i < |rs| ==> Whole(rs[i].rating) {
      Seqs.FilterKeepsAll(rs, p);
    } else {
      var i :| 0 <= i < |rs| && !Whole(rs[i].rating);
      FilterShorter(rs, p, i);
    }
  }

  /** Filtering out some element leaves a shorter list. */
  lemma {:induction false} FilterShorter<T(!new)>(s: seq<T>, p: T -> bool, i: int)
    requires 0 <= i < |s| && !p(s[i])
    ensures |Seqs.Filter(s, p)| < |s|
  {
    if i > 0 {
      FilterShorter(s[1..], p, i - 1);
    }
  }

  /** Every rating between 1 and 5 puts the average between 1 and 5. */
  lemma AverageInRange(rs: seq<Review>)
    requires forall i :: 0 <= i < |rs| ==> 1.0 <= rs[i].rating <= 5.0
    requires |rs| > 0
    ensures 1.0 <= ComputeStats(rs).Average() <= 5.0
  {
    var n := |rs| as real;
    var sum := RatingSum(rs);
    assert ComputeStats(rs).Average() == sum / n;
    SumBounds(rs);
    DivBounds(sum, n);
  }

  /** A quotient of a sum between n and 5n by n lies between 1 and 5. */
  lemma DivBounds(s: real, n: real)
    requires n > 0.0 && n <= s <= 5.0 * n
    ensures 1.0 <= s / n <= 5.0
  {
    var a := s / n;
    assert a * n == s;
    assert (a - 1.0) * n == s - n;
    NonNegativeFactor(a - 1.0, n);
    assert (5.0 - a) * n == 5.0 * n - s;
    NonNegativeFactor(5.0 - a, n);
  }

  lemma NonNegativeFactor(x: real, y: real)
    requires y > 0.0 && x * y >= 0.0
    ensures x >= 0.0
  {
  }

  lemma {:induction false} SumBounds(rs: seq<Review>)
    requires forall i :: 0 <= i < |rs| ==> 1.0 <= rs[i].rating <= 5.0
    ensures |rs| as real <= RatingSum(rs) <= 5.0 * (|rs| as real)
  {
    if |rs| > 0 {
      SumBounds(rs[1..]);
    }
  }

  predicate ForProduct(r: Review, productId: string) { r.productId == productId }

  function ForProductFn(productId: string): Review -> bool
  {
    (r: Review) => ForProduct(r, productId)
  }

  function NewestFirst(): (Review, Review) -> bool
  {
    (a: Review, b: Review) => a.createdAt >= b.createdAt
  }

  datatype ReviewPagination = ReviewPagination(currentPage: int, totalPages: nat, totalReviews: nat)
  datatype ReviewListing = ReviewListing(reviews: seq<Review>, stats: Stats, pagination: ReviewPagination)

  /** `getProductReviews`: one page of the product's reviews, newest first,
      with the aggregate over all of them. */
  function GetProductReviews(reviews: seq<Review>, productId: string, page: int, limit: int): (r: Reply<ReviewListing>)
    requires page >= 1 && limit >= 1
    ensures r.Ok? && r.status == OK
    ensures forall x :: x in r.value.reviews ==> x in reviews && x.productId == productId
    ensures |r.value.reviews| <= limit
    ensures Sorting.SortedBy(r.value.reviews, NewestFirst())
    ensures r.value.pagination.totalReviews == |Seqs.Filter(reviews, ForProductFn(productId))|
    ensures r.value.stats == ComputeStats(Seqs.Filter(reviews, ForProductFn(productId)))
    ensures r.value.pagination.totalPages * limit >= r.value.pagination.totalReviews
    ensures r.value.pagination.totalPages == 0 || (r.value.pagination.totalPages - 1) * limit < r.value.pagination.totalReviews
    ensures r.value.pagination.currentPage == page
    ensures r.value.reviews == Paging.Page(NewestReviews(Seqs.Filter(reviews, ForProductFn(productId))), page, limit)
  {
    var found := Seqs.Filter(reviews, ForProductFn(productId));
    var shown := Paging.Page(NewestReviews(found), page, limit);
    ShownReviewsFacts(reviews, productId, page, limit);
    var stats := ComputeStats(found);
    Ok(OK, "Reviews fetched successfully",
       ReviewListing(shown, stats, ReviewPagination(page, Paging.TotalPages(|found|, limit), |found|)))
  }

  /** Paging loses no review: each review of the product is shown on some page. */
  lemma EveryReviewIsOnSomePage(reviews: seq<Review>, productId: string, limit: int, x: Review)
    requires limit >= 1
    requires x in reviews && x.productId == productId
    ensures exists n :: n >= 1 && x in GetProductReviews(reviews, productId, n, limit).value.reviews
  {
    var found := Seqs.Filter(reviews, ForProductFn(productId));
    assert ForProductFn(productId)(x);
    assert x in found;
    assert x in multiset(NewestReviews(found));
    Paging.OnSomePage(NewestReviews(found), x, limit);
    var n :| n >= 1 && x in Paging.Page(NewestReviews(found), n, limit);
    assert GetProductReviews(reviews, productId, n, limit).value.reviews == Paging.Page(NewestReviews(found), n, limit);
  }

  /** `.sort({ createdAt: -1 })` */
  function NewestReviews(rs: seq<Review>): (r: seq<Review>)
    ensures multiset(r) == multiset(rs)
    ensures Sorting.SortedBy(r, NewestFirst())
  {
    assert Sorting.Total(NewestFirst());
    Sorting.SortBy(rs, NewestFirst())
  }

  lemma ShownReviewsFacts(reviews: seq<Review>, productId: string, page: int, limit: int)
    requires page >= 1 && limit >= 1
    ensures var shown := Paging.Page(NewestReviews(Seqs.Filter(reviews, ForProductFn(productId))), page, limit);
      Sorting.SortedBy(shown, NewestFirst()) && forall x :: x in shown ==> x in reviews && x.productId == productId
  {
    var found := Seqs.Filter(reviews, ForProductFn(productId));
    var sorted := NewestReviews(found);
    Paging.PageKeepsOrder(sorted, page, limit, NewestFirst());
    forall x | x in Paging.Page(sorted, page, limit) ensures x in reviews && x.productId == productId {
      assert x in multiset(sorted);
      assert x in found;
    }
  }

  const REVIEW_NOT_FOUND: string := "Review not found or unauthorized"

  predicate OwnedBy(reviews: seq<Review>, reviewId: string, userId: string)
  {
    exists r | r in reviews :: r.id == reviewId && r.userId == userId
  }

  function OtherThan(reviewId: string): Review -> bool
  {
    (r: Review) => r.id != reviewId
  }

  /** `deleteReview`: only the author can remove a review; anyone else is
      told it does not exist. */
  function DeleteReview(reviews: seq<Review>, reviewId: string, userId: string): (r: ReviewOutcome<()>)
    ensures r.reply.Ok? <==> OwnedBy(reviews, reviewId, userId)
    ensures r.reply.Err? ==> r.reply == Err(NOT_FOUND, REVIEW_NOT_FOUND) && r.reviews == reviews
    ensures r.reply.Ok? ==> r.reply.status == OK && forall x :: x in r.reviews <==> x in reviews && x.id != reviewId
    ensures Seqs.IsSubsequence(r.reviews, reviews)
  {
    if OwnedBy(reviews, reviewId, userId) then
      ReviewOutcome(Ok(OK, "Review deleted successfully", ()), Seqs.Filter(reviews, OtherThan(reviewId)))
    else
      Seqs.PrefixIsSubsequence(reviews, |reviews|);
      assert reviews[..|reviews|] == reviews;
      ReviewOutcome(Err(NOT_FOUND, REVIEW_NOT_FOUND), reviews)
  }

  /** Deleting keeps the store invariant. */
  lemma DeleteKeepsInvariant(reviews: seq<Review>, reviewId: string, userId: string)
    requires ReviewStoreInvariant(reviews)
    ensures ReviewStoreInvariant(DeleteReview(reviews, reviewId, userId).reviews)
  {
    FilterKeepsInvariant(reviews, OtherThan(reviewId));
  }

  /** Removing reviews from a valid store leaves a valid store. */
  lemma {:induction false} FilterKeepsInvariant(s: seq<Review>, p: Review -> bool)
    requires ReviewStoreInvariant(s)
    ensures ReviewStoreInvariant(Seqs.Filter(s, p))
  {
    if |s| > 0 {
      var tail := s[1..];
      assert ReviewStoreInvariant(tail) by {
        forall i, j | 0 <= i < j < |tail| ensures tail[i].userId != tail[j].userId || tail[i].productId != tail[j].productId {
          assert tail[i] == s[i + 1] && tail[j] == s[j + 1];
        }
      }
      FilterKeepsInvariant(tail, p);
      if p(s[0]) {
        var f := Seqs.Filter(tail, p);
        var r := [s[0]] + f;
        assert Seqs.Filter(s, p) == r;
        forall j | 0 < j < |r| ensures r[0].userId != r[j].userId || r[0].productId != r[j].productId {
          assert r[j] == f[j - 1] && r[j] in tail;
          var k :| 0 <= k < |tail| && tail[k] == r[j];
          assert s[k + 1] == r[j];
        }
        forall i, j | 0 <= i < j < |r| ensures r[i].userId != r[j].userId || r[i].productId != r[j].productId {
          if i > 0 {
            assert r[i] == f[i - 1] && r[j] == f[j - 1];
          }
        }
        forall i | 0 <= i < |r| ensures ValidReview(r[i]) {
          if i > 0 { assert r[i] == f[i - 1] && r[i] in tail; }
        }
      }
    }
  }

  /** Once the author deletes a review, they may review the product again. */
  lemma DeleteThenReviewAgain(reviews: seq<Review>, orders: seq<Orders.Order>, userId: string, req: ReviewRequest,
                              newId: string, now: int)
    requires ReviewStoreInvariant(reviews)
    requires exists r | r in reviews :: r.userId == userId && r.productId == req.productId
    ensures exists r | r in reviews ::
      r.userId == userId && r.productId == req.productId && !HasReviewed(DeleteReview(reviews, r.id, userId).reviews, userId, req.productId)
  {
    var r :| r in reviews && r.userId == userId && r.productId == req.productId;
    var after := DeleteReview(reviews, r.id, userId).reviews;
    assert !HasReviewed(after, userId, req.productId);
  }

  function ByUserFn(userId: string): Review -> bool
  {
    (r: Review) => r.userId == userId
  }

  /** `getMyReviews`: every review the signed-in user wrote, newest first. */
  function GetMyReviews(reviews: seq<Review>, userId: string): (r: seq<Review>)
    ensures forall x :: x in r <==> x in reviews && x.userId == userId
    ensures |r| <= |reviews|
    ensures Sorting.SortedBy(r, NewestFirst())
    ensures multiset(r) == multiset(Seqs.Filter(reviews, ByUserFn(userId)))
  {
    var mine := NewestReviews(Seqs.Filter(reviews, ByUserFn(userId)));
    assert forall x :: x in mine <==> x in multiset(mine);
    mine
  }

  /** A review just added shows up in its author's list and in nobody
      else's, and every other user's list keeps its members. */
  lemma AddedReviewIsMine(reviews: seq<Review>, orders: seq<Orders.Order>, userId: string, req: ReviewRequest,
                          newId: string, now: int, other: string)
    requires AddReview(reviews, orders, userId, req, newId, now).reply.Ok?
    requires other != userId
    ensures var out := AddReview(reviews, orders, userId, req, newId, now);
      && out.reply.value in GetMyReviews(out.reviews, userId)
      && out.reply.value !in GetMyReviews(out.reviews, other)
      && forall x :: x in GetMyReviews(out.reviews, other) <==> x in GetMyReviews(reviews, other)
  {
    var out := AddReview(reviews, orders, userId, req, newId, now);
    assert out.reply.value in out.reviews;
  }

  /** The lightweight rating: the average rounded to tenths (`toFixed(1)`,
      kept as a count of tenths) and the number of reviews; "0.0" and 0 when
      the product has none. */
  datatype ProductRating = ProductRating(averageTenths: int, totalReviews: nat)

  /** `getProductRating` */
  function GetProductRating(reviews: seq<Review>, productId: string): (r: ProductRating)
    ensures r.totalReviews == |Seqs.Filter(reviews, ForProductFn(productId))|
    ensures var avg := ComputeStats(Seqs.Filter(reviews, ForProductFn(productId))).Average();
      (r.averageTenths as real) - 0.5 <= avg * 10.0 < (r.averageTenths as real) + 0.5
    ensures r.totalReviews == 0 ==> r.averageTenths == 0
  {
    var stats := ComputeStats(Seqs.Filter(reviews, ForProductFn(productId)));
    ProductRating((stats.Average() * 10.0 + 0.5).Floor, stats.Count())
  }

  /** The lightweight rating agrees with the full listing: the same count,
      and the listing's average rounded to tenths. */
  lemma RatingAgreesWithListing(reviews: seq<Review>, productId: string, page: int, limit: int)
    requires page >= 1 && limit >= 1
    ensures var listing := GetProductReviews(reviews, productId, page, limit).value;
      var rating := GetProductRating(reviews, productId);
      && rating.totalReviews == listing.pagination.totalReviews
      && (rating.averageTenths as real) - 0.5 <= listing.stats.Average() * 10.0 < (rating.averageTenths as real) + 0.5
  {
  }

  /** In a valid store, a product with reviews is rated between "1.0" and "5.0". */
  lemma RatingInRange(reviews: seq<Review>, productId: string)
    requires ReviewStoreInvariant(reviews)
    requires exists x | x in reviews :: x.productId == productId
    ensures 10 <= GetProductRating(reviews, productId).averageTenths <= 50
  {
    var found := Seqs.Filter(reviews, ForProductFn(productId));
    var x :| x in reviews && x.productId == productId;
    assert x in found;
    forall i | 0 <= i < |found| ensures 1.0 <= found[i].rating <= 5.0 {
      assert found[i] in reviews;
    }
    AverageInRange(found);
  }
}
