/** `GET /api/products`: the catalog listing.

    The query returns the active, non-deleted products, each joined with its
    category, its images and the ratings of its reviews. The query counts
    every review, deleted ones included. A `limit` parameter is applied only
    when it parses to a number greater than 0. Each product is then projected
    for the client: the category name falls back to "Uncategorized", the
    images become a list of urls (or []), and the rating is the mean of the
    review ratings, or 5 when the product has none. */
module CatalogApi {
  import opened Basics
  import opened Store
  import ReviewApi

  /** One row of the joined query. A null join is None. */
  datatype CatalogRow = CatalogRow(
    id: Id,
    name: string,
    description: string,
    price: int,
    stock: int,
    isActive: bool,
    deleted: bool,
    category: Option<string>,
    images: Option<seq<string>>,
    ratings: Option<seq<int>>)

  const FetchError := "Failed to fetch products"
  const DefaultCategory := "Uncategorized"
  const DefaultRating: real := 5.0

  /** The parsed `limit` (None when parsing gives NaN) becomes a row limit
      only when it is greater than 0. */
  function EffectiveLimit(parsed: Option<int>): (r: Option<nat>)
    ensures r.Some? <==> parsed.Some? && parsed.value > 0
    ensures r.Some? ==> r.value == parsed.value && r.value > 0
  {
    if parsed.Some? && parsed.value > 0 then Some(parsed.value) else None
  }

  predicate IsLive(row: CatalogRow) {
    row.isActive && !row.deleted
  }

  /** `.eq('is_active', true).is('deleted_at', null).limit(…)`. */
  function Query(rows: seq<CatalogRow>, limit: Option<nat>): (r: seq<CatalogRow>)
    ensures limit.None? ==> r == Filter(rows, IsLive)
    ensures limit.Some? ==>
      var live := Filter(rows, IsLive);
      |r| == (if limit.value < |live| then limit.value else |live|) && r == live[..|r|]
  {
    var live := Filter(rows, IsLive);
    if limit.Some? && limit.value < |live| then live[..limit.value] else live
  }

  function Sum(xs: seq<int>): int {
    if |xs| == 0 then 0 else xs[0] + Sum(xs[1..])
  }

  /** The mean review rating, exact; 5 when there are no reviews. */
  function AverageRating(ratings: Option<seq<int>>): (r: real)
    ensures ratings.None? || ratings.value == [] ==> r == DefaultRating
    ensures ratings.Some? && ratings.value != [] ==>
      r * (|ratings.value| as real) == Sum(ratings.value) as real
  {
    if ratings.None? || |ratings.value| == 0 then DefaultRating
    else (Sum(ratings.value) as real) / (|ratings.value| as real)
  }

  function FormatProduct(row: CatalogRow): (v: ProductView)
    ensures v.id == row.id && v.name == row.name && v.price == row.price && v.stock == row.stock
    ensures v.category == OrElse(row.category, "", DefaultCategory)
    ensures v.images == (if row.images.Some? then row.images.value else [])
    ensures v.description == row.description && v.rating == AverageRating(row.ratings)
  {
    ProductView(row.id, row.name, row.description, row.price, row.stock,
      OrElse(row.category, "", DefaultCategory),
      if row.images.Some? then row.images.value else [],
      AverageRating(row.ratings))
  }

  /** The handler. `limit` is the parsed query parameter; `queryFails` says
      the database query failed. */
  function ListProducts(rows: seq<CatalogRow>, limit: Option<int>, queryFails: bool): (r: Response)
    ensures r.status == 200 <==> !queryFails
    ensures queryFails ==> r.body == Error(FetchError)
    ensures !queryFails ==>
      var selected := Query(rows, EffectiveLimit(limit));
      && r.body.ProductList?
      && r.body.total == |r.body.products| == |selected|
      && forall i | 0 <= i < |selected| :: r.body.products[i] == FormatProduct(selected[i])
  {
    if queryFails then Response(500, Error(FetchError))
    else
      var selected := Query(rows, EffectiveLimit(limit));
      var products := seq(|selected|, i requires 0 <= i < |selected| => FormatProduct(selected[i]));
      Response(200, ProductList(products, |products|))
  }

  // ---------------------------------------------------------------------------
  // Lemmas

  /** `view` is what the catalog shows for some active, non-deleted row. */
  predicate FromLiveRow(view: ProductView, rows: seq<CatalogRow>) {
    exists j | 0 <= j < |rows| :: IsLive(rows[j]) && view == FormatProduct(rows[j])
  }

  /** Every listed product is the projection of an active, non-deleted row. */
  lemma ListedProductsAreLive(rows: seq<CatalogRow>, limit: Option<int>)
    ensures var r := ListProducts(rows, limit, false);
      forall i | 0 <= i < |r.body.products| :: FromLiveRow(r.body.products[i], rows)
  {
    var r := ListProducts(rows, limit, false);
    var live := Filter(rows, IsLive);
    var selected := Query(rows, EffectiveLimit(limit));
    forall i | 0 <= i < |r.body.products|
      ensures FromLiveRow(r.body.products[i], rows)
    {
      assert selected[i] in live;
      var j :| 0 <= j < |rows| && rows[j] == selected[i];
      assert IsLive(rows[j]) && r.body.products[i] == FormatProduct(rows[j]);
    }
  }

  /** A valid limit caps the listing; without one every active, non-deleted
      product is listed. */
  lemma LimitAppliedOnlyWhenValid(rows: seq<CatalogRow>, limit: Option<int>)
    ensures var r := ListProducts(rows, limit, false);
      && (limit.Some? && limit.value > 0 ==> r.body.total <= limit.value)
      && (!(limit.Some? && limit.value > 0) ==>
            && r.body.total == |Filter(rows, IsLive)|
            && forall j | 0 <= j < |rows| && IsLive(rows[j]) :: FormatProduct(rows[j]) in r.body.products)
  {
    var r := ListProducts(rows, limit, false);
    var live := Filter(rows, IsLive);
    if !(limit.Some? && limit.value > 0) {
      forall j | 0 <= j < |rows| && IsLive(rows[j])
        ensures FormatProduct(rows[j]) in r.body.products
      {
        var i :| 0 <= i < |live| && live[i] == rows[j];
        assert r.body.products[i] == FormatProduct(rows[j]);
      }
    }
  }

  lemma {:induction false} SumBounds(xs: seq<int>, lo: int, hi: int)
    requires forall i | 0 <= i < |xs| :: lo <= xs[i] <= hi
    ensures |xs| * lo <= Sum(xs) <= |xs| * hi
    decreases |xs|
  {
    if |xs| > 0 {
      SumBounds(xs[1..], lo, hi);
    }
  }

  lemma MeanBounds(sum: real, n: real, lo: real, hi: real)
    requires n > 0.0 && lo * n <= sum <= hi * n
    ensures lo <= sum / n <= hi
  {
    assert (sum / n) * n == sum;
  }

  /** The mean lies between the lowest and highest rating allowed; with
      ratings from 1 to 5 the listed rating is between 1 and 5. */
  lemma RatingWithinBounds(ratings: Option<seq<int>>, lo: int, hi: int)
    requires lo <= 5 <= hi
    requires ratings.Some? ==> forall i | 0 <= i < |ratings.value| :: lo <= ratings.value[i] <= hi
    ensures lo as real <= AverageRating(ratings) <= hi as real
  {
    if ratings.Some? && |ratings.value| > 0 {
      var xs := ratings.value;
      SumBounds(xs, lo, hi);
      MeanBounds(Sum(xs) as real, |xs| as real, lo as real, hi as real);
    }
  }

  /** Ratings 4 and 5 average to 4.5; no reviews give 5. */
  lemma RatingExamples()
    ensures AverageRating(Some([4, 5])) == 4.5
    ensures AverageRating(Some([])) == 5.0
    ensures AverageRating(None) == 5.0
  {
    assert Sum([4, 5]) == 9;
  }

  /** A product without a category, or with an empty category name, is shown
      as "Uncategorized"; a product without images gets []. */
  lemma ProjectionDefaults(row: CatalogRow)
    ensures row.category.None? || row.category == Some("") ==> FormatProduct(row).category == DefaultCategory
    ensures row.category.Some? && row.category.value != "" ==> FormatProduct(row).category == row.category.value
    ensures row.images.None? ==> FormatProduct(row).images == []
  {
  }

  /** A limited listing is the start of the unlimited one. */
  lemma LimitedListingIsPrefix(rows: seq<CatalogRow>, limit: Option<int>)
    ensures var all := ListProducts(rows, None, false).body.products;
      var some := ListProducts(rows, limit, false).body.products;
      |some| <= |all| && some == all[..|some|]
  {
    var all := ListProducts(rows, None, false).body.products;
    var some := ListProducts(rows, limit, false).body.products;
    var live := Filter(rows, IsLive);
    assert |all| == |live|;
    forall i | 0 <= i < |some|
      ensures some[i] == all[i]
    {
      assert Query(rows, EffectiveLimit(limit))[i] == live[i];
    }
  }

  /** What the `reviews (rating)` join brings for a product: the rating of
      every review of the product in table order, soft-deleted ones too. */
  function JoinedRatings(reviews: seq<Review>, productId: Id): seq<int>
    decreases |reviews|
  {
    if |reviews| == 0 then []
    else (if reviews[0].productId == productId then [reviews[0].rating] else []) + JoinedRatings(reviews[1..], productId)
  }

  lemma {:induction false} SameRatings(a: seq<Review>, b: seq<Review>, productId: Id)
    requires |a| == |b|
    requires forall i | 0 <= i < |a| :: a[i].productId == b[i].productId && a[i].rating == b[i].rating
    ensures JoinedRatings(a, productId) == JoinedRatings(b, productId)
    decreases |a|
  {
    if |a| > 0 {
      SameRatings(a[1..], b[1..], productId);
    }
  }

  /** A soft-deleted review disappears from the review listing but still
      counts toward the product's catalog rating: a soft delete leaves the
      joined ratings, and so the average, unchanged. */
  lemma SoftDeleteKeepsCatalogRating(session: Option<Id>, reviewId: Option<Id>, fault: Option<string>, db: Db, productId: Id)
    ensures var after := ReviewApi.DeleteReview(session, reviewId, fault, db).db;
      && JoinedRatings(after.reviews, productId) == JoinedRatings(db.reviews, productId)
      && AverageRating(Some(JoinedRatings(after.reviews, productId))) == AverageRating(Some(JoinedRatings(db.reviews, productId)))
  {
    var after := ReviewApi.DeleteReview(session, reviewId, fault, db).db;
    SameRatings(after.reviews, db.reviews, productId);
  }
}
