/** `/api/review`: listing a product's reviews, writing a review, and a
    buyer's owner-guarded update and soft delete of their own reviews.

    Updates and deletes are filtered updates: they touch every row with the
    given id, owned by the caller, and not yet deleted. A filter that matches
    nothing is still a success. A soft delete marks the row, and the listing
    hides marked rows. */
module ReviewApi {
  import opened Basics
  import opened Store

  const UnauthorizedMessage := "Unauthorized"
  const MissingProductMessage := "Product ID is required"
  const CreateMissingMessage := "Product ID and rating are required"
  const UpdateMissingMessage := "Review ID and rating are required"
  const DeleteMissingMessage := "Review ID is required"
  const CreatedMessage := "Review created successfully"
  const UpdatedMessage := "Review updated successfully"
  const DeletedMessage := "Review soft-deleted successfully"
  /** The TypeError raised when a review's buyer join comes back null. */
  const NullBuyerMessage := "Cannot read properties of null (reading 'name')"

  function Listed(productId: Id): Review -> bool {
    (r: Review) => r.productId == productId && !r.deleted
  }

  /** The rows the listing query returns: the product's non-deleted reviews. */
  function VisibleReviews(reviews: seq<Review>, productId: Id): (r: seq<Review>)
    ensures forall i | 0 <= i < |r| :: r[i] in reviews && r[i].productId == productId && !r[i].deleted
    ensures forall i | 0 <= i < |reviews| && reviews[i].productId == productId && !reviews[i].deleted ::
      reviews[i] in r
    ensures IsSubsequence(r, reviews)
  {
    FilterIsSubsequence(reviews, Listed(productId));
    Filter(reviews, Listed(productId))
  }

  predicate BuyersKnown(rows: seq<Review>, buyerNames: map<Id, string>) {
    forall i | 0 <= i < |rows| :: rows[i].buyerId in buyerNames
  }

  function View(row: Review, buyerNames: map<Id, string>): ReviewView
    requires row.buyerId in buyerNames
  {
    ReviewView(row.id, buyerNames[row.buyerId], row.buyerId, row.rating, row.comment)
  }

  /** GET: the listing of `product_id`. `queryFault` is the database's error
      message when the query fails. */
  function ListReviews(productId: Option<Id>, queryFault: Option<string>, db: Db): (r: Response)
    ensures r.status == 200 <==>
      Truthy(productId, 0) && queryFault.None? &&
      BuyersKnown(VisibleReviews(db.reviews, productId.value), db.buyerNames)
    ensures r.status == 200 ==>
      var rows := VisibleReviews(db.reviews, productId.value);
      && r.body.ReviewList?
      && |r.body.reviews| == |rows|
      && forall i | 0 <= i < |rows| ::
           r.body.reviews[i] == ReviewView(rows[i].id, db.buyerNames[rows[i].buyerId],
                                           rows[i].buyerId, rows[i].rating, rows[i].comment)
  {
    if !Truthy(productId, 0) then Response(400, Message(MissingProductMessage))
    else if queryFault.Some? then Response(500, Error(queryFault.value))
    else
      var rows := VisibleReviews(db.reviews, productId.value);
      if !BuyersKnown(rows, db.buyerNames) then Response(500, Error(NullBuyerMessage))
      else Response(200, ReviewList(seq(|rows|, i requires 0 <= i < |rows| => View(rows[i], db.buyerNames))))
  }

  /** POST: a new review, its comment defaulting to "". `insertFault` is the
      database's error message when the insert fails. */
  function CreateReview(session: Option<Id>, productId: Option<Id>, rating: Option<int>,
                        comment: Option<string>, insertFault: Option<string>, db: Db): (r: Reply)
    ensures r.db == db.(reviews := r.db.reviews, nextId := r.db.nextId)
    ensures r.status == 201 <==> Truthy(session, 0) && Truthy(productId, 0) && Truthy(rating, 0) && insertFault.None?
    ensures r.status != 201 ==> r.db == db
    ensures r.status == 201 ==>
      && r.body == Message(CreatedMessage)
      && r.db.nextId == db.nextId + 1
      && r.db.reviews == db.reviews +
           [Review(db.nextId, productId.value, session.value, rating.value, OrElse(comment, "", ""), false)]
  {
    if !Truthy(session, 0) then Reply(401, Message(UnauthorizedMessage), db)
    else if !Truthy(productId, 0) || !Truthy(rating, 0) then Reply(400, Message(CreateMissingMessage), db)
    else if insertFault.Some? then Reply(500, Error(insertFault.value), db)
    else
      var row := Review(db.nextId, productId.value, session.value, rating.value, OrElse(comment, "", ""), false);
      Reply(201, Message(CreatedMessage), db.(reviews := db.reviews + [row], nextId := db.nextId + 1))
  }

  /** The rows an owner-guarded update or delete touches. */
  predicate Targeted(row: Review, reviewId: Id, buyer: Id) {
    row.id == reviewId && row.buyerId == buyer && !row.deleted
  }

  /** `update(patch).eq('id').eq('buyer_id').is('deleted_at', null)`. */
  function UpdateWhere(reviews: seq<Review>, reviewId: Id, buyer: Id, patch: Review -> Review): (r: seq<Review>)
    ensures |r| == |reviews|
    ensures forall i | 0 <= i < |reviews| ::
      r[i] == if Targeted(reviews[i], reviewId, buyer) then patch(reviews[i]) else reviews[i]
  {
    seq(|reviews|, i requires 0 <= i < |reviews| =>
      if Targeted(reviews[i], reviewId, buyer) then patch(reviews[i]) else reviews[i])
  }

  function Rewrite(rating: int, comment: string): Review -> Review {
    (row: Review) => row.(rating := rating, comment := comment)
  }

  function SoftDelete(): Review -> Review {
    (row: Review) => row.(deleted := true)
  }

  /** PUT: new rating and comment for the caller's own, non-deleted review. */
  function UpdateReview(session: Option<Id>, reviewId: Option<Id>, rating: Option<int>,
                        comment: Option<string>, updateFault: Option<string>, db: Db): (r: Reply)
    ensures r.db == db.(reviews := r.db.reviews)
    ensures r.status != 200 ==> r.db == db
    ensures r.status == 200 <==> Truthy(session, 0) && Truthy(reviewId, 0) && Truthy(rating, 0) && updateFault.None?
    ensures |r.db.reviews| == |db.reviews|
    ensures forall i | 0 <= i < |db.reviews| ::
      && r.db.reviews[i].id == db.reviews[i].id
      && r.db.reviews[i].productId == db.reviews[i].productId
      && r.db.reviews[i].buyerId == db.reviews[i].buyerId
      && r.db.reviews[i].deleted == db.reviews[i].deleted
      && (r.db.reviews[i] != db.reviews[i] ==>
            r.status == 200 && Targeted(db.reviews[i], reviewId.value, session.value))
  {
    if !Truthy(session, 0) then Reply(401, Message(UnauthorizedMessage), db)
    else if !Truthy(reviewId, 0) || !Truthy(rating, 0) then Reply(400, Message(UpdateMissingMessage), db)
    else if updateFault.Some? then Reply(500, Error(updateFault.value), db)
    else
      var patch := Rewrite(rating.value, OrElse(comment, "", ""));
      Reply(200, Message(UpdatedMessage),
        db.(reviews := UpdateWhere(db.reviews, reviewId.value, session.value, patch)))
  }

  /** DELETE: marks the caller's own, non-deleted review as deleted. */
  function DeleteReview(session: Option<Id>, reviewId: Option<Id>, deleteFault: Option<string>, db: Db): (r: Reply)
    ensures r.db == db.(reviews := r.db.reviews)
    ensures r.status != 200 ==> r.db == db
    ensures r.status == 200 <==> Truthy(session, 0) && Truthy(reviewId, 0) && deleteFault.None?
    ensures |r.db.reviews| == |db.reviews|
    ensures forall i | 0 <= i < |db.reviews| ::
      r.db.reviews[i] == if r.status == 200 && Targeted(db.reviews[i], reviewId.value, session.value)
                         then db.reviews[i].(deleted := true) else db.reviews[i]
  {
    if !Truthy(session, 0) then Reply(401, Message(UnauthorizedMessage), db)
    else if !Truthy(reviewId, 0) then Reply(400, Message(DeleteMissingMessage), db)
    else if deleteFault.Some? then Reply(500, Error(deleteFault.value), db)
    else Reply(200, Message(DeletedMessage), db.(reviews := UpdateWhere(db.reviews, reviewId.value, session.value, SoftDelete())))
  }

  // ---------------------------------------------------------------------------
  // Lemmas

  /** Every write needs a session user id: without one it is 401 and nothing changes. */
  lemma WritesNeedSession(productId: Option<Id>, reviewId: Option<Id>, rating: Option<int>,
                          comment: Option<string>, fault: Option<string>, db: Db)
    ensures CreateReview(None, productId, rating, comment, fault, db) == Reply(401, Message(UnauthorizedMessage), db)
    ensures UpdateReview(None, reviewId, rating, comment, fault, db) == Reply(401, Message(UnauthorizedMessage), db)
    ensures DeleteReview(None, reviewId, fault, db) == Reply(401, Message(UnauthorizedMessage), db)
  {
  }

  /** Listing without a product id is 400. */
  lemma ListingNeedsProduct(productId: Option<Id>, fault: Option<string>, db: Db)
    requires !Truthy(productId, 0)
    ensures ListReviews(productId, fault, db) == Response(400, Message(MissingProductMessage))
  {
  }

  /** A review that is deleted, or is someone else's, is left exactly as it was
      by an update; a targeted one gets the new rating and comment. */
  lemma UpdateTouchesOnlyOwnLiveReview(buyer: Id, reviewId: Id, rating: int, comment: Option<string>, db: Db)
    requires buyer != 0 && reviewId != 0 && rating != 0
    ensures var r := UpdateReview(Some(buyer), Some(reviewId), Some(rating), comment, None, db);
      && r.status == 200
      && forall i | 0 <= i < |db.reviews| ::
           r.db.reviews[i] == if Targeted(db.reviews[i], reviewId, buyer)
                              then db.reviews[i].(rating := rating, comment := OrElse(comment, "", ""))
                              else db.reviews[i]
  {
  }

  /** Deleting twice is deleting once. */
  lemma DeleteIdempotent(buyer: Id, reviewId: Id, db: Db)
    requires buyer != 0 && reviewId != 0
    ensures var once := DeleteReview(Some(buyer), Some(reviewId), None, db);
      DeleteReview(Some(buyer), Some(reviewId), None, once.db).db == once.db
  {
    var once := DeleteReview(Some(buyer), Some(reviewId), None, db);
    var twice := DeleteReview(Some(buyer), Some(reviewId), None, once.db);
    assert twice.db.reviews == once.db.reviews;
  }

  /** After a successful delete the listing no longer shows the caller's
      review with that id. */
  lemma DeletedReviewNotListed(buyer: Id, reviewId: Id, productId: Id, db: Db)
    requires buyer != 0 && reviewId != 0
    ensures var after := DeleteReview(Some(buyer), Some(reviewId), None, db).db;
      var listing := ListReviews(Some(productId), None, after);
      listing.status == 200 ==>
        forall i | 0 <= i < |listing.body.reviews| ::
          !(listing.body.reviews[i].id == reviewId && listing.body.reviews[i].buyerId == buyer)
  {
    var after := DeleteReview(Some(buyer), Some(reviewId), None, db).db;
    var rows := VisibleReviews(after.reviews, productId);
    forall i | 0 <= i < |rows|
      ensures !(rows[i].id == reviewId && rows[i].buyerId == buyer)
    {
      var j :| 0 <= j < |after.reviews| && after.reviews[j] == rows[i];
      if Targeted(db.reviews[j], reviewId, buyer) {
        assert false;
      }
    }
  }

  /** A review just created is listed for its product (when its author is a
      known buyer), at the end of the listing. */
  lemma CreatedReviewListed(buyer: Id, productId: Id, rating: int, comment: Option<string>, db: Db)
    requires buyer != 0 && productId != 0 && rating != 0
    requires buyer in db.buyerNames && BuyersKnown(VisibleReviews(db.reviews, productId), db.buyerNames)
    ensures var after := CreateReview(Some(buyer), Some(productId), Some(rating), comment, None, db).db;
      var listing := ListReviews(Some(productId), None, after);
      && listing.status == 200
      && |listing.body.reviews| > 0
      && listing.body.reviews[|listing.body.reviews| - 1] ==
           ReviewView(db.nextId, db.buyerNames[buyer], buyer, rating, OrElse(comment, "", ""))
  {
    var row := Review(db.nextId, productId, buyer, rating, OrElse(comment, "", ""), false);
    var after := CreateReview(Some(buyer), Some(productId), Some(rating), comment, None, db).db;
    assert after.reviews == db.reviews + [row];
    FilterConcat(db.reviews, [row], Listed(productId));
    assert Filter([row], Listed(productId)) == [row];
    var rows := VisibleReviews(after.reviews, productId);
    assert rows == VisibleReviews(db.reviews, productId) + [row];
  }

  /** Creating a review keeps ids fresh. */
  lemma CreateKeepsFresh(session: Option<Id>, productId: Option<Id>, rating: Option<int>,
                         comment: Option<string>, fault: Option<string>, db: Db)
    requires Fresh(db)
    ensures Fresh(CreateReview(session, productId, rating, comment, fault, db).db)
  {
  }
}
