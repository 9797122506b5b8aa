/**
 * Product reviews: the review entity with its lifecycle hooks, the field
 * validation of the review service, and create / update / delete /
 * mark-helpful / by-rating over the review table.
 *
 * The table is a sequence of rows in store order; ids come from an identity
 * counter. As for the inventory, each operation is specified by a `...Step`
 * function of the table, and the class `ReviewService` performs it in place.
 */
module Reviews {
  import opened Common

  /** Longest comment the validation accepts, in characters. */
  const MaxCommentLength: int := 1000

  /** One row of the `reviews` table. `createdAt`/`updatedAt` are `None` until the row is persisted. */
  datatype Review = Review(
    id: int,
    userId: int,
    productId: int,
    rating: int,
    title: Option<string>,
    comment: Option<string>,
    verifiedPurchase: bool,
    helpfulCount: int,
    createdAt: Option<Timestamp>,
    updatedAt: Option<Timestamp>)

  /** The fields of a create request that reach the entity. */
  datatype CreateReviewRequest = CreateReviewRequest(
    userId: int, productId: int, rating: int, title: Option<string>, comment: Option<string>)

  /** The fields of an update request that the mapper copies onto the entity. */
  datatype UpdateReviewRequest = UpdateReviewRequest(
    rating: int, title: Option<string>, comment: Option<string>)

  /** The exceptions the review service raises. */
  datatype ReviewError =
    | AlreadyReviewed          // BusinessException: one review per user and product
    | Invalid(field: string)   // ValidationException naming the field
    | ReviewNotFound           // ResourceNotFoundException

  /** The review table: rows in store order and the next identity value. */
  datatype Table = Table(rows: seq<Review>, nextId: int)

  /** The outcome of an operation together with the table it leaves. */
  datatype TableStep<T> = TableStep(outcome: Result<T, ReviewError>, table: Table)

  // ---------------------------------------------------------------------------
  // Entity hooks

  /** `@PrePersist`: both timestamps are stamped and the helpful count is reset to 0. */
  function OnPersist(r: Review, now: Timestamp): (r': Review)
    ensures r'.helpfulCount == 0
    ensures r'.createdAt == Some(now) && r'.updatedAt == Some(now)
    ensures r'.(helpfulCount := r.helpfulCount, createdAt := r.createdAt, updatedAt := r.updatedAt) == r
  {
    r.(createdAt := Some(now), updatedAt := Some(now), helpfulCount := 0)
  }

  /** `@PreUpdate`: only `updatedAt` changes. */
  function OnUpdate(r: Review, now: Timestamp): (r': Review)
    ensures r'.updatedAt == Some(now)
    ensures r'.(updatedAt := r.updatedAt) == r
  {
    r.(updatedAt := Some(now))
  }

  // ---------------------------------------------------------------------------
  // Validation

  /**
   * `validateReviewData`: the field of the first rule broken, in the order
   * user, product, rating range 1..5, comment length (only when a comment is present).
   */
  function ValidateReviewData(r: Review): (v: Option<string>)
    ensures v.None? <==>
      r.userId > 0 && r.productId > 0 && 1 <= r.rating <= 5
      && (r.comment.Some? ==> |r.comment.value| <= MaxCommentLength)
    ensures v == Some("userId") <==> r.userId <= 0
    ensures v == Some("productId") <==> r.userId > 0 && r.productId <= 0
    ensures v == Some("rating") <==> r.userId > 0 && r.productId > 0 && !(1 <= r.rating <= 5)
    ensures v == Some("comment") <==>
      r.userId > 0 && r.productId > 0 && 1 <= r.rating <= 5
      && r.comment.Some? && |r.comment.value| > MaxCommentLength
  {
    if r.userId <= 0 then Some("userId")
    else if r.productId <= 0 then Some("productId")
    else if r.rating < 1 || r.rating > 5 then Some("rating")
    else if r.comment.Some? && |r.comment.value| > MaxCommentLength then Some("comment")
    else None
  }

  /**
   * The table invariant: ids are distinct, no two rows share a (user, product)
   * pair, every id was issued by the counter, and every row passed validation.
   */
  predicate ValidTable(t: Table) {
    && (forall i, j :: 0 <= i < |t.rows| && 0 <= j < |t.rows| && i != j ==>
          t.rows[i].id != t.rows[j].id
          && !(t.rows[i].userId == t.rows[j].userId && t.rows[i].productId == t.rows[j].productId))
    && (forall i :: 0 <= i < |t.rows| ==>
          t.rows[i].id < t.nextId && ValidateReviewData(t.rows[i]).None? && t.rows[i].helpfulCount >= 0)
  }

  // ---------------------------------------------------------------------------
  // Repository lookups

  /** `findById`: the position of the first row with this id. */
  function IndexOfReview(rows: seq<Review>, id: int): (r: Option<nat>)
    ensures r.Some? ==> r.value < |rows| && rows[r.value].id == id
    ensures r.Some? ==> forall i :: 0 <= i < r.value ==> rows[i].id != id
    ensures r.None? ==> forall i :: 0 <= i < |rows| ==> rows[i].id != id
  {
    if rows == [] then None
    else if rows[0].id == id then Some(0)
    else match IndexOfReview(rows[1..], id)
      case Some(i) => Some(i + 1)
      case None => None
  }

  /** `existsByUser_IdAndProduct_Id`. */
  predicate HasReviewed(rows: seq<Review>, userId: int, productId: int) {
    exists i :: 0 <= i < |rows| && rows[i].userId == userId && rows[i].productId == productId
  }

  /** The rows `keep` accepts, in store order: the repository queries and the stream filters. */
  function Filter(rows: seq<Review>, keep: Review -> bool): (r: seq<Review>)
    ensures forall x :: x in r <==> x in rows && keep(x)
    ensures |r| <= |rows|
  {
    if rows == [] then []
    else (if keep(rows[0]) then [rows[0]] else []) + Filter(rows[1..], keep)
  }

  /** Filtering a table split in two is filtering each part: the filter keeps store order. */
  lemma {:induction false} FilterAppend(a: seq<Review>, b: seq<Review>, keep: Review -> bool)
    ensures Filter(a + b, keep) == Filter(a, keep) + Filter(b, keep)
  {
    if a == [] {
      assert a + b == b;
    } else {
      assert (a + b)[0] == a[0];
      assert (a + b)[1..] == a[1..] + b;
      FilterAppend(a[1..], b, keep);
    }
  }

  /** The query conditions: same product, same user, given rating. */
  function OfProduct(productId: int): Review -> bool {
    (x: Review) => x.productId == productId
  }

  function OfUser(userId: int): Review -> bool {
    (x: Review) => x.userId == userId
  }

  function WithRating(rating: int): Review -> bool {
    (x: Review) => x.rating == rating
  }

  // ---------------------------------------------------------------------------
  // Queries

  /** `getReviewById`: the row with the id, or `ReviewNotFound`. */
  function GetReviewById(rows: seq<Review>, reviewId: int): (r: Result<Review, ReviewError>)
    ensures r.Success? <==> exists i :: 0 <= i < |rows| && rows[i].id == reviewId
    ensures r.Success? ==> r.value in rows && r.value.id == reviewId
    ensures r.Failure? ==> r.error == ReviewNotFound
  {
    match IndexOfReview(rows, reviewId)
    case Some(i) => Success(rows[i])
    case None => Failure(ReviewNotFound)
  }

  /** `getReviewsByProduct` (`findByProduct_Id`, and the `findByProductId` the by-rating query calls). */
  function GetReviewsByProduct(rows: seq<Review>, productId: int): (r: seq<Review>)
    ensures forall x :: x in r <==> x in rows && x.productId == productId
  {
    Filter(rows, OfProduct(productId))
  }

  /** `getReviewsByUser` (`findByUser_Id`). */
  function GetReviewsByUser(rows: seq<Review>, userId: int): (r: seq<Review>)
    ensures forall x :: x in r <==> x in rows && x.userId == userId
  {
    Filter(rows, OfUser(userId))
  }

  /**
   * `getReviewsByRating`: a rating outside 1..5 fails before any lookup;
   * otherwise exactly that product's reviews with that rating, in store order.
   */
  function GetReviewsByRating(rows: seq<Review>, productId: int, rating: int): (r: Result<seq<Review>, ReviewError>)
    ensures r.Failure? <==> !(1 <= rating <= 5)
    ensures r.Failure? ==> r.error == Invalid("rating")
    ensures r.Success? ==>
      forall x :: x in r.value <==> x in rows && x.productId == productId && x.rating == rating
  {
    if rating < 1 || rating > 5 then Failure(Invalid("rating"))
    else Success(Filter(GetReviewsByProduct(rows, productId), WithRating(rating)))
  }

  /**
   * The by-rating query keeps store order: on a table split in two, its answer
   * is the answer on the first part followed by the answer on the second.
   */
  lemma ReviewsByRatingKeepStoreOrder(a: seq<Review>, b: seq<Review>, productId: int, rating: int)
    requires 1 <= rating <= 5
    ensures GetReviewsByRating(a + b, productId, rating).value
         == GetReviewsByRating(a, productId, rating).value + GetReviewsByRating(b, productId, rating).value
  {
    FilterAppend(a, b, OfProduct(productId));
    FilterAppend(GetReviewsByProduct(a, productId), GetReviewsByProduct(b, productId), WithRating(rating));
  }

  // ---------------------------------------------------------------------------
  // Mutators, as functions of the table

  /** The entity the mapper builds from a create request, with the user and product references set. */
  function DraftReview(req: CreateReviewRequest): Review {
    Review(0, req.userId, req.productId, req.rating, req.title, req.comment, false, 0, None, None)
  }

  /**
   * `createReview`: the (user, product) duplicate check runs before field
   * validation; a new review gets the next id, a zero helpful count and both
   * timestamps, and is appended to the table.
   */
  function CreateReviewStep(t: Table, req: CreateReviewRequest, now: Timestamp): (r: TableStep<Review>)
    ensures HasReviewed(t.rows, req.userId, req.productId) ==> r == TableStep(Failure(AlreadyReviewed), t)
    ensures !HasReviewed(t.rows, req.userId, req.productId) && ValidateReviewData(DraftReview(req)).Some? ==>
      r == TableStep(Failure(Invalid(ValidateReviewData(DraftReview(req)).value)), t)
    ensures r.outcome.Success? <==>
      !HasReviewed(t.rows, req.userId, req.productId) && ValidateReviewData(DraftReview(req)).None?
    ensures r.outcome.Success? ==>
      var rv := r.outcome.value;
      && r.table == Table(t.rows + [rv], t.nextId + 1)
      && rv.id == t.nextId && rv.userId == req.userId && rv.productId == req.productId
      && rv.rating == req.rating && rv.title == req.title && rv.comment == req.comment
      && !rv.verifiedPurchase && rv.helpfulCount == 0
      && rv.createdAt == Some(now) && rv.updatedAt == Some(now)
    ensures ValidTable(t) ==> ValidTable(r.table)
  {
    if HasReviewed(t.rows, req.userId, req.productId) then TableStep(Failure(AlreadyReviewed), t)
    else
      var review := DraftReview(req);
      match ValidateReviewData(review)
      case Some(field) => TableStep(Failure(Invalid(field)), t)
      case None =>
        var saved := OnPersist(review.(createdAt := Some(now), helpfulCount := 0, id := t.nextId), now);
        TableStep(Success(saved), Table(t.rows + [saved], t.nextId + 1))
  }

  /**
   * `updateReview`: an unknown id fails; the mapper copies rating, title and
   * comment, and the result must pass validation. The id, user, product,
   * helpful count, purchase flag and creation time never change.
   */
  function UpdateReviewStep(t: Table, reviewId: int, req: UpdateReviewRequest, now: Timestamp): (r: TableStep<Review>)
    ensures IndexOfReview(t.rows, reviewId).None? ==> r == TableStep(Failure(ReviewNotFound), t)
    ensures r.outcome.Failure? ==> r.table == t
    ensures r.outcome.Success? ==>
      var i := IndexOfReview(t.rows, reviewId).value;
      var old_ := t.rows[i];
      var rv := r.outcome.value;
      && r.table == Table(t.rows[i := rv], t.nextId)
      && rv.id == old_.id && rv.userId == old_.userId && rv.productId == old_.productId
      && rv.helpfulCount == old_.helpfulCount && rv.createdAt == old_.createdAt
      && rv.verifiedPurchase == old_.verifiedPurchase
      && rv.rating == req.rating && rv.title == req.title && rv.comment == req.comment
      && rv.updatedAt == Some(now)
      && ValidateReviewData(rv).None?
    ensures IndexOfReview(t.rows, reviewId).Some? ==>
      (r.outcome.Success? <==>
         ValidateReviewData(t.rows[IndexOfReview(t.rows, reviewId).value].(
           rating := req.rating, title := req.title, comment := req.comment)).None?)
    ensures IndexOfReview(t.rows, reviewId).Some? ==>
      var mapped := t.rows[IndexOfReview(t.rows, reviewId).value].(
        rating := req.rating, title := req.title, comment := req.comment);
      ValidateReviewData(mapped).Some? ==>
        r == TableStep(Failure(Invalid(ValidateReviewData(mapped).value)), t)
    ensures ValidTable(t) ==> ValidTable(r.table)
  {
    match IndexOfReview(t.rows, reviewId)
    case None => TableStep(Failure(ReviewNotFound), t)
    case Some(i) =>
      var review := t.rows[i].(rating := req.rating, title := req.title, comment := req.comment);
      match ValidateReviewData(review)
      case Some(field) => TableStep(Failure(Invalid(field)), t)
      case None =>
        var saved := OnUpdate(review, now);
        TableStep(Success(saved), Table(t.rows[i := saved], t.nextId))
  }

  /** `deleteReview`: an unknown id fails; otherwise exactly that row leaves the table. */
  function DeleteReviewStep(t: Table, reviewId: int): (r: TableStep<()>)
    ensures IndexOfReview(t.rows, reviewId).None? ==> r == TableStep(Failure(ReviewNotFound), t)
    ensures r.outcome.Success? <==> IndexOfReview(t.rows, reviewId).Some?
    ensures r.outcome.Success? ==>
      var i := IndexOfReview(t.rows, reviewId).value;
      r.table == Table(t.rows[..i] + t.rows[i + 1..], t.nextId)
    ensures ValidTable(t) && r.outcome.Success? ==>
      forall x :: x in r.table.rows <==> x in t.rows && x.id != reviewId
    ensures ValidTable(t) ==> ValidTable(r.table)
  {
    match IndexOfReview(t.rows, reviewId)
    case None => TableStep(Failure(ReviewNotFound), t)
    case Some(i) =>
      var rows' := t.rows[..i] + t.rows[i + 1..];
      RemovedRowsAreThoseWithOtherIds(t, i, reviewId);
      TableStep(Success(()), Table(rows', t.nextId))
  }

  /** Removing the row at `i` from a valid table removes exactly the rows carrying its id. */
  lemma RemovedRowsAreThoseWithOtherIds(t: Table, i: nat, reviewId: int)
    requires i < |t.rows| && t.rows[i].id == reviewId
    ensures var rows' := t.rows[..i] + t.rows[i + 1..];
      ValidTable(t) ==> forall x :: x in rows' <==> x in t.rows && x.id != reviewId
  {
    var rows' := t.rows[..i] + t.rows[i + 1..];
    if ValidTable(t) {
      forall x | x in rows'
        ensures x in t.rows && x.id != reviewId
      {
        var k :| 0 <= k < |rows'| && rows'[k] == x;
        var j := if k < i then k else k + 1;
        assert t.rows[j] == x;
      }
      forall x | x in t.rows && x.id != reviewId
        ensures x in rows'
      {
        var j :| 0 <= j < |t.rows| && t.rows[j] == x;
        assert j != i;
        if j < i {
          assert rows'[j] == x;
        } else {
          assert rows'[j - 1] == x;
        }
      }
    }
  }

  /** `markReviewAsHelpful`: an unknown id fails; otherwise the helpful count goes up by exactly 1. */
  function MarkReviewAsHelpfulStep(t: Table, reviewId: int, now: Timestamp): (r: TableStep<Review>)
    ensures IndexOfReview(t.rows, reviewId).None? ==> r == TableStep(Failure(ReviewNotFound), t)
    ensures r.outcome.Success? <==> IndexOfReview(t.rows, reviewId).Some?
    ensures r.outcome.Success? ==>
      var i := IndexOfReview(t.rows, reviewId).value;
      && r.outcome.value == t.rows[i].(helpfulCount := t.rows[i].helpfulCount + 1, updatedAt := Some(now))
      && r.table == Table(t.rows[i := r.outcome.value], t.nextId)
    ensures ValidTable(t) ==> ValidTable(r.table)
  {
    match IndexOfReview(t.rows, reviewId)
    case None => TableStep(Failure(ReviewNotFound), t)
    case Some(i) =>
      var review := t.rows[i];
      var saved := OnUpdate(review.(helpfulCount := review.helpfulCount + 1), now);
      TableStep(Success(saved), Table(t.rows[i := saved], t.nextId))
  }

  /** Once a user has reviewed a product, a second review by the same user fails, whatever its fields. */
  lemma SecondReviewRejected(t: Table, req: CreateReviewRequest, req': CreateReviewRequest, t1: Timestamp, t2: Timestamp)
    requires CreateReviewStep(t, req, t1).outcome.Success?
    requires req'.userId == req.userId && req'.productId == req.productId
    ensures var t' := CreateReviewStep(t, req, t1).table;
      CreateReviewStep(t', req', t2) == TableStep(Failure(AlreadyReviewed), t')
  {
    var t' := CreateReviewStep(t, req, t1).table;
    assert t'.rows[|t.rows|] == CreateReviewStep(t, req, t1).outcome.value;
  }

  // ---------------------------------------------------------------------------
  // The service, updating its table in place

  class ReviewService {
    var rows: seq<Review>
    var nextId: int

    ghost predicate Valid()
      reads this
    {
      ValidTable(Table(rows, nextId))
    }

    constructor ()
      ensures Valid() && rows == [] && nextId == 1
    {
      rows := [];
      nextId := 1;
    }

    method CreateReview(req: CreateReviewRequest, now: Timestamp) returns (res: Result<Review, ReviewError>)
      requires Valid()
      modifies this
      ensures Valid()
      ensures TableStep(res, Table(rows, nextId)) == CreateReviewStep(Table(old(rows), old(nextId)), req, now)
    {
      if HasReviewed(rows, req.userId, req.productId) {
        return Failure(AlreadyReviewed);
      }
      var review := DraftReview(req);
      review := review.(userId := req.userId, productId := req.productId);
      var violation := ValidateReviewData(review);
      if violation.Some? {
        return Failure(Invalid(violation.value));
      }
      review := review.(createdAt := Some(now));
      review := review.(helpfulCount := 0);
      review := review.(id := nextId);
      review := OnPersist(review, now);
      rows := rows + [review];
      nextId := nextId + 1;
      res := Success(review);
    }

    method UpdateReview(reviewId: int, req: UpdateReviewRequest, now: Timestamp) returns (res: Result<Review, ReviewError>)
      requires Valid()
      modifies this
      ensures Valid()
      ensures TableStep(res, Table(rows, nextId)) == UpdateReviewStep(Table(old(rows), old(nextId)), reviewId, req, now)
    {
      var found := IndexOfReview(rows, reviewId);
      if found.None? {
        return Failure(ReviewNotFound);
      }
      var i := found.value;
      var review := rows[i];
      review := review.(rating := req.rating, title := req.title, comment := req.comment);
      var violation := ValidateReviewData(review);
      if violation.Some? {
        return Failure(Invalid(violation.value));
      }
      review := OnUpdate(review, now);
      rows := rows[i := review];
      res := Success(review);
    }

    method DeleteReview(reviewId: int) returns (res: Result<(), ReviewError>)
      requires Valid()
      modifies this
      ensures Valid()
      ensures TableStep(res, Table(rows, nextId)) == DeleteReviewStep(Table(old(rows), old(nextId)), reviewId)
    {
      var found := IndexOfReview(rows, reviewId);
      if found.None? {
        return Failure(ReviewNotFound);
      }
      var i := found.value;
      ghost var step := DeleteReviewStep(Table(rows, nextId), reviewId);
      rows := rows[..i] + rows[i + 1..];
      res := Success(());
      assert step.table == Table(rows, nextId);
    }

    method MarkReviewAsHelpful(reviewId: int, now: Timestamp) returns (res: Result<Review, ReviewError>)
      requires Valid()
      modifies this
      ensures Valid()
      ensures TableStep(res, Table(rows, nextId)) == MarkReviewAsHelpfulStep(Table(old(rows), old(nextId)), reviewId, now)
    {
      var found := IndexOfReview(rows, reviewId);
      if found.None? {
        return Failure(ReviewNotFound);
      }
      var i := found.value;
      var review := rows[i];
      review := review.(helpfulCount := review.helpfulCount + 1);
      review := OnUpdate(review, now);
      rows := rows[i := review];
      res := Success(review);
    }
  }
}
