/**
 * Open-forum ratings: the admission rules of POST /:id/rate, the rating
 * invariant those rules keep (both scores between 1 and 5, at most one rating
 * per user and event), and the comment listing.
 */
module Forum {
  import opened Util

  /** A JSON value of the request body, as far as the checks look at it. */
  datatype Json = Num(x: real) | Arr(items: seq<CustomRating>) | OtherValue

  datatype CustomRating = CustomRating(question: string, rating: real)

  datatype Rating = Rating(userId: string, isAnonymous: bool, overall: real, wouldRepeat: real,
                           customRatings: seq<CustomRating>, createdAt: int)

  datatype RateRequest = RateRequest(userId: string, isAnonymous: bool, overall: Json, wouldRepeat: Json, customRatings: Json)

  /** `typeof v === 'number'` and 1 <= v <= 5. */
  predicate InRange(v: Json) {
    v.Num? && 1.0 <= v.x <= 5.0
  }

  /** The JSON test of the route: both scores numbers in [1, 5] and customRatings an array. */
  predicate ValidRatingData(r: RateRequest) {
    InRange(r.overall) && InRange(r.wouldRepeat) && r.customRatings.Arr?
  }

  /** `event.hasUserRated(userId)`: the event schema does not define it; read as some rating having the user's id. */
  predicate HasUserRated(ratings: seq<Rating>, userId: string) {
    exists i :: 0 <= i < |ratings| && ratings[i].userId == userId
  }

  /** The rating invariant: scores in [1, 5] and one rating per user, as the review schema states for reviews. */
  predicate WellFormed(ratings: seq<Rating>) {
    && (forall i :: 0 <= i < |ratings| ==> 1.0 <= ratings[i].overall <= 5.0 && 1.0 <= ratings[i].wouldRepeat <= 5.0)
    && (forall i, j :: 0 <= i < j < |ratings| ==> ratings[i].userId != ratings[j].userId)
  }

  /** The status of a rating request for an existing event, checked in order: 400, 403, 409, else 201. */
  function RateStatus(r: RateRequest, now: int, ratingUntil: int, ratings: seq<Rating>): (status: int)
    ensures status == 201 <==> ValidRatingData(r) && now <= ratingUntil && !HasUserRated(ratings, r.userId)
    ensures status == 400 <==> !ValidRatingData(r)
    ensures status == 403 <==> ValidRatingData(r) && now > ratingUntil
    ensures status == 409 <==> ValidRatingData(r) && now <= ratingUntil && HasUserRated(ratings, r.userId)
  {
    if !ValidRatingData(r) then 400
    else if now > ratingUntil then 403
    else if HasUserRated(ratings, r.userId) then 409
    else 201
  }

  /** The rating that is pushed, stamped with the time the period was checked against. */
  function NewRating(r: RateRequest, now: int): (x: Rating)
    requires ValidRatingData(r)
    ensures 1.0 <= x.overall <= 5.0 && 1.0 <= x.wouldRepeat <= 5.0
    ensures x.userId == r.userId && x.createdAt == now && x.customRatings == r.customRatings.items
  {
    Rating(r.userId, r.isAnonymous, r.overall.x, r.wouldRepeat.x, r.customRatings.items, now)
  }

  /** An admitted rating keeps the invariant. */
  lemma AdmitKeepsWellFormed(ratings: seq<Rating>, r: RateRequest, now: int, ratingUntil: int)
    requires WellFormed(ratings) && RateStatus(r, now, ratingUntil, ratings) == 201
    ensures WellFormed(ratings + [NewRating(r, now)])
  {
    var t := ratings + [NewRating(r, now)];
    forall i, j | 0 <= i < j < |t| ensures t[i].userId != t[j].userId {
      if j == |ratings| {
        assert t[i] == ratings[i];
      }
    }
  }

  /** A user who has rated can never add a second rating to the same event. */
  lemma SecondRatingRefused(ratings: seq<Rating>, r: RateRequest, now: int, ratingUntil: int, r2: RateRequest, later: int)
    requires RateStatus(r, now, ratingUntil, ratings) == 201 && r2.userId == r.userId
    ensures RateStatus(r2, later, ratingUntil, ratings + [NewRating(r, now)]) != 201
  {
    assert (ratings + [NewRating(r, now)])[|ratings|].userId == r.userId;
  }

  /**
   * The rating status as the route stands: the event schema defines neither
   * `hasUserRated` nor `ratings`, so once the body passes the JSON test and
   * the period is still open the call throws and the catch answers 400.
   */
  function RateStatusAsWritten(r: RateRequest, now: int, ratingUntil: int): (status: int)
    ensures status == 403 <==> ValidRatingData(r) && now > ratingUntil
    ensures status == 400 <==> !ValidRatingData(r) || now <= ratingUntil
  {
    if !ValidRatingData(r) then 400
    else if now > ratingUntil then 403
    else 400
  }

  /** As written no rating is ever admitted: every request the intended rules admit answers 400 instead. */
  lemma RatingRefusedAsWritten(r: RateRequest, now: int, ratingUntil: int, ratings: seq<Rating>)
    ensures RateStatusAsWritten(r, now, ratingUntil) != 201
    ensures RateStatus(r, now, ratingUntil, ratings) == 201 ==> RateStatusAsWritten(r, now, ratingUntil) == 400
  {
  }

  /** A concrete request that shows it: valid scores, an empty custom list, an open period and no earlier rating. */
  lemma OpenRatingRefusedAsWritten()
    ensures var r := RateRequest("u", false, Num(4.0), Num(3.0), Arr([]));
      RateStatus(r, 0, 10, []) == 201 && RateStatusAsWritten(r, 0, 10) == 400
  {
  }

  class ForumEvent {
    var ratings: seq<Rating>
    const ratingUntil: int

    ghost predicate Valid()
      reads this
    {
      WellFormed(ratings)
    }

    constructor (ratingUntil: int)
      ensures Valid() && ratings == [] && this.ratingUntil == ratingUntil
    {
      this.ratingUntil := ratingUntil;
      ratings := [];
    }

    /** The handler body after the event was found; `now` is the time the request is checked at. */
    method Rate(r: RateRequest, now: int) returns (status: int)
      requires Valid()
      modifies this
      ensures Valid()
      ensures status == RateStatus(r, now, ratingUntil, old(ratings))
      ensures status == 201 ==> ratings == old(ratings) + [NewRating(r, now)]
      ensures status != 201 ==> ratings == old(ratings)
    {
      if !(r.overall.Num? && 1.0 <= r.overall.x <= 5.0) || !(r.wouldRepeat.Num? && 1.0 <= r.wouldRepeat.x <= 5.0) || !r.customRatings.Arr? {
        return 400;
      }
      var ratingDate := now;
      if ratingDate > ratingUntil {
        return 403;
      }
      if HasUserRated(ratings, r.userId) {
        return 409;
      }
      AdmitKeepsWellFormed(ratings, r, now, ratingUntil);
      ratings := ratings + [NewRating(r, ratingDate)];
      status := 201;
    }
  }

  /**
   * POST /:id/rate; `event` is what `findById(id)` finds. An id that does
   * not cast makes the lookup throw, and the catch answers 400 before any
   * check; 404 when no event has the id.
   */
  method RateEvent(id: string, event: Option<ForumEvent>, r: RateRequest, now: int) returns (status: int)
    requires event.Some? ==> event.value.Valid()
    modifies if event.Some? then {event.value} else {}
    ensures !IsObjectId(id) ==> status == 400
    ensures !IsObjectId(id) && event.Some? ==> event.value.ratings == old(event.value.ratings)
    ensures IsObjectId(id) && event.None? ==> status == 404
    ensures event.Some? ==> event.value.Valid()
    ensures IsObjectId(id) && event.Some? ==> status == RateStatus(r, now, event.value.ratingUntil, old(event.value.ratings))
  {
    if !IsObjectId(id) {
      return 400;
    }
    if event.None? {
      return 404;
    }
    status := event.value.Rate(r, now);
  }

  // =====================================================================
  // Comments
  // =====================================================================

  datatype Comment = Comment(eventId: string, author: string, content: string, isHidden: bool)

  /** `EventComment.find({ eventId: id, isHidden: false })`, in stored order. */
  function VisibleComments(comments: seq<Comment>, id: string): (r: seq<Comment>)
    ensures |r| <= |comments|
  {
    if comments == [] then []
    else (if comments[0].eventId == id && !comments[0].isHidden then [comments[0]] else []) + VisibleComments(comments[1..], id)
  }

  /** The listing holds exactly the event's non-hidden comments. */
  lemma {:induction false} VisibleCommentsMeaning(comments: seq<Comment>, id: string)
    ensures forall c :: c in VisibleComments(comments, id) <==> c in comments && c.eventId == id && !c.isHidden
    decreases |comments|
  {
    if comments != [] {
      VisibleCommentsMeaning(comments[1..], id);
      assert comments == [comments[0]] + comments[1..];
    }
  }

  /** The answer of GET /:id/comments. */
  datatype CommentsResponse = CommentsFailed | CommentsListed(comments: seq<Comment>)

  /**
   * GET /:id/comments as the routes stand: the models file does not export
   * `EventComment`, so the imported name is undefined, the find throws and
   * the catch answers 500 for every event.
   */
  function ListCommentsAsWritten(comments: seq<Comment>, id: string): (r: CommentsResponse)
    ensures r.CommentsFailed?
  {
    CommentsFailed
  }

  /**
   * GET /:id/comments with the comment model exported. The `eventId`
   * filter casts the id, so an id that does not cast throws into the 500
   * catch; otherwise the find returns the event's visible comments, empty
   * or not, so the 404 branch of the route is never taken.
   */
  function ListComments(comments: seq<Comment>, id: string): (r: CommentsResponse)
    ensures r.CommentsFailed? <==> !IsObjectId(id)
    ensures r.CommentsListed? ==> forall c :: c in r.comments <==> c in comments && c.eventId == id && !c.isHidden
  {
    VisibleCommentsMeaning(comments, id);
    if !IsObjectId(id) then CommentsFailed else CommentsListed(VisibleComments(comments, id))
  }

  /**
   * As written the listing fails for every event, including one whose
   * visible comments the intended route lists. A stored comment's eventId
   * is an object id, as its schema type demands.
   */
  lemma CommentsFailAsWritten(comments: seq<Comment>, id: string, k: nat)
    requires k < |comments| && IsObjectId(comments[k].eventId)
    requires comments[k].eventId == id && !comments[k].isHidden
    ensures ListCommentsAsWritten(comments, id).CommentsFailed?
    ensures comments[k] in ListComments(comments, id).comments
  {
  }

  /** Every comment of the event that is not hidden is listed, and hiding one removes it from the listing. */
  lemma HiddenNotListed(comments: seq<Comment>, id: string, k: nat)
    requires k < |comments|
    ensures comments[k].eventId == id && !comments[k].isHidden ==> comments[k] in VisibleComments(comments, id)
    ensures comments[k].isHidden ==> comments[k] !in VisibleComments(comments, id)
  {
    VisibleCommentsMeaning(comments, id);
  }
}
