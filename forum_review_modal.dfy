/**
 * The open-forum rating modal: a form with an overall rating, a
 * would-repeat rating, one rating per custom question of the event, an
 * anonymity switch and a comment; it is filled from an existing review when
 * editing, and validated in a fixed order before anything is sent.
 */
module ForumReviewModal {
  import opened Util

  /** The event details the modal loads; `ratingUntil` is None when the date does not parse. */
  datatype EventDetails = EventDetails(ratingUntil: Option<int>, customQuestions: seq<string>)

  datatype CustomRating = CustomRating(question: string, rating: int)

  /** An existing review; absent numbers and texts read as 0 and "". */
  datatype Review = Review(id: string, overall: int, wouldRepeat: int, isAnonymous: bool, content: string,
                           customRatings: Option<seq<CustomRating>>)

  datatype Body = Body(isAnonymous: bool, content: string, overall: int, wouldRepeat: int, customRatings: seq<CustomRating>)

  /** What pressing submit does: an alert and nothing else, or one request. */
  datatype Submission = Alert(message: string) | Send(httpMethod: string, url: string, body: Body)

  const ExpiredMessage := "Rating period has expired. You can no longer submit reviews for this event."
  const OverallMessage := "Please provide an overall rating"
  const RepeatMessage := "Please indicate if you would repeat this event"
  const CustomMessage := "Please rate all custom questions"

  /** A star is lit when it is at most the hovered star or, with none hovered, the rating. */
  function StarLit(star: int, hovered: int, rating: int): (lit: bool)
    ensures hovered != 0 ==> (lit <==> star <= hovered)
    ensures hovered == 0 ==> (lit <==> star <= rating)
  {
    star <= (if hovered != 0 then hovered else rating)
  }

  // =====================================================================
  // Filling the form
  // =====================================================================

  /** Where the last entry about q stands in s, if any. */
  ghost predicate LastAbout(s: seq<CustomRating>, q: string, j: int) {
    0 <= j < |s| && s[j].question == q && forall k :: j < k < |s| ==> s[k].question != q
  }

  /** The `forEach` that turns a review's custom ratings into a question-to-rating record; a later entry wins. */
  method RatingsRecord(s: seq<CustomRating>) returns (m: map<string, int>)
    ensures forall q :: q in m <==> exists j :: 0 <= j < |s| && s[j].question == q
    ensures forall q :: q in m ==> exists j :: LastAbout(s, q, j) && m[q] == s[j].rating
  {
    m := map[];
    var i := 0;
    while i < |s|
      invariant 0 <= i <= |s|
      invariant forall q :: q in m <==> exists j :: 0 <= j < i && s[j].question == q
      invariant forall q :: q in m ==> exists j :: LastAbout(s[..i], q, j) && m[q] == s[j].rating
    {
      var q0 := s[i].question;
      forall q | q in m && q != q0 ensures exists j :: LastAbout(s[..i + 1], q, j) && m[q] == s[j].rating {
        var j :| LastAbout(s[..i], q, j) && m[q] == s[j].rating;
        assert LastAbout(s[..i + 1], q, j);
      }
      assert LastAbout(s[..i + 1], q0, i);
      m := m[q0 := s[i].rating];
      i := i + 1;
    }
    assert s[..i] == s;
  }

  /** The `forEach` that starts every custom question at 0. */
  method ZeroRatings(questions: seq<string>) returns (m: map<string, int>)
    ensures forall q :: q in m <==> q in questions
    ensures forall q :: q in m ==> m[q] == 0
  {
    m := map[];
    var i := 0;
    while i < |questions|
      invariant 0 <= i <= |questions|
      invariant forall q :: q in m <==> q in questions[..i]
      invariant forall q :: q in m ==> m[q] == 0
    {
      assert questions[..i + 1] == questions[..i] + [questions[i]];
      m := m[questions[i] := 0];
      i := i + 1;
    }
    assert questions[..i] == questions;
  }

  // =====================================================================
  // Submitting
  // =====================================================================

  /** `ratingUntil < now`; an unparseable date never counts as expired. */
  predicate Expired(details: Option<EventDetails>, now: int) {
    details.Some? && details.value.ratingUntil.Some? && details.value.ratingUntil.value < now
  }

  function Questions(details: Option<EventDetails>): seq<string> {
    if details.Some? then details.value.customQuestions else []
  }

  /** `!customRatings[q] || customRatings[q] === 0`. */
  predicate Unrated(ratings: map<string, int>, q: string) {
    q !in ratings || ratings[q] == 0
  }

  function AnyUnrated(questions: seq<string>, ratings: map<string, int>): (b: bool)
    ensures b <==> exists i :: 0 <= i < |questions| && Unrated(ratings, questions[i])
  {
    if questions == [] then false
    else Unrated(ratings, questions[0]) || AnyUnrated(questions[1..], ratings)
  }

  /** The custom ratings sent: one per question, in question order, a missing rating as 0. */
  function RatingsArray(questions: seq<string>, ratings: map<string, int>): (r: seq<CustomRating>)
    ensures |r| == |questions|
    ensures forall i :: 0 <= i < |questions| ==>
      r[i] == CustomRating(questions[i], if questions[i] in ratings then ratings[questions[i]] else 0)
  {
    if questions == [] then []
    else [CustomRating(questions[0], if questions[0] in ratings then ratings[questions[0]] else 0)] + RatingsArray(questions[1..], ratings)
  }

  /** `handleSubmit`: the checks in order, then a PUT to the review when editing or a POST to the event. */
  function Submit(details: Option<EventDetails>, overall: int, wouldRepeat: int, ratings: map<string, int>,
                  isAnonymous: bool, content: string, review: Option<Review>, eventId: string, now: int): (r: Submission)
    ensures Expired(details, now) ==> r == Alert(ExpiredMessage)
    ensures !Expired(details, now) && overall == 0 ==> r == Alert(OverallMessage)
    ensures !Expired(details, now) && overall != 0 && wouldRepeat == 0 ==> r == Alert(RepeatMessage)
    ensures !Expired(details, now) && overall != 0 && wouldRepeat != 0 && AnyUnrated(Questions(details), ratings) ==>
      r == Alert(CustomMessage)
    ensures r.Send? <==> !Expired(details, now) && overall != 0 && wouldRepeat != 0 && !AnyUnrated(Questions(details), ratings)
    ensures r.Send? ==>
      && r.body == Body(isAnonymous, content, overall, wouldRepeat, RatingsArray(Questions(details), ratings))
      && (review.Some? ==> r.httpMethod == "PUT" && r.url == "/api/openforum/" + review.value.id + "/review")
      && (review.None? ==> r.httpMethod == "POST" && r.url == "/api/openforum/" + eventId + "/review")
  {
    if Expired(details, now) then Alert(ExpiredMessage)
    else if overall == 0 then Alert(OverallMessage)
    else if wouldRepeat == 0 then Alert(RepeatMessage)
    else if AnyUnrated(Questions(details), ratings) then Alert(CustomMessage)
    else
      var body := Body(isAnonymous, content, overall, wouldRepeat, RatingsArray(Questions(details), ratings));
      if review.Some? then Send("PUT", "/api/openforum/" + review.value.id + "/review", body)
      else Send("POST", "/api/openforum/" + eventId + "/review", body)
  }

  /** A request carries a non-zero rating for every custom question, each the one the form holds: the 0 fallback is never sent. */
  lemma {:induction false} SentRatingsAreGiven(details: Option<EventDetails>, overall: int, wouldRepeat: int, ratings: map<string, int>,
                                               isAnonymous: bool, content: string, review: Option<Review>, eventId: string, now: int)
    requires Submit(details, overall, wouldRepeat, ratings, isAnonymous, content, review, eventId, now).Send?
    ensures var sent := Submit(details, overall, wouldRepeat, ratings, isAnonymous, content, review, eventId, now).body.customRatings;
      && |sent| == |Questions(details)|
      && forall i :: 0 <= i < |sent| ==>
        sent[i].question == Questions(details)[i] && sent[i].question in ratings && sent[i].rating == ratings[sent[i].question] != 0
  {
    var qs := Questions(details);
    forall i | 0 <= i < |qs| ensures !Unrated(ratings, qs[i]) {
      assert !AnyUnrated(qs, ratings);
    }
  }

  // =====================================================================
  // Modal state
  // =====================================================================

  class Modal {
    var eventDetails: Option<EventDetails>
    var overallRating: int
    var wouldRepeat: int
    var customRatings: map<string, int>
    var isAnonymous: bool
    var content: string
    var submitting: bool

    constructor ()
      ensures eventDetails == None && overallRating == 0 && wouldRepeat == 0 && customRatings == map[]
      ensures !isAnonymous && content == "" && !submitting
    {
      eventDetails := None;
      overallRating := 0;
      wouldRepeat := 0;
      customRatings := map[];
      isAnonymous := false;
      content := "";
      submitting := false;
    }

    /**
     * Opening the modal: an existing review's fields are copied (its custom
     * ratings only when it has them); without a review every field is reset.
     */
    method Open(review: Option<Review>)
      modifies this
      ensures review.None? ==> overallRating == 0 && wouldRepeat == 0 && !isAnonymous && content == "" && customRatings == map[]
      ensures review.Some? ==>
        && overallRating == review.value.overall && wouldRepeat == review.value.wouldRepeat
        && isAnonymous == review.value.isAnonymous && content == review.value.content
      ensures review.Some? && review.value.customRatings.None? ==> customRatings == old(customRatings)
      ensures review.Some? && review.value.customRatings.Some? ==>
        var s := review.value.customRatings.value;
        && (forall q :: q in customRatings <==> exists j :: 0 <= j < |s| && s[j].question == q)
        && (forall q :: q in customRatings ==> exists j :: LastAbout(s, q, j) && customRatings[q] == s[j].rating)
      ensures eventDetails == old(eventDetails) && submitting == old(submitting)
    {
      if review.Some? {
        var r := review.value;
        overallRating := r.overall;
        wouldRepeat := r.wouldRepeat;
        isAnonymous := r.isAnonymous;
        content := r.content;
        if r.customRatings.Some? {
          customRatings := RatingsRecord(r.customRatings.value);
        }
      } else {
        overallRating := 0;
        wouldRepeat := 0;
        isAnonymous := false;
        content := "";
        customRatings := map[];
      }
    }

    /** The event details arrive; questions start at 0 unless the review being edited brought its own ratings. */
    method EventDetailsLoaded(data: EventDetails, review: Option<Review>)
      modifies this
      ensures eventDetails == Some(data)
      ensures |data.customQuestions| > 0 && (review.None? || review.value.customRatings.None?) ==>
        (forall q :: q in customRatings <==> q in data.customQuestions) && (forall q :: q in customRatings ==> customRatings[q] == 0)
      ensures !(|data.customQuestions| > 0 && (review.None? || review.value.customRatings.None?)) ==> customRatings == old(customRatings)
      ensures overallRating == old(overallRating) && wouldRepeat == old(wouldRepeat) && isAnonymous == old(isAnonymous)
      ensures content == old(content) && submitting == old(submitting)
    {
      eventDetails := Some(data);
      if |data.customQuestions| > 0 && (review.None? || review.value.customRatings.None?) {
        customRatings := ZeroRatings(data.customQuestions);
      }
    }

    method HandleCustomRatingChange(question: string, rating: int)
      modifies this
      ensures customRatings == old(customRatings)[question := rating]
      ensures eventDetails == old(eventDetails) && overallRating == old(overallRating) && wouldRepeat == old(wouldRepeat)
      ensures isAnonymous == old(isAnonymous) && content == old(content) && submitting == old(submitting)
    {
      customRatings := customRatings[question := rating];
    }

    /** Pressing submit: the outcome, with the form marked as submitting only when a request goes out. */
    method HandleSubmit(review: Option<Review>, eventId: string, now: int) returns (out: Submission)
      modifies this
      ensures out == Submit(eventDetails, overallRating, wouldRepeat, customRatings, isAnonymous, content, review, eventId, now)
      ensures submitting == (out.Send? || old(submitting))
      ensures eventDetails == old(eventDetails) && overallRating == old(overallRating) && wouldRepeat == old(wouldRepeat)
      ensures customRatings == old(customRatings) && isAnonymous == old(isAnonymous) && content == old(content)
    {
      out := Submit(eventDetails, overallRating, wouldRepeat, customRatings, isAnonymous, content, review, eventId, now);
      if out.Send? {
        submitting := true;
      }
    }
  }
}
