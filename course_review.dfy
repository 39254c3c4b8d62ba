/**
 * The older course-page review form: three star ratings, hours of work per
 * week as typed, an optional instructor and a comment. The hours check of
 * this form compares a string with `null` and so can never fire; the model
 * keeps that check as written beside the intended one, and the form uses
 * the intended one.
 */
module CourseReview {
  import opened Util
  import CourseReviewForm

  /** The keys of `formErrors`: "overall", "challenge", "inclusivity", "workPerWeek", "comments". */
  datatype ErrorKey = OverallError | ChallengeError | InclusivityError | WorkError | CommentsError

  /** The request body; the instructor is present only when one was chosen. */
  datatype Payload = Payload(overall: int, challenge: int, inclusivity: int, workPerWeek: string,
                             comments: string, email: string, instructorId: Option<string>)

  datatype Outcome = Invalid(errors: map<ErrorKey, string>) | Failed(message: string) | Send(httpMethod: string, url: string, payload: Payload)

  function Message(k: ErrorKey): string {
    match k
    case OverallError => "Please select an overall rating."
    case ChallengeError => "Please select a challenge rating."
    case InclusivityError => "Please select an inclusivity rating."
    case WorkError => "Please input the average number of hours of work per week for this course."
    case CommentsError => "Please leave a comment."
  }

  // =====================================================================
  // Validation as written
  // =====================================================================

  /** The checks as the form writes them: the hours string is tested against `null`, which a string never is. */
  predicate FailsAsWritten(k: ErrorKey, r: CourseReviewForm.Ratings, workPerWeek: string, comments: string) {
    match k
    case OverallError => r.overall == 0
    case ChallengeError => r.challenge == 0
    case InclusivityError => r.inclusivity == 0
    case WorkError => false
    case CommentsError => Trim(comments) == ""
  }

  function ValidateAsWritten(r: CourseReviewForm.Ratings, workPerWeek: string, comments: string): (errs: map<ErrorKey, string>)
    ensures WorkError !in errs
    ensures forall k :: k in errs <==> FailsAsWritten(k, r, workPerWeek, comments)
  {
    map k | FailsAsWritten(k, r, workPerWeek, comments) :: Message(k)
  }

  /** With every star chosen and a comment written, empty hours pass the checks as written. */
  lemma EmptyHoursAcceptedAsWritten()
    ensures ValidateAsWritten(CourseReviewForm.Ratings(1, 1, 1), "", "x") == map[]
    ensures WorkError in Validate(CourseReviewForm.Ratings(1, 1, 1), "", "x")
  {
    assert Trim("x") == "x" by {
      assert !IsSpace('x');
    }
    var errs := ValidateAsWritten(CourseReviewForm.Ratings(1, 1, 1), "", "x");
    assert forall k :: k !in errs by {
      forall k ensures k !in errs {
        assert !FailsAsWritten(k, CourseReviewForm.Ratings(1, 1, 1), "", "x");
      }
    }
  }

  // =====================================================================
  // Validation as intended
  // =====================================================================

  /** The checks as intended: empty hours are reported like the other missing fields. */
  predicate Fails(k: ErrorKey, r: CourseReviewForm.Ratings, workPerWeek: string, comments: string) {
    match k
    case WorkError => workPerWeek == ""
    case _ => FailsAsWritten(k, r, workPerWeek, comments)
  }

  function Validate(r: CourseReviewForm.Ratings, workPerWeek: string, comments: string): (errs: map<ErrorKey, string>)
    ensures OverallError in errs <==> r.overall == 0
    ensures ChallengeError in errs <==> r.challenge == 0
    ensures InclusivityError in errs <==> r.inclusivity == 0
    ensures WorkError in errs <==> workPerWeek == ""
    ensures CommentsError in errs <==> Trim(comments) == ""
    ensures forall k :: k in errs <==> Fails(k, r, workPerWeek, comments)
  {
    map k | Fails(k, r, workPerWeek, comments) :: Message(k)
  }

  /** The two versions differ only in the hours check. */
  lemma ValidateExtendsAsWritten(r: CourseReviewForm.Ratings, workPerWeek: string, comments: string)
    ensures ValidateAsWritten(r, workPerWeek, comments) == Validate(r, workPerWeek, comments) - {WorkError}
  {
    var a := ValidateAsWritten(r, workPerWeek, comments);
    var b := Validate(r, workPerWeek, comments) - {WorkError};
    forall k ensures k in a <==> k in b {
      assert k in a <==> FailsAsWritten(k, r, workPerWeek, comments);
      assert k in b <==> k != WorkError && Fails(k, r, workPerWeek, comments);
    }
    assert a.Keys == b.Keys;
    forall k | k in a ensures a[k] == b[k] {
    }
  }

  // =====================================================================
  // Submission
  // =====================================================================

  /**
   * `handleSubmit` with the intended checks: any error stops before the
   * network, a failed current-user lookup ends in the error alert, and the
   * review is PATCHed when editing and POSTed to the course otherwise.
   */
  function Submit(r: CourseReviewForm.Ratings, workPerWeek: string, comments: string, instructorId: string,
                  review: Option<CourseReviewForm.Review>, courseId: Option<int>, email: Option<string>): (o: Outcome)
    ensures var errs := Validate(r, workPerWeek, comments);
      && (errs != map[] <==> o.Invalid?)
      && (o.Invalid? ==> o.errors == errs)
    ensures !o.Invalid? && email.None? ==> o == Failed("Error submitting review")
    ensures o.Send? ==>
      && email.Some? && o.payload.email == email.value
      && o.payload.workPerWeek == workPerWeek
      && (o.payload.instructorId.Some? <==> instructorId != "")
      && (o.payload.instructorId.Some? ==> o.payload.instructorId.value == instructorId)
      && (review.Some? ==> o.httpMethod == "PATCH" && o.url == "/api/courses/reviews/" + review.value.id)
      && (review.None? ==> o.httpMethod == "POST" && o.url == "/api/courses/" + CourseReviewForm.IdText(courseId) + "/reviews")
  {
    var errs := Validate(r, workPerWeek, comments);
    if errs != map[] then Invalid(errs)
    else if email.None? then Failed("Error submitting review")
    else
      var payload := Payload(r.overall, r.challenge, r.inclusivity, workPerWeek, comments, email.value,
                             if instructorId != "" then Some(instructorId) else None);
      if review.Some? then Send("PATCH", "/api/courses/reviews/" + review.value.id, payload)
      else Send("POST", "/api/courses/" + CourseReviewForm.IdText(courseId) + "/reviews", payload)
  }

  /** A request always carries three chosen ratings, some hours and a comment. */
  lemma SentReviewIsComplete(r: CourseReviewForm.Ratings, workPerWeek: string, comments: string, instructorId: string,
                             review: Option<CourseReviewForm.Review>, courseId: Option<int>, email: Option<string>)
    requires Submit(r, workPerWeek, comments, instructorId, review, courseId, email).Send?
    ensures var p := Submit(r, workPerWeek, comments, instructorId, review, courseId, email).payload;
      p.overall != 0 && p.challenge != 0 && p.inclusivity != 0 && p.workPerWeek != "" && Trim(p.comments) != ""
  {
    var errs := Validate(r, workPerWeek, comments);
    assert errs == map[];
    assert OverallError !in errs && ChallengeError !in errs && InclusivityError !in errs;
    assert WorkError !in errs && CommentsError !in errs;
  }

  // =====================================================================
  // Form state
  // =====================================================================

  class Form {
    const courseId: Option<int>
    var ratings: CourseReviewForm.Ratings
    var hovered: CourseReviewForm.Ratings
    var workPerWeek: string
    var instructorId: string
    var comments: string
    var formErrors: map<ErrorKey, string>

    /** Mounting: an existing review fills the form; the instructor id becomes its decimal text. */
    constructor (review: Option<CourseReviewForm.Review>, courseId: Option<int>)
      ensures this.courseId == courseId
      ensures hovered == CourseReviewForm.Ratings(0, 0, 0) && formErrors == map[]
      ensures review.Some? ==>
        && ratings == CourseReviewForm.Ratings(review.value.overallRating, review.value.challengeRating, review.value.inclusivityRating)
        && workPerWeek == CourseReviewForm.ShownHours(review.value.workPerWeek)
        && instructorId == IntToString(review.value.instructorId) && comments == review.value.comments
      ensures review.None? ==> ratings == CourseReviewForm.Ratings(0, 0, 0) && workPerWeek == "" && instructorId == "" && comments == ""
    {
      this.courseId := courseId;
      hovered := CourseReviewForm.Ratings(0, 0, 0);
      formErrors := map[];
      if review.Some? {
        var v := review.value;
        ratings := CourseReviewForm.Ratings(v.overallRating, v.challengeRating, v.inclusivityRating);
        workPerWeek := CourseReviewForm.ShownHours(v.workPerWeek);
        instructorId := IntToString(v.instructorId);
        comments := v.comments;
      } else {
        ratings := CourseReviewForm.Ratings(0, 0, 0);
        workPerWeek := "";
        instructorId := "";
        comments := "";
      }
    }

    method HandleStarClick(c: CourseReviewForm.Category, value: int)
      modifies this
      ensures ratings == CourseReviewForm.SetRating(old(ratings), c, value)
      ensures hovered == old(hovered) && workPerWeek == old(workPerWeek) && instructorId == old(instructorId)
      ensures comments == old(comments) && formErrors == old(formErrors)
    {
      ratings := CourseReviewForm.SetRating(ratings, c, value);
    }

    method HandleStarHover(c: CourseReviewForm.Category, value: int)
      modifies this
      ensures hovered == CourseReviewForm.SetRating(old(hovered), c, value)
      ensures ratings == old(ratings) && workPerWeek == old(workPerWeek) && instructorId == old(instructorId)
      ensures comments == old(comments) && formErrors == old(formErrors)
    {
      hovered := CourseReviewForm.SetRating(hovered, c, value);
    }

    method HandleStarHoverOut(c: CourseReviewForm.Category)
      modifies this
      ensures hovered == CourseReviewForm.SetRating(old(hovered), c, 0)
      ensures ratings == old(ratings) && workPerWeek == old(workPerWeek) && instructorId == old(instructorId)
      ensures comments == old(comments) && formErrors == old(formErrors)
    {
      hovered := CourseReviewForm.SetRating(hovered, c, 0);
    }

    /** Submitting with the intended checks; the errors are shown when there are any. */
    method HandleSubmit(review: Option<CourseReviewForm.Review>, email: Option<string>) returns (o: Outcome)
      modifies this
      ensures o == Submit(ratings, workPerWeek, comments, instructorId, review, courseId, email)
      ensures o.Invalid? ==> formErrors == o.errors
      ensures !o.Invalid? ==> formErrors == old(formErrors)
      ensures ratings == old(ratings) && hovered == old(hovered) && workPerWeek == old(workPerWeek)
      ensures instructorId == old(instructorId) && comments == old(comments)
    {
      o := Submit(ratings, workPerWeek, comments, instructorId, review, courseId, email);
      if o.Invalid? {
        formErrors := o.errors;
      }
    }
  }
}
